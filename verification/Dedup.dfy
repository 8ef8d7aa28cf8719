/** What deduplicating one chunk means, on values, and how batches of chunks are laid out. */
module Dedup {

  import opened Bytes
  import opened ContainerFormat
  import opened Packing

  /** The index maps a fingerprint to the name of the container that holds the chunk. */
  datatype Index = Index(store: map<Buffer, Buffer>, uniqueChunkNum: nat, uniqueDataSize: nat)

  datatype Upload = Upload(index: Index, client: Client)

  /** The hash is a parameter of the model: some function from chunks to 32 bytes. */
  ghost predicate IsHash(H: Buffer -> Buffer) {
    forall data :: |H(data)| == CHUNK_HASH_SIZE
  }

  function UploadOne(u: Upload, H: Buffer -> Buffer, data: Buffer, newId: Buffer): Upload {
    var hash := H(data);
    if hash in u.index.store then u
    else
      var client := Write(u.client, Entry(hash, data), newId);
      Upload(Index(u.index.store[hash := client.cur.id], u.index.uniqueChunkNum + 1, u.index.uniqueDataSize + |data|),
             client)
  }

  function UploadAll(u: Upload, H: Buffer -> Buffer, chunks: seq<Buffer>, ids: seq<Buffer>): Upload
    requires |ids| == |chunks|
  {
    if chunks == [] then u
    else
      var n := |chunks| - 1;
      UploadOne(UploadAll(u, H, chunks[..n], ids[..n]), H, chunks[n], ids[n])
  }

  lemma UploadStep(u: Upload, H: Buffer -> Buffer, chunks: seq<Buffer>, ids: seq<Buffer>, i: nat)
    requires i < |chunks| == |ids|
    ensures UploadAll(u, H, chunks[..i + 1], ids[..i + 1])
         == UploadOne(UploadAll(u, H, chunks[..i], ids[..i]), H, chunks[i], ids[i])
  {
    assert chunks[..i + 1][..i] == chunks[..i] && ids[..i + 1][..i] == ids[..i];
  }

  // ----- batches on the wire -----

  function Record(data: Buffer): Buffer { LittleEndian(|data|) + data }

  function Batch(chunks: seq<Buffer>): Buffer {
    if chunks == [] then [] else Batch(chunks[..|chunks| - 1]) + Record(chunks[|chunks| - 1])
  }

  lemma BatchStep(chunks: seq<Buffer>, i: nat)
    requires i < |chunks|
    ensures Batch(chunks[..i + 1]) == Batch(chunks[..i]) + Record(chunks[i])
  {
    assert chunks[..i + 1][..i] == chunks[..i];
  }

  lemma {:induction false} BatchPrefix(chunks: seq<Buffer>, i: nat)
    requires i <= |chunks|
    ensures Batch(chunks[..i]) <= Batch(chunks)
  {
    if i == |chunks| {
      assert chunks[..i] == chunks;
    } else {
      var init := chunks[..|chunks| - 1];
      BatchPrefix(init, i);
      assert init[..i] == chunks[..i];
    }
  }

  /** Record `i` of a batch, read back from any buffer that starts with the batch. */
  lemma RecordParsed(chunks: seq<Buffer>, i: nat, buf: Buffer)
    requires i < |chunks| && |chunks[i]| < WORD_LIMIT && Batch(chunks) <= buf
    ensures var at := |Batch(chunks[..i])|;
      && at + WORD_SIZE + |chunks[i]| <= |buf|
      && FromLittleEndian(buf[at..at + WORD_SIZE]) == |chunks[i]|
      && buf[at + WORD_SIZE..at + WORD_SIZE + |chunks[i]|] == chunks[i]
      && |Batch(chunks[..i + 1])| == at + WORD_SIZE + |chunks[i]|
  {
    var before, at, n := Batch(chunks[..i]), |Batch(chunks[..i])|, |chunks[i]|;
    BatchStep(chunks, i);
    BatchPrefix(chunks, i + 1);
    var p := before + LittleEndian(n) + chunks[i];
    assert p == before + Record(chunks[i]);
    SliceOfMiddle(before, LittleEndian(n), chunks[i], 0, WORD_SIZE);
    assert LittleEndian(n)[0..WORD_SIZE] == LittleEndian(n);
    SliceOfPrefix(p, buf, at, at + WORD_SIZE);
    SliceOfEnd(before + LittleEndian(n), chunks[i], 0, n);
    assert chunks[i][0..n] == chunks[i];
    SliceOfPrefix(p, buf, at + WORD_SIZE, at + WORD_SIZE + n);
    LittleEndianRoundTrip(n);
  }

  /** The fingerprints of a recipe, one after the other. */
  function Recipe(hashes: seq<Buffer>): Buffer {
    if hashes == [] then [] else Recipe(hashes[..|hashes| - 1]) + hashes[|hashes| - 1]
  }

  ghost predicate RecipeOk(hashes: seq<Buffer>) {
    forall i :: 0 <= i < |hashes| ==> |hashes[i]| == CHUNK_HASH_SIZE
  }

  lemma {:induction false} RecipeSlice(hashes: seq<Buffer>, i: nat)
    requires RecipeOk(hashes) && i < |hashes|
    ensures |Recipe(hashes)| == CHUNK_HASH_SIZE * |hashes|
    ensures Recipe(hashes)[CHUNK_HASH_SIZE * i..CHUNK_HASH_SIZE * (i + 1)] == hashes[i]
  {
    var n := |hashes| - 1;
    var init := hashes[..n];
    if n == 0 {
      assert init == [];
      assert Recipe(hashes) == [] + hashes[0];
    } else {
      RecipeSlice(init, if i < n then i else 0);
      var at := CHUNK_HASH_SIZE * i;
      if i < n {
        SliceOfPrefix(Recipe(init), Recipe(hashes), at, at + CHUNK_HASH_SIZE);
      } else {
        SliceOfEnd(Recipe(init), hashes[n], 0, CHUNK_HASH_SIZE);
      }
    }
  }

  lemma RecipeSize(hashes: seq<Buffer>)
    requires RecipeOk(hashes)
    ensures |Recipe(hashes)| == CHUNK_HASH_SIZE * |hashes|
  {
    if hashes != [] {
      RecipeSlice(hashes, 0);
    }
  }

  /** The answer to a query: 0 for a fingerprint the server has, 1 for one to upload. */
  function Statuses(store: map<Buffer, Buffer>, hashes: seq<Buffer>): (r: Buffer)
    ensures |r| == |hashes|
  {
    seq(|hashes|, i requires 0 <= i < |hashes| => if hashes[i] in store then 0 else 1)
  }
}
