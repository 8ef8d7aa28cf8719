/** The container format: a count, a header of 40-byte entries (fingerprint, offset into the
    body, length), and the chunks one after the other.  Counts, offsets and lengths are
    big-endian words. */
module ContainerFormat {

  import opened Bytes

  const CHUNK_HASH_SIZE: nat := 32
  const ENTRY_SIZE: nat := 40
  const MAX_CONTAINER_SIZE: nat := 0x40_0000

  datatype Entry = Entry(hash: Buffer, data: Buffer)

  ghost predicate HashesOk(entries: seq<Entry>) {
    forall i :: 0 <= i < |entries| ==> |entries[i].hash| == CHUNK_HASH_SIZE
  }

  // ----- printing -----

  function Body(entries: seq<Entry>): Buffer {
    if entries == [] then [] else Body(entries[..|entries| - 1]) + entries[|entries| - 1].data
  }

  function HeaderEntry(hash: Buffer, offset: nat, length: nat): Buffer {
    hash + BigEndian(offset) + BigEndian(length)
  }

  function Header(entries: seq<Entry>): Buffer {
    if entries == [] then []
    else
      var init, last := entries[..|entries| - 1], entries[|entries| - 1];
      Header(init) + HeaderEntry(last.hash, |Body(init)|, |last.data|)
  }

  function Serialise(entries: seq<Entry>): Buffer {
    BigEndian(|entries|) + Header(entries) + Body(entries)
  }

  // ----- parsing, as the restore side does -----

  datatype Found = Found(hash: Buffer, offset: nat, length: nat)

  function ParsedCount(buf: Buffer): nat
    requires |buf| >= WORD_SIZE
  {
    FromBigEndian(buf[..WORD_SIZE])
  }

  function EntryAt(j: nat): nat { WORD_SIZE + j * ENTRY_SIZE }

  /** Header entry `j`; its offset is made absolute by adding the size of what precedes the body. */
  function ParsedEntry(buf: Buffer, j: nat): Found
    requires |buf| >= EntryAt(j + 1)
  {
    var at := EntryAt(j);
    Found(buf[at..at + CHUNK_HASH_SIZE],
          FromBigEndian(buf[at + CHUNK_HASH_SIZE..at + CHUNK_HASH_SIZE + WORD_SIZE])
            + ParsedCount(buf) * ENTRY_SIZE + WORD_SIZE,
          FromBigEndian(buf[at + CHUNK_HASH_SIZE + WORD_SIZE..at + ENTRY_SIZE]))
  }

  // ----- sizes -----

  lemma {:induction false} HeaderSize(entries: seq<Entry>)
    requires HashesOk(entries)
    ensures |Header(entries)| == ENTRY_SIZE * |entries|
  {
    if entries != [] {
      HeaderSize(entries[..|entries| - 1]);
    }
  }

  /** The body of a prefix is a prefix of the body. */
  lemma {:induction false} BodyPrefix(entries: seq<Entry>, j: nat)
    requires j <= |entries|
    ensures Body(entries[..j]) <= Body(entries)
  {
    if j == |entries| {
      assert entries[..j] == entries;
    } else {
      var init := entries[..|entries| - 1];
      BodyPrefix(init, j);
      assert init[..j] == entries[..j];
    }
  }

  lemma {:induction false} HeaderPrefix(entries: seq<Entry>, j: nat)
    requires j <= |entries|
    ensures Header(entries[..j]) <= Header(entries)
  {
    if j == |entries| {
      assert entries[..j] == entries;
    } else {
      var init := entries[..|entries| - 1];
      HeaderPrefix(init, j);
      assert init[..j] == entries[..j];
    }
  }

  /** Chunk `j` lies in the body right after the chunks before it. */
  lemma ChunkInBody(entries: seq<Entry>, j: nat)
    requires j < |entries|
    ensures var at, n := |Body(entries[..j])|, |entries[j].data|;
      at + n <= |Body(entries)| && Body(entries)[at..at + n] == entries[j].data && |Body(entries[..j + 1])| == at + n
  {
    assert entries[..j + 1][..j] == entries[..j];
    assert Body(entries[..j + 1]) == Body(entries[..j]) + entries[j].data;
    BodyPrefix(entries, j + 1);
  }

  lemma EntryInHeader(entries: seq<Entry>, j: nat)
    requires HashesOk(entries) && j < |entries|
    ensures |Header(entries)| == ENTRY_SIZE * |entries|
    ensures Header(entries)[ENTRY_SIZE * j..ENTRY_SIZE * (j + 1)]
         == HeaderEntry(entries[j].hash, |Body(entries[..j])|, |entries[j].data|)
  {
    HeaderSize(entries);
    assert entries[..j + 1][..j] == entries[..j];
    HeaderSize(entries[..j]);
    HeaderSize(entries[..j + 1]);
    HeaderPrefix(entries, j + 1);
  }

  /** The bytes of a container: the count in the first four, then for each chunk 32 bytes of
      fingerprint, four of its offset in the body and four of its length, high byte first. */
  lemma ContainerLayout(entries: seq<Entry>, j: nat)
    requires HashesOk(entries) && j < |entries|
    ensures var b, at := Serialise(entries), 4 + 40 * j;
      && at + 40 <= |b| && b[..4] == BigEndian(|entries|)
      && b[at..at + 32] == entries[j].hash
      && b[at + 32..at + 36] == BigEndian(|Body(entries[..j])|)
      && b[at + 36..at + 40] == BigEndian(|entries[j].data|)
  {
    EntryInHeader(entries, j);
    SliceOfMiddle(BigEndian(|entries|), Header(entries), Body(entries), ENTRY_SIZE * j, ENTRY_SIZE * (j + 1));
    EntryLayout(Serialise(entries), 4 + 40 * j, entries[j].hash, |Body(entries[..j])|, |entries[j].data|);
  }

  lemma EntryLayout(b: Buffer, at: nat, hash: Buffer, offset: nat, length: nat)
    requires |hash| == 32 && at + 40 <= |b| && b[at..at + 40] == HeaderEntry(hash, offset, length)
    ensures b[at..at + 32] == hash && b[at + 32..at + 36] == BigEndian(offset) && b[at + 36..at + 40] == BigEndian(length)
  {
    SliceOfSlice(b, at, 40, 0, 32);
    SliceOfSlice(b, at, 40, 32, 36);
    SliceOfSlice(b, at, 40, 36, 40);
  }

  /** Where chunk `j` starts in the serialised container. */
  function ChunkOffset(entries: seq<Entry>, j: nat): nat
    requires j <= |entries|
  {
    WORD_SIZE + ENTRY_SIZE * |entries| + |Body(entries[..j])|
  }

  /** The chunks tile the bytes after the header, in order, up to the end. */
  lemma ChunksTile(entries: seq<Entry>)
    requires HashesOk(entries)
    ensures ChunkOffset(entries, 0) == WORD_SIZE + |Header(entries)|
    ensures forall j :: 0 <= j < |entries| ==>
      ChunkOffset(entries, j + 1) == ChunkOffset(entries, j) + |entries[j].data|
    ensures ChunkOffset(entries, |entries|) == |Serialise(entries)|
  {
    HeaderSize(entries);
    forall j | 0 <= j < |entries|
      ensures ChunkOffset(entries, j + 1) == ChunkOffset(entries, j) + |entries[j].data|
    {
      ChunkInBody(entries, j);
    }
    assert entries[..|entries|] == entries;
  }

  lemma EntryInFile(entries: seq<Entry>, j: nat)
    requires HashesOk(entries) && j < |entries|
    ensures EntryAt(j + 1) <= |Serialise(entries)|
    ensures Serialise(entries)[EntryAt(j)..EntryAt(j + 1)]
         == HeaderEntry(entries[j].hash, |Body(entries[..j])|, |entries[j].data|)
  {
    EntryInHeader(entries, j);
    SliceOfMiddle(BigEndian(|entries|), Header(entries), Body(entries), ENTRY_SIZE * j, ENTRY_SIZE * (j + 1));
  }

  lemma ChunkInFile(entries: seq<Entry>, j: nat)
    requires HashesOk(entries) && j < |entries|
    ensures ChunkOffset(entries, j) + |entries[j].data| <= |Serialise(entries)|
    ensures Serialise(entries)[ChunkOffset(entries, j)..ChunkOffset(entries, j) + |entries[j].data|] == entries[j].data
  {
    HeaderSize(entries);
    ChunkInBody(entries, j);
    var at, n := |Body(entries[..j])|, |entries[j].data|;
    SliceOfEnd(BigEndian(|entries|) + Header(entries), Body(entries), at, at + n);
  }

  /** Round trip: parsing any buffer that starts with the serialised container gives back the
      count and, for each chunk, its fingerprint, its length, and an offset whose slice it is. */
  lemma ParseSerialised(entries: seq<Entry>, buf: Buffer, j: nat)
    requires HashesOk(entries) && |Serialise(entries)| < WORD_LIMIT
    requires Serialise(entries) <= buf && j < |entries|
    ensures ParsedCount(buf) == |entries|
    ensures |buf| >= EntryAt(j + 1)
    ensures ParsedEntry(buf, j) == Found(entries[j].hash, ChunkOffset(entries, j), |entries[j].data|)
    ensures var f := ParsedEntry(buf, j); f.offset + f.length <= |buf| && buf[f.offset..f.offset + f.length] == entries[j].data
  {
    HeaderSize(entries);
    CountParsed(entries, buf);
    EntryParsed(entries, buf, j);
    ChunkInFile(entries, j);
    SliceOfPrefix(Serialise(entries), buf, ChunkOffset(entries, j), ChunkOffset(entries, j) + |entries[j].data|);
  }

  lemma EntryParsed(entries: seq<Entry>, buf: Buffer, j: nat)
    requires HashesOk(entries) && |Serialise(entries)| < WORD_LIMIT
    requires Serialise(entries) <= buf && j < |entries|
    requires ParsedCount(buf) == |entries|
    ensures |buf| >= EntryAt(j + 1)
    ensures ParsedEntry(buf, j) == Found(entries[j].hash, ChunkOffset(entries, j), |entries[j].data|)
  {
    var at := EntryAt(j);
    EntryInFile(entries, j);
    ChunkInBody(entries, j);
    SliceOfPrefix(Serialise(entries), buf, at, at + ENTRY_SIZE);
    EntryDecoded(buf, j, entries[j].hash, |Body(entries[..j])|, |entries[j].data|);
  }

  lemma EntryDecoded(buf: Buffer, j: nat, hash: Buffer, offset: nat, length: nat)
    requires |hash| == CHUNK_HASH_SIZE && EntryAt(j + 1) <= |buf| && offset < WORD_LIMIT && length < WORD_LIMIT
    requires buf[EntryAt(j)..EntryAt(j) + ENTRY_SIZE] == HeaderEntry(hash, offset, length)
    ensures ParsedEntry(buf, j) == Found(hash, offset + ParsedCount(buf) * ENTRY_SIZE + WORD_SIZE, length)
  {
    EntryFields(buf, EntryAt(j), hash, offset, length);
    BigEndianRoundTrip(offset);
    BigEndianRoundTrip(length);
  }

  lemma CountParsed(entries: seq<Entry>, buf: Buffer)
    requires Serialise(entries) <= buf && |entries| < WORD_LIMIT
    ensures |buf| >= WORD_SIZE && ParsedCount(buf) == |entries|
  {
    assert buf[..WORD_SIZE] == Serialise(entries)[..WORD_SIZE] == BigEndian(|entries|);
    BigEndianRoundTrip(|entries|);
  }

  lemma EntryFields(buf: Buffer, at: nat, hash: Buffer, offset: nat, length: nat)
    requires |hash| == CHUNK_HASH_SIZE && at + ENTRY_SIZE <= |buf|
    requires buf[at..at + ENTRY_SIZE] == HeaderEntry(hash, offset, length)
    ensures buf[at..at + CHUNK_HASH_SIZE] == hash
    ensures buf[at + CHUNK_HASH_SIZE..at + CHUNK_HASH_SIZE + WORD_SIZE] == BigEndian(offset)
    ensures buf[at + CHUNK_HASH_SIZE + WORD_SIZE..at + ENTRY_SIZE] == BigEndian(length)
  {
    SliceOfSlice(buf, at, ENTRY_SIZE, 0, CHUNK_HASH_SIZE);
    SliceOfSlice(buf, at, ENTRY_SIZE, CHUNK_HASH_SIZE, CHUNK_HASH_SIZE + WORD_SIZE);
    SliceOfSlice(buf, at, ENTRY_SIZE, CHUNK_HASH_SIZE + WORD_SIZE, ENTRY_SIZE);
    ThreeParts(hash, BigEndian(offset), BigEndian(length));
  }

  lemma ThreeParts(a: Buffer, b: Buffer, c: Buffer)
    ensures (a + b + c)[0..|a|] == a
    ensures (a + b + c)[|a|..|a| + |b|] == b
    ensures (a + b + c)[|a| + |b|..|a| + |b| + |c|] == c
  {
  }
}
