/** Upload, then restore: what any run of upload sessions has stored is what a restore sends
    back, in recipe order. */
module EndToEnd {

  import opened Bytes
  import opened ContainerFormat
  import opened Packing
  import opened Dedup
  import opened DedupStore
  import opened RecvDecoder
  import IndexFile
  import StatFile
  import PlainIndex
  import SpscQueue
  import SpscRuns
  import QueueLayout
  import Pipeline

  function Fingerprints(H: Buffer -> Buffer, chunks: seq<Buffer>): (r: seq<Buffer>)
    ensures |r| == |chunks| && forall k :: 0 <= k < |chunks| ==> r[k] == H(chunks[k])
  {
    seq(|chunks|, k requires 0 <= k < |chunks| => H(chunks[k]))
  }

  ghost predicate AllSent(H: Buffer -> Buffer, moves: seq<Move>, chunks: seq<Buffer>) {
    forall k :: 0 <= k < |chunks| ==> chunks[k] in Sent(NewServer, H, moves)
  }

  /** Once everything is drained, the fingerprints of any chunks that were sent, in any order
      and with any repetitions, make a batch whose answer is those chunks. */
  lemma SentCanBeRestored(H: Buffer -> Buffer, moves: seq<Move>, chunks: seq<Buffer>, g: Shadow)
    requires IsHash(H) && AllAllowed(NewServer, H, moves) && CollisionFree(H, Sent(NewServer, H, moves))
    requires Inv(Run(NewServer, H, moves), g, H) && g.log.uploaded == Sent(NewServer, H, moves)
    requires Drained(Run(NewServer, H, moves)) && AllSent(H, moves, chunks)
    ensures var sv, hashes := Run(NewServer, H, moves), Fingerprints(H, chunks);
      BatchOk(sv.index.store, sv.disk, g.all, hashes, chunks) && Complete(sv.index.store, hashes)
  {
    var sv := Run(NewServer, H, moves);
    var store, hashes := sv.index.store, Fingerprints(H, chunks);
    DrainedIsRestorable(sv, g, H);
    assert RecipeOk(hashes);
    forall k | 0 <= k < |hashes|
      ensures hashes[k] in store && Holds(g.all, store[hashes[k]], hashes[k], chunks[k])
    {
      StoredIsSent(sv, g, H, chunks[k]);
    }
    forall k | 0 <= k < |hashes| ensures HeldAt(store, g.all, hashes, chunks, k) { }
    assert AllHeld(store, g.all, hashes, chunks);
    assert Complete(store, hashes);
  }

  /** The whole path.  Any sessions upload, in any interleaving, hang up, and their queues
      drain; then a download session asks for recipes of uploaded chunks, batch by batch, and
      the messages it gets are exactly the original chunks, in recipe order. */
  method RestoreUploads(H: Buffer -> Buffer, ghost moves: seq<Move>, store: map<Buffer, Buffer>, disk: map<Buffer, Buffer>,
                        decoder: Decoder, recipes: seq<seq<Buffer>>, ghost originals: seq<seq<Buffer>>)
    requires IsHash(H) && AllAllowed(NewServer, H, moves) && CollisionFree(H, Sent(NewServer, H, moves))
    requires Drained(Run(NewServer, H, moves))
    requires store == Run(NewServer, H, moves).index.store && disk == Run(NewServer, H, moves).disk
    requires decoder.Valid() && decoder.idBuffer == [] && decoder.cache.Valid() && decoder.cache.lru.Contents() == []
    requires |recipes| == |originals|
    requires forall r :: 0 <= r < |recipes| ==>
      && |recipes[r]| <= decoder.batchSize
      && AllSent(H, moves, originals[r]) && recipes[r] == Fingerprints(H, originals[r])
    modifies decoder, decoder.dataBuffer, decoder.cache, decoder.cache.lru
    ensures decoder.sent == old(decoder.sent) + Replies(originals)
  {
    ghost var g := RunKeeps(H, moves);
    forall r | 0 <= r < |recipes|
      ensures BatchOk(store, disk, g.all, recipes[r], originals[r])
      ensures Complete(store, recipes[r])
    {
      SentCanBeRestored(H, moves, originals[r], g);
    }
    decoder.cache.ReadyMeans(disk);
    var answered := decoder.Run(recipes, store, disk, g.all, originals);
    assert originals[..answered] == originals;
  }

  /** The same for a download session from its start: its buffers and cache are made, and what
      it sends is exactly the original chunks. */
  method DownloadSession(H: Buffer -> Buffer, ghost moves: seq<Move>, store: map<Buffer, Buffer>, disk: map<Buffer, Buffer>,
                         batchSize: nat, cacheSize: nat, recipes: seq<seq<Buffer>>, ghost originals: seq<seq<Buffer>>)
    returns (sent: seq<Message>)
    requires IsHash(H) && AllAllowed(NewServer, H, moves) && CollisionFree(H, Sent(NewServer, H, moves))
    requires Drained(Run(NewServer, H, moves)) && batchSize >= 1 && cacheSize >= 1
    requires store == Run(NewServer, H, moves).index.store && disk == Run(NewServer, H, moves).disk
    requires |recipes| == |originals|
    requires forall r :: 0 <= r < |recipes| ==>
      && |recipes[r]| <= batchSize
      && AllSent(H, moves, originals[r]) && recipes[r] == Fingerprints(H, originals[r])
    ensures sent == Replies(originals)
  {
    var decoder := new Decoder(batchSize, cacheSize);
    RestoreUploads(H, moves, store, disk, decoder, recipes, originals);
    sent := decoder.sent;
  }

  /** And with nothing assumed of the queues: any number of upload sessions run, each with its
      receiver and writer thread on its own lock-free queue, interleaved at every shared
      access; the server may be restarted in between.  Once all writers have returned, a
      download session gets exactly the original chunks, in recipe order. */
  method RestoreAfterUploads(H: Buffer -> Buffer, requested: nat, ghost ceil: nat, maxBlock: nat, ghost acts: seq<Pipeline.Act>,
                             world: Pipeline.World, batchSize: nat, cacheSize: nat,
                             recipes: seq<seq<Buffer>>, ghost originals: seq<seq<Buffer>>)
    returns (sent: seq<Message>)
    requires IsHash(H) && maxBlock >= 2 && QueueLayout.LeastPow2(ceil, requested + 1) && batchSize >= 1 && cacheSize >= 1
    requires var q0 := SpscRuns.Constructed<Open>(requested, ceil, maxBlock, false);
      && Pipeline.ActsAllowed(H, q0, acts) && CollisionFree(H, Pipeline.Received(H, q0, acts))
      && world == Pipeline.WorldRun(Pipeline.NewWorld, H, q0, acts) && Pipeline.AllReturned(world)
      && |recipes| == |originals|
      && forall r :: 0 <= r < |recipes| ==>
           && |recipes[r]| <= batchSize && recipes[r] == Fingerprints(H, originals[r])
           && forall k :: 0 <= k < |originals[r]| ==> originals[r][k] in Pipeline.Received(H, q0, acts)
    ensures sent == Replies(originals)
  {
    ghost var q0 := SpscRuns.Constructed<Open>(requested, ceil, maxBlock, false);
    ghost var sh0 := SpscRuns.ConstructedInv<Open>(requested, ceil, maxBlock, false);
    ghost var moves := Pipeline.WritersDrain(H, q0, sh0, acts);
    sent := DownloadSession(H, moves, world.index.store, world.disk, batchSize, cacheSize, recipes, originals);
  }

  /** The receiver can take each chunk out of the one message that carries a batch. */
  lemma ReplyDecodes(chunks: seq<Buffer>, k: nat)
    requires k < |chunks| && |chunks[k]| <= MAX_CHUNK_SIZE
    ensures |Reply(chunks)| == 2 && Reply(chunks)[0].items == |chunks|
    ensures var payload, at := Reply(chunks)[0].payload, |Batch(chunks[..k])|;
      && at + WORD_SIZE + |chunks[k]| <= |payload|
      && FromLittleEndian(payload[at..at + WORD_SIZE]) == |chunks[k]|
      && payload[at + WORD_SIZE..at + WORD_SIZE + |chunks[k]|] == chunks[k]
  {
    RecordParsed(chunks, k, Batch(chunks));
  }

  /** A query after any run is answered from what was sent before it: byte `k` of the answer is
      0 if a chunk with fingerprint `k` was sent by any session, and 1 otherwise. */
  method AnswerQuery(H: Buffer -> Buffer, ghost moves: seq<Move>, index: PlainIndex.PlainIndex, buf: array<byte>,
                     entryNum: nat, ghost hashes: seq<Buffer>)
    returns (dataSize: nat)
    requires IsHash(H) && AllAllowed(NewServer, H, moves) && index.Contents() == Run(NewServer, H, moves).index
    requires entryNum == |hashes| && RecipeOk(hashes) && Recipe(hashes) <= buf[..]
    modifies buf
    ensures dataSize == entryNum <= buf.Length
    ensures forall k :: 0 <= k < entryNum ==> buf[k] == if SentBy(H, moves, hashes[k]) then 0 else 1
    ensures buf[entryNum..] == old(buf[entryNum..])
  {
    RecipeSize(hashes);
    forall k | 0 <= k < |hashes|
      ensures hashes[k] in Run(NewServer, H, moves).index.store <==> SentBy(H, moves, hashes[k])
    {
      IndexedExactlySent(H, moves, hashes[k]);
    }
    dataSize := index.ProcessRecipeBatch(buf, entryNum, hashes);
  }

  /** Shutting the server down after any run and starting it again, through the statistics file
      and the index file, gives the index with its counters: this is the move `Restart`. */
  method IndexSurvivesRestart(H: Buffer -> Buffer, ghost moves: seq<Move>, index: PlainIndex.PlainIndex, order: seq<Buffer>)
    returns (r: IndexFile.Opened, again: PlainIndex.PlainIndex)
    requires IsHash(H) && AllAllowed(NewServer, H, moves) && Allowed(Run(NewServer, H, moves), Restart(order))
    requires index.Contents() == Run(NewServer, H, moves).index && StatFile.Fits64(index.Stats())
    ensures r == IndexFile.Loaded
    ensures again.Contents() == index.Contents() == ServerStep(Run(NewServer, H, moves), H, Restart(order)).index
    ensures again.Stats() == index.Stats()
  {
    ghost var sv := Run(NewServer, H, moves);
    ghost var g := RunKeeps(H, moves);
    IndexIsStorable(sv, g, H);
    RestartKeeps(sv, g, H, order);
    var statFile := index.Close();
    var db;
    r, db := IndexFile.RoundTripExactlyWhen(index.db, order);
    again := new PlainIndex.PlainIndex(db, statFile);
  }
}
