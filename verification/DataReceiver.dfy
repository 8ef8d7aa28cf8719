/** The receiving thread of one upload session: it takes messages until the client hangs up,
    then pushes the last container and sets the done flag. */
module DataReceiver {

  import opened Bytes
  import opened ContainerFormat
  import opened Packing
  import opened Dedup
  import DedupStore
  import PlainIndex
  import StorageCore

  /** A batch of chunks (with what `CreateUUID` returns if a chunk needs a new container), a
      secure recipe to be queried, or a message that changes no chunk data. */
  datatype Message = Migrate(chunks: seq<Buffer>, ids: seq<Buffer>) | SecureRecipe(hashes: seq<Buffer>) | Other

  /** Messages that fit the receive buffer of `room` bytes. */
  ghost predicate MessageOk(m: Message, H: Buffer -> Buffer, room: nat) {
    match m
    case Migrate(chunks, ids) =>
      && |ids| == |chunks| && |Batch(chunks)| <= room
      && forall i :: 0 <= i < |chunks| ==> |chunks[i]| <= MAX_CHUNK_SIZE && |H(chunks[i])| == CHUNK_HASH_SIZE
    case SecureRecipe(hashes) => RecipeOk(hashes) && |Recipe(hashes)| <= room
    case Other => true
  }

  // ----- what the messages mean -----

  function Chunks(messages: seq<Message>): seq<Buffer> {
    if messages == [] then []
    else
      var m := messages[|messages| - 1];
      Chunks(messages[..|messages| - 1]) + if m.Migrate? then m.chunks else []
  }

  function Ids(messages: seq<Message>): seq<Buffer> {
    if messages == [] then []
    else
      var m := messages[|messages| - 1];
      Ids(messages[..|messages| - 1]) + if m.Migrate? then m.ids else []
  }

  ghost predicate Paired(messages: seq<Message>) {
    forall i :: 0 <= i < |messages| && messages[i].Migrate? ==> |messages[i].ids| == |messages[i].chunks|
  }

  lemma {:induction false} ChunksPaired(messages: seq<Message>)
    requires Paired(messages)
    ensures |Ids(messages)| == |Chunks(messages)|
  {
    if messages != [] {
      ChunksPaired(messages[..|messages| - 1]);
    }
  }

  /** The state after some messages: all their chunks uploaded, one by one. */
  ghost function Received(u: Upload, H: Buffer -> Buffer, messages: seq<Message>): Upload
    requires Paired(messages)
  {
    ChunksPaired(messages);
    UploadAll(u, H, Chunks(messages), Ids(messages))
  }

  /** The answers to the queries among some messages, each from the index of its moment. */
  ghost function Answers(u: Upload, H: Buffer -> Buffer, messages: seq<Message>): seq<Buffer>
    requires Paired(messages)
  {
    if messages == [] then []
    else
      var init, m := messages[..|messages| - 1], messages[|messages| - 1];
      Answers(u, H, init) + if m.SecureRecipe? then [Statuses(Received(u, H, init).index.store, m.hashes)] else []
  }

  lemma {:induction false} UploadAppend(u: Upload, H: Buffer -> Buffer, a: seq<Buffer>, i: seq<Buffer>, b: seq<Buffer>, j: seq<Buffer>)
    requires |i| == |a| && |j| == |b|
    ensures UploadAll(u, H, a + b, i + j) == UploadAll(UploadAll(u, H, a, i), H, b, j)
  {
    if b == [] {
      assert a + b == a && i + j == i;
    } else {
      var n := |b| - 1;
      var chunks, ids := a + b, i + j;
      UploadAppend(u, H, a, i, b[..n], j[..n]);
      assert chunks[..|a| + n] == a + b[..n] && ids[..|a| + n] == i + j[..n];
      assert chunks[|a| + n] == b[n] && ids[|a| + n] == j[n];
      UploadLast(u, H, chunks, ids);
      UploadLast(UploadAll(u, H, a, i), H, b, j);
    }
  }

  /** Uploading keeps all containers of a session but the open one filled up. */
  lemma {:induction false} UploadPacks(u: Upload, H: Buffer -> Buffer, chunks: seq<Buffer>, ids: seq<Buffer>)
    requires |ids| == |chunks| && ClientPacked(u.client)
    requires forall i :: 0 <= i < |chunks| ==> EntryOk(Entry(H(chunks[i]), chunks[i]))
    ensures ClientPacked(UploadAll(u, H, chunks, ids).client)
  {
    if chunks != [] {
      var n := |chunks| - 1;
      UploadPacks(u, H, chunks[..n], ids[..n]);
      var before := UploadAll(u, H, chunks[..n], ids[..n]);
      if H(chunks[n]) !in before.index.store {
        WritePacks(before.client, Entry(H(chunks[n]), chunks[n]), ids[n]);
      }
    }
  }

  /** When a session is over, it has pushed no empty container, and every one but the last would
      have reached the maximum size with the first chunk of the next. */
  lemma SessionPacks(index: Index, id: Buffer, H: Buffer -> Buffer, messages: seq<Message>)
    requires Paired(messages)
    requires forall i :: 0 <= i < |Chunks(messages)| ==> EntryOk(Entry(H(Chunks(messages)[i]), Chunks(messages)[i]))
    ensures var queue := Flush(Received(Upload(index, Client(Open(id, []), [])), H, messages).client).queue;
      Packed(queue) && NoneEmpty(queue)
  {
    ChunksPaired(messages);
    var u := Upload(index, Client(Open(id, []), []));
    EmptyFits();
    UploadPacks(u, H, Chunks(messages), Ids(messages));
    FlushPacks(Received(u, H, messages).client);
  }

  lemma UploadLast(u: Upload, H: Buffer -> Buffer, chunks: seq<Buffer>, ids: seq<Buffer>)
    requires |ids| == |chunks| > 0
    ensures var n := |chunks| - 1;
      UploadAll(u, H, chunks, ids) == UploadOne(UploadAll(u, H, chunks[..n], ids[..n]), H, chunks[n], ids[n])
  {
  }

  lemma ReceivedStep(u: Upload, H: Buffer -> Buffer, messages: seq<Message>, k: nat)
    requires Paired(messages) && k < |messages|
    ensures var before, m := Received(u, H, messages[..k]), messages[k];
      Received(u, H, messages[..k + 1]) == if m.Migrate? then UploadAll(before, H, m.chunks, m.ids) else before
  {
    var m := messages[k];
    assert messages[..k + 1][..k] == messages[..k];
    ChunksPaired(messages[..k]);
    if m.Migrate? {
      UploadAppend(u, H, Chunks(messages[..k]), Ids(messages[..k]), m.chunks, m.ids);
    } else {
      assert Chunks(messages[..k + 1]) == Chunks(messages[..k]) && Ids(messages[..k + 1]) == Ids(messages[..k]);
    }
  }

  lemma AnswersStep(u: Upload, H: Buffer -> Buffer, messages: seq<Message>, k: nat)
    requires Paired(messages) && k < |messages|
    ensures Answers(u, H, messages[..k + 1]) == Answers(u, H, messages[..k])
      + if messages[k].SecureRecipe? then [Statuses(Received(u, H, messages[..k]).index.store, messages[k].hashes)] else []
  {
    assert messages[..k + 1][..k] == messages[..k];
  }

  /** A whole session, if nobody else touches the index meanwhile: every chunk of every batch
      is uploaded in order, queries are answered from the index of their moment, and in the
      end everything is in the queue and the done flag is set.  The logical counters grow by
      what the client announced. */
  method Run(index: PlainIndex.PlainIndex, client: StorageCore.ClientVar, buf: array<byte>, H: Buffer -> Buffer, messages: seq<Message>,
             fileSize: nat, totalChunkNum: nat)
    returns (replies: seq<Buffer>, done: bool)
    requires client.Valid() && buf != client.body && buf != client.header
    requires Paired(messages) && forall k :: 0 <= k < |messages| ==> MessageOk(messages[k], H, buf.Length)
    modifies index, index.db, client, client.body, client.header, buf
    ensures client.Valid() && done
    ensures var u := Received(Upload(old(index.Contents()), old(client.Contents())), H, messages);
      && index.Contents() == u.index && client.Contents() == Flush(u.client)
    ensures replies == Answers(Upload(old(index.Contents()), old(client.Contents())), H, messages)
    ensures index.logicalDataSize == old(index.logicalDataSize) + fileSize
    ensures index.logicalChunkNum == old(index.logicalChunkNum) + totalChunkNum
  {
    index.logicalDataSize := index.logicalDataSize + fileSize;
    index.logicalChunkNum := index.logicalChunkNum + totalChunkNum;
    ghost var u := Upload(index.Contents(), client.Contents());
    replies := [];
    assert messages[..0] == [];
    for k := 0 to |messages|
      invariant client.Valid()
      invariant Upload(index.Contents(), client.Contents()) == Received(u, H, messages[..k])
      invariant replies == Answers(u, H, messages[..k])
      invariant index.logicalDataSize == old(index.logicalDataSize) + fileSize
      invariant index.logicalChunkNum == old(index.logicalChunkNum) + totalChunkNum
    {
      ReceivedStep(u, H, messages, k);
      AnswersStep(u, H, messages, k);
      var reply := Handle(index, client, buf, H, messages[k]);
      replies := replies + reply;
    }
    assert messages[..|messages|] == messages;
    client.PushLast();
    done := true;
  }

  /** One message, received into the buffer; a query's answer is built in the same buffer. */
  method Handle(index: PlainIndex.PlainIndex, client: StorageCore.ClientVar, buf: array<byte>, H: Buffer -> Buffer, m: Message)
    returns (reply: seq<Buffer>)
    requires client.Valid() && buf != client.body && buf != client.header && MessageOk(m, H, buf.Length)
    modifies index, index.db, client, client.body, client.header, buf
    ensures client.Valid()
    ensures Upload(index.Contents(), client.Contents())
      == if m.Migrate? then UploadAll(Upload(old(index.Contents()), old(client.Contents())), H, m.chunks, m.ids)
         else Upload(old(index.Contents()), old(client.Contents()))
    ensures reply == if m.SecureRecipe? then [Statuses(old(index.db.indexObj), m.hashes)] else []
    ensures index.logicalDataSize == old(index.logicalDataSize) && index.logicalChunkNum == old(index.logicalChunkNum)
  {
    reply := [];
    match m
    case Migrate(chunks, ids) =>
      CopyInto(buf, 0, Batch(chunks));
      index.ProcessOneBatch(buf, |chunks|, |Batch(chunks)|, client, H, ids, chunks);
    case SecureRecipe(hashes) =>
      CopyInto(buf, 0, Recipe(hashes));
      var size := index.ProcessRecipeBatch(buf, |hashes|, hashes);
      reply := [buf[..size]];
      assert buf[..size] == Statuses(index.db.indexObj, hashes);
    case Other =>
  }

  // ----- a session as moves of the server -----

  function ChunkMoves(s: nat, chunks: seq<Buffer>, ids: seq<Buffer>): (r: seq<DedupStore.Move>)
    requires |ids| == |chunks|
    ensures |r| == |chunks|
  {
    seq(|chunks|, i requires 0 <= i < |chunks| => DedupStore.Chunk(s, chunks[i], ids[i]))
  }

  /** The uploads of a session are moves of the interleaved server, so what is proved of all
      its runs holds of sessions that the receiver handles. */
  lemma {:induction false} UploadsAreMoves(sv: DedupStore.Server, H: Buffer -> Buffer, s: nat, chunks: seq<Buffer>, ids: seq<Buffer>)
    requires |ids| == |chunks| && s < |sv.sessions| && !sv.sessions[s].done
    ensures var sv', u := DedupStore.Run(sv, H, ChunkMoves(s, chunks, ids)),
                          UploadAll(Upload(sv.index, sv.sessions[s].client), H, chunks, ids);
      && sv'.index == u.index && sv'.sessions == sv.sessions[s := DedupStore.Session(u.client, false)]
      && sv'.disk == sv.disk
  {
    var moves := ChunkMoves(s, chunks, ids);
    if chunks != [] {
      var n := |chunks| - 1;
      UploadsAreMoves(sv, H, s, chunks[..n], ids[..n]);
      assert moves[..n] == ChunkMoves(s, chunks[..n], ids[..n]);
    }
  }

  /** The end of the session is the move by which it hangs up. */
  lemma SessionIsMoves(sv: DedupStore.Server, H: Buffer -> Buffer, s: nat, messages: seq<Message>)
    requires Paired(messages) && s < |sv.sessions| && !sv.sessions[s].done && |Ids(messages)| == |Chunks(messages)|
    ensures var sv', u := DedupStore.Run(sv, H, ChunkMoves(s, Chunks(messages), Ids(messages)) + [DedupStore.Hangup(s)]),
                          Received(Upload(sv.index, sv.sessions[s].client), H, messages);
      sv'.index == u.index && sv'.sessions == sv.sessions[s := DedupStore.Session(Flush(u.client), true)] && sv'.disk == sv.disk
  {
    var moves := ChunkMoves(s, Chunks(messages), Ids(messages));
    UploadsAreMoves(sv, H, s, Chunks(messages), Ids(messages));
    assert (moves + [DedupStore.Hangup(s)])[..|moves|] == moves;
  }
}
