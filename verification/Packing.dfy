/** What packing chunks into containers means, on values: a client fills one open container
    and pushes it to its queue when the next chunk does not fit. */
module Packing {

  import opened Bytes
  import opened ContainerFormat

  const CONTAINER_ID_LENGTH: nat := 8
  const MAX_CHUNK_SIZE: nat := 16384

  datatype Open = Open(id: Buffer, entries: seq<Entry>)

  /** `queue` are the containers pushed so far and not yet taken by the writer. */
  datatype Client = Client(cur: Open, queue: seq<Open>)

  ghost predicate Fits(entries: seq<Entry>) {
    HashesOk(entries) && |Serialise(entries)| < MAX_CONTAINER_SIZE
  }

  ghost predicate EntryOk(e: Entry) { |e.hash| == CHUNK_HASH_SIZE && |e.data| <= MAX_CHUNK_SIZE }

  /** The new chunk's body and header entry would bring the container to its limit. */
  predicate Overflows(entries: seq<Entry>, e: Entry) {
    |e.data| + ENTRY_SIZE + |Body(entries)| + |Header(entries)| + WORD_SIZE >= MAX_CONTAINER_SIZE
  }

  /** Add `e`; `newId` is what `CreateUUID` returns if a new container is needed. */
  function Write(c: Client, e: Entry, newId: Buffer): Client {
    if Overflows(c.cur.entries, e) then Client(Open(newId, [e]), c.queue + [c.cur])
    else c.(cur := c.cur.(entries := c.cur.entries + [e]))
  }

  /** The last container is pushed when anything is in it. */
  function Flush(c: Client): Client {
    if |c.cur.entries| == 0 then c else c.(queue := c.queue + [c.cur])
  }

  lemma AppendEntry(entries: seq<Entry>, e: Entry)
    ensures Body(entries + [e]) == Body(entries) + e.data
    ensures Header(entries + [e]) == Header(entries) + HeaderEntry(e.hash, |Body(entries)|, |e.data|)
  {
    assert (entries + [e])[..|entries|] == entries;
  }

  lemma SingleEntry(e: Entry)
    ensures Body([e]) == e.data && Header([e]) == HeaderEntry(e.hash, 0, |e.data|)
  {
    AppendEntry([], e);
    assert [] + [e] == [e];
  }

  lemma EmptyFits()
    ensures Fits([])
  {
  }

  /** The open container always fits, and one that is full is never empty. */
  lemma WriteFits(c: Client, e: Entry, newId: Buffer)
    requires Fits(c.cur.entries) && EntryOk(e)
    ensures Fits(Write(c, e, newId).cur.entries)
    ensures Overflows(c.cur.entries, e) ==> |c.cur.entries| > 0
  {
    AppendEntry(c.cur.entries, e);
    SingleEntry(e);
  }

  /** A container is pushed exactly when the next chunk would bring it to the maximum size, and
      the chunk then opens a new one. */
  lemma RollsOverExactlyWhen(c: Client, e: Entry, newId: Buffer)
    requires Fits(c.cur.entries) && EntryOk(e)
    ensures var c' := Write(c, e, newId);
      if |Serialise(c.cur.entries + [e])| >= MAX_CONTAINER_SIZE
      then c'.queue == c.queue + [c.cur] && c'.cur == Open(newId, [e])
      else c'.queue == c.queue && c'.cur == Open(c.cur.id, c.cur.entries + [e])
  {
    AppendEntry(c.cur.entries, e);
  }

  // ----- containers are filled up -----

  /** A container would have reached the maximum size with the first chunk of the next. */
  ghost predicate FullBefore(o: Open, next: Open) {
    |next.entries| > 0 && |Serialise(o.entries + [next.entries[0]])| >= MAX_CONTAINER_SIZE
  }

  ghost predicate Packed(containers: seq<Open>) {
    forall i :: 0 < i < |containers| ==> FullBefore(containers[i - 1], containers[i])
  }

  ghost predicate NoneEmpty(containers: seq<Open>) { forall i :: 0 <= i < |containers| ==> |containers[i].entries| > 0 }

  ghost predicate ClientPacked(c: Client) { Fits(c.cur.entries) && Packed(c.queue + [c.cur]) && NoneEmpty(c.queue) }

  /** Writing keeps all containers but the last filled up. */
  lemma WritePacks(c: Client, e: Entry, newId: Buffer)
    requires ClientPacked(c) && EntryOk(e)
    ensures ClientPacked(Write(c, e, newId))
  {
    var c' := Write(c, e, newId);
    var before, after := c.queue + [c.cur], c'.queue + [c'.cur];
    WriteFits(c, e, newId);
    RollsOverExactlyWhen(c, e, newId);
    forall i | 0 < i < |after|
      ensures FullBefore(after[i - 1], after[i])
    {
      if i < |before| {
        assert FullBefore(before[i - 1], before[i]);
      }
    }
  }

  lemma FlushPacks(c: Client)
    requires ClientPacked(c)
    ensures Packed(Flush(c).queue) && NoneEmpty(Flush(c).queue)
  {
    var all := c.queue + [c.cur];
    forall i | 0 < i < |Flush(c).queue| ensures FullBefore(Flush(c).queue[i - 1], Flush(c).queue[i]) {
      assert FullBefore(all[i - 1], all[i]);
    }
  }

  // ----- entries in order -----

  /** All chunks of a client, oldest first. */
  function Entries(containers: seq<Open>): seq<Entry> {
    if containers == [] then [] else containers[0].entries + Entries(containers[1..])
  }

  function Stored(c: Client): seq<Entry> { Entries(c.queue) + c.cur.entries }

  lemma {:induction false} EntriesAppend(a: seq<Open>, o: Open)
    ensures Entries(a + [o]) == Entries(a) + o.entries
  {
    if a == [] {
      assert a + [o] == [o];
    } else {
      assert (a + [o])[1..] == a[1..] + [o];
      EntriesAppend(a[1..], o);
    }
  }

  /** Whatever the rollovers, a write adds its chunk after all others and moves none. */
  lemma WriteAppends(c: Client, e: Entry, newId: Buffer)
    ensures Stored(Write(c, e, newId)) == Stored(c) + [e]
  {
    EntriesAppend(c.queue, c.cur);
  }

  /** After the flush everything is in the queue. */
  lemma FlushStores(c: Client)
    ensures Entries(Flush(c).queue) == Stored(c)
  {
    EntriesAppend(c.queue, c.cur);
  }
}
