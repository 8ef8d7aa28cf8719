/** The whole upload side: any number of sessions, interleaved chunk by chunk under the index
    lock, share one index; each packs its own container, queues full ones, and its writer
    thread saves them to disk one at a time. */
module DedupStore {

  import opened Bytes
  import opened ContainerFormat
  import opened Packing
  import opened Dedup
  import IndexFile

  datatype Session = Session(client: Client, done: bool)

  /** `used` are the container names handed out so far. */
  datatype Server = Server(index: Index, sessions: seq<Session>, disk: map<Buffer, Buffer>, used: set<Buffer>)

  datatype Move =
    | Connect(id: Buffer)
    | Chunk(s: nat, data: Buffer, newId: Buffer)
    | Hangup(s: nat)
    | Save(s: nat)
    | Restart(order: seq<Buffer>)

  /** Names are new when they are made, chunks are within the size limit, and the server is
      only restarted, writing its index in some order, when all sessions are over.  The two
      counters go through the statistics file. */
  ghost predicate Allowed(sv: Server, mv: Move) {
    match mv
    case Connect(id) => id !in sv.used && |id| == CONTAINER_ID_LENGTH
    case Chunk(_, data, newId) => newId !in sv.used && |newId| == CONTAINER_ID_LENGTH && |data| <= MAX_CHUNK_SIZE
    case Restart(order) => Drained(sv) && IndexFile.Enumerates(order, sv.index.store)
    case _ => true
  }

  ghost predicate Drained(sv: Server) {
    forall s :: 0 <= s < |sv.sessions| ==> sv.sessions[s].done && sv.sessions[s].client.queue == []
  }

  ghost function ServerStep(sv: Server, H: Buffer -> Buffer, mv: Move): Server {
    match mv
    case Connect(id) =>
      sv.(sessions := sv.sessions + [Session(Client(Open(id, []), []), false)], used := sv.used + {id})
    case Chunk(s, data, newId) =>
      if s >= |sv.sessions| || sv.sessions[s].done then sv
      else
        var u := UploadOne(Upload(sv.index, sv.sessions[s].client), H, data, newId);
        sv.(index := u.index, sessions := sv.sessions[s := Session(u.client, false)], used := sv.used + {u.client.cur.id})
    case Hangup(s) =>
      if s >= |sv.sessions| || sv.sessions[s].done then sv
      else sv.(sessions := sv.sessions[s := Session(Flush(sv.sessions[s].client), true)])
    case Save(s) =>
      if s >= |sv.sessions| || |sv.sessions[s].client.queue| == 0 then sv
      else
        var c := sv.sessions[s].client;
        sv.(disk := sv.disk[c.queue[0].id := Serialise(c.queue[0].entries)],
            sessions := sv.sessions[s := sv.sessions[s].(client := c.(queue := c.queue[1..]))])
    case Restart(order) =>
      if forall i :: 0 <= i < |order| ==> order[i] in sv.index.store then
        sv.(index := sv.index.(store := IndexFile.Reloaded(sv.index.store, order)), sessions := [])
      else sv
  }

  // ----- invariant -----

  datatype Home = OnDisk | With(s: nat)

  /** `all` gives the chunks of every container that is open, queued or on disk, and `home`
      which of these it is; `order` are the stored chunks, oldest first; `uploaded` are all
      chunks that any session has sent. */
  datatype Shadow = Shadow(all: map<Buffer, seq<Entry>>, home: map<Buffer, Home>, log: Log)

  datatype Log = Log(order: seq<Entry>, uploaded: set<Buffer>)

  /** The containers a session is responsible for: its queue, and the open one until it hangs up. */
  function Live(ss: Session): seq<Open> {
    if ss.done then ss.client.queue else ss.client.queue + [ss.client.cur]
  }

  ghost predicate LiveOk(g: Shadow, live: seq<Open>, s: nat) {
    && (forall k :: 0 <= k < |live| ==>
          live[k].id in g.all && g.all[live[k].id] == live[k].entries
          && live[k].id in g.home && g.home[live[k].id] == With(s))
    && (forall i, j :: 0 <= i < j < |live| ==> live[i].id != live[j].id)
  }

  ghost predicate InLive(live: seq<Open>, id: Buffer) { exists k :: 0 <= k < |live| && live[k].id == id }

  ghost predicate HomeOk(sv: Server, g: Shadow, id: Buffer)
    requires id in g.all
  {
    && id in sv.used && id in g.home && |id| == CONTAINER_ID_LENGTH
    && match g.home[id]
       case OnDisk => id in sv.disk && sv.disk[id] == Serialise(g.all[id])
       case With(s) => s < |sv.sessions| && InLive(Live(sv.sessions[s]), id)
  }

  ghost predicate Placed(sv: Server, g: Shadow) {
    && (forall s :: 0 <= s < |sv.sessions| ==> LiveOk(g, Live(sv.sessions[s]), s))
    && (forall id :: id in g.all ==> HomeOk(sv, g, id))
    && (forall id :: id in sv.disk ==> id in g.all && id in g.home && g.home[id] == OnDisk)
  }

  ghost predicate Distinct(entries: seq<Entry>) {
    forall i, j :: 0 <= i < j < |entries| ==> entries[i].hash != entries[j].hash
  }

  ghost predicate HasHash(entries: seq<Entry>, hash: Buffer) {
    exists j :: 0 <= j < |entries| && entries[j].hash == hash
  }

  /** Every entry of container `id` is indexed under `id`, and its bytes hash to its fingerprint. */
  ghost predicate ContainerOk(store: map<Buffer, Buffer>, H: Buffer -> Buffer, id: Buffer, entries: seq<Entry>) {
    && Fits(entries) && Distinct(entries)
    && forall j :: 0 <= j < |entries| ==>
         && entries[j].hash in store && store[entries[j].hash] == id
         && H(entries[j].data) == entries[j].hash && |entries[j].data| <= MAX_CHUNK_SIZE
  }

  /** The global deduplication invariant: an indexed fingerprint is in the container that the
      index names, and nowhere else. */
  ghost predicate Deduplicated(store: map<Buffer, Buffer>, all: map<Buffer, seq<Entry>>, H: Buffer -> Buffer) {
    && (forall h :: h in store ==> store[h] in all && HasHash(all[store[h]], h))
    && (forall id :: id in all ==> ContainerOk(store, H, id, all[id]))
  }

  ghost predicate Counters(index: Index, order: seq<Entry>) {
    index.uniqueChunkNum == |order| && index.uniqueDataSize == |Body(order)|
  }

  ghost predicate Indexed(store: map<Buffer, Buffer>, order: seq<Entry>) {
    forall h :: h in store <==> HasHash(order, h)
  }

  ghost predicate Genuine(order: seq<Entry>, uploaded: set<Buffer>, H: Buffer -> Buffer) {
    forall j :: 0 <= j < |order| ==> order[j].data in uploaded && H(order[j].data) == order[j].hash
  }

  ghost predicate SentIndexed(store: map<Buffer, Buffer>, uploaded: set<Buffer>, H: Buffer -> Buffer) {
    forall data :: data in uploaded ==> H(data) in store
  }

  ghost predicate Ledger(index: Index, log: Log, H: Buffer -> Buffer) {
    && Distinct(log.order) && Counters(index, log.order) && Indexed(index.store, log.order)
    && Genuine(log.order, log.uploaded, H) && SentIndexed(index.store, log.uploaded, H)
  }

  ghost predicate Among(entries: seq<Entry>, order: seq<Entry>) {
    forall j :: 0 <= j < |entries| ==> entries[j] in order
  }

  ghost predicate Recorded(all: map<Buffer, seq<Entry>>, order: seq<Entry>) {
    forall id :: id in all ==> Among(all[id], order)
  }

  ghost predicate Inv(sv: Server, g: Shadow, H: Buffer -> Buffer) {
    && Placed(sv, g) && Deduplicated(sv.index.store, g.all, H) && Ledger(sv.index, g.log, H) && Recorded(g.all, g.log.order)
  }

  /** How a move changes the shadow. */
  ghost function After(sv: Server, g: Shadow, H: Buffer -> Buffer, mv: Move): Shadow {
    match mv
    case Connect(id) => g.(all := g.all[id := []], home := g.home[id := With(|sv.sessions|)])
    case Chunk(s, data, newId) =>
      if s >= |sv.sessions| || sv.sessions[s].done then g
      else if H(data) in sv.index.store then g.(log := g.log.(uploaded := g.log.uploaded + {data}))
      else
        var e := Entry(H(data), data);
        var cur := Write(sv.sessions[s].client, e, newId).cur;
        Shadow(g.all[cur.id := cur.entries], g.home[cur.id := With(s)],
               g.log.(order := g.log.order + [e], uploaded := g.log.uploaded + {data}))
    case Hangup(s) =>
      if s >= |sv.sessions| || sv.sessions[s].done || |sv.sessions[s].client.cur.entries| > 0 then g
      else g.(all := g.all - {sv.sessions[s].client.cur.id})
    case Save(s) =>
      if s >= |sv.sessions| || |sv.sessions[s].client.queue| == 0 then g
      else g.(home := g.home[sv.sessions[s].client.queue[0].id := OnDisk])
    case Restart(_) => g
  }

  // ----- placement -----

  lemma OtherSession(g: Shadow, g': Shadow, live: seq<Open>, s: nat, id: Buffer)
    requires LiveOk(g, live, s)
    requires id !in g.all || (id in g.home && g.home[id] != With(s))
    requires forall x :: x != id ==> (x in g'.all <==> x in g.all) && (x in g.all ==> g'.all[x] == g.all[x])
    requires forall x :: x != id ==> (x in g'.home <==> x in g.home) && (x in g.home ==> g'.home[x] == g.home[x])
    ensures LiveOk(g', live, s)
  {
    forall k | 0 <= k < |live| ensures live[k].id != id { }
  }

  lemma ConnectPlaced(sv: Server, g: Shadow, H: Buffer -> Buffer, mv: Move)
    requires mv.Connect? && Allowed(sv, mv) && Placed(sv, g)
    ensures Placed(ServerStep(sv, H, mv), After(sv, g, H, mv))
  {
    var sv', g' := ServerStep(sv, H, mv), After(sv, g, H, mv);
    assert forall x :: x in g.all ==> HomeOk(sv, g, x);
    forall s | 0 <= s < |sv'.sessions|
      ensures LiveOk(g', Live(sv'.sessions[s]), s)
    {
      if s < |sv.sessions| {
        OtherSession(g, g', Live(sv.sessions[s]), s, mv.id);
      }
    }
    forall id | id in g'.all
      ensures HomeOk(sv', g', id)
    {
      if id == mv.id {
        assert Live(sv'.sessions[|sv.sessions|])[0].id == id;
      } else {
        assert HomeOk(sv, g, id);
      }
    }
  }

  /** The name that a session writes to is its own, or new. */
  lemma WrittenName(sv: Server, g: Shadow, H: Buffer -> Buffer, mv: Move)
    requires mv.Chunk? && Allowed(sv, mv) && Placed(sv, g)
    requires mv.s < |sv.sessions| && !sv.sessions[mv.s].done && H(mv.data) !in sv.index.store
    ensures mv.newId !in g.all
    ensures var id := ServerStep(sv, H, mv).sessions[mv.s].client.cur.id;
      id == mv.newId || (id == sv.sessions[mv.s].client.cur.id && id in g.all && id in g.home && g.home[id] == With(mv.s))
  {
    var ss := sv.sessions[mv.s];
    NewName(sv, g, mv.newId);
    assert LiveOk(g, Live(ss), mv.s);
    assert Live(ss)[|ss.client.queue|] == ss.client.cur;
  }

  lemma WriteHome(sv: Server, g: Shadow, H: Buffer -> Buffer, mv: Move, id: Buffer)
    requires mv.Chunk? && Allowed(sv, mv)
    requires mv.s < |sv.sessions| && !sv.sessions[mv.s].done && H(mv.data) !in sv.index.store
    requires id in After(sv, g, H, mv).all && (id in g.all ==> HomeOk(sv, g, id))
    requires sv.sessions[mv.s].client.cur.id in sv.used && |sv.sessions[mv.s].client.cur.id| == CONTAINER_ID_LENGTH
    ensures HomeOk(ServerStep(sv, H, mv), After(sv, g, H, mv), id)
  {
    var sv', s := ServerStep(sv, H, mv), mv.s;
    var live, live', c' := Live(sv.sessions[s]), Live(sv'.sessions[s]), sv'.sessions[s].client;
    if id == c'.cur.id {
      assert live'[|c'.queue|].id == id;
    } else if g.home[id] == With(s) {
      InLonger(live, live', id);
    }
  }

  /** A session writes to its open container, which may be a new one. */
  lemma WritePlaced(sv: Server, g: Shadow, H: Buffer -> Buffer, mv: Move)
    requires mv.Chunk? && Allowed(sv, mv) && Placed(sv, g)
    requires mv.s < |sv.sessions| && !sv.sessions[mv.s].done && H(mv.data) !in sv.index.store
    ensures Placed(ServerStep(sv, H, mv), After(sv, g, H, mv))
  {
    var sv', g', s := ServerStep(sv, H, mv), After(sv, g, H, mv), mv.s;
    var c := sv.sessions[s].client;
    WrittenName(sv, g, H, mv);
    assert LiveOk(g, Live(sv.sessions[s]), s);
    assert Live(sv.sessions[s])[|c.queue|] == c.cur;
    assert HomeOk(sv, g, c.cur.id);
    forall t | 0 <= t < |sv'.sessions|
      ensures LiveOk(g', Live(sv'.sessions[t]), t)
    {
      if t != s {
        assert LiveOk(g, Live(sv.sessions[t]), t);
        OtherSession(g, g', Live(sv.sessions[t]), t, sv'.sessions[s].client.cur.id);
      } else {
        WriteLive(g, g', c, Entry(H(mv.data), mv.data), mv.newId, s);
      }
    }
    forall id | id in g'.all
      ensures HomeOk(sv', g', id)
    {
      assert id in g.all ==> HomeOk(sv, g, id);
      WriteHome(sv, g, H, mv, id);
    }
  }

  lemma WriteLive(g: Shadow, g': Shadow, c: Client, e: Entry, newId: Buffer, s: nat)
    requires LiveOk(g, c.queue + [c.cur], s) && newId !in g.all
    requires var c' := Write(c, e, newId);
      g'.all == g.all[c'.cur.id := c'.cur.entries] && g'.home == g.home[c'.cur.id := With(s)]
    ensures var c' := Write(c, e, newId); LiveOk(g', c'.queue + [c'.cur], s)
  {
    var live, c' := c.queue + [c.cur], Write(c, e, newId);
    var live' := c'.queue + [c'.cur];
    var n := |live'| - 1;
    assert forall k :: 0 <= k < n ==> live'[k] == live[k] && live[k].id in g.all;
    assert Overflows(c.cur.entries, e) || live[n] == c.cur;
    assert forall k :: 0 <= k < n ==> live'[k].id != c'.cur.id;
  }

  lemma HangupLive(g: Shadow, g': Shadow, c: Client, s: nat)
    requires LiveOk(g, c.queue + [c.cur], s)
    requires g'.home == g.home && g'.all == if |c.cur.entries| == 0 then g.all - {c.cur.id} else g.all
    ensures LiveOk(g', Flush(c).queue, s)
  {
    var live := c.queue + [c.cur];
    assert live[|c.queue|] == c.cur;
    forall k | 0 <= k < |c.queue| ensures live[k] == c.queue[k] && live[k].id != c.cur.id { }
  }

  lemma HangupHome(sv: Server, g: Shadow, H: Buffer -> Buffer, s: nat, id: Buffer)
    requires s < |sv.sessions| && !sv.sessions[s].done
    requires id in After(sv, g, H, Hangup(s)).all && id in g.all && HomeOk(sv, g, id)
    ensures HomeOk(ServerStep(sv, H, Hangup(s)), After(sv, g, H, Hangup(s)), id)
  {
    var c := sv.sessions[s].client;
    if g.home[id] == With(s) && |c.cur.entries| == 0 {
      StillLiveWithout(c.queue, c.cur, id);
    }
  }

  lemma HangupPlaced(sv: Server, g: Shadow, H: Buffer -> Buffer, s: nat)
    requires Placed(sv, g)
    requires s < |sv.sessions| && !sv.sessions[s].done
    ensures Placed(ServerStep(sv, H, Hangup(s)), After(sv, g, H, Hangup(s)))
  {
    var sv', g' := ServerStep(sv, H, Hangup(s)), After(sv, g, H, Hangup(s));
    var c := sv.sessions[s].client;
    assert LiveOk(g, Live(sv.sessions[s]), s);
    assert Live(sv.sessions[s])[|c.queue|] == c.cur;
    forall t | 0 <= t < |sv'.sessions|
      ensures LiveOk(g', Live(sv'.sessions[t]), t)
    {
      if t != s {
        assert LiveOk(g, Live(sv.sessions[t]), t);
        OtherSession(g, g', Live(sv.sessions[t]), t, c.cur.id);
      } else {
        HangupLive(g, g', c, s);
      }
    }
    forall id | id in g'.all
      ensures HomeOk(sv', g', id)
    {
      assert HomeOk(sv, g, id);
      HangupHome(sv, g, H, s, id);
    }
  }

  lemma StillLiveWithout(queue: seq<Open>, cur: Open, id: Buffer)
    requires InLive(queue + [cur], id) && id != cur.id
    ensures InLive(queue, id)
  {
    var live := queue + [cur];
    var k :| 0 <= k < |live| && live[k].id == id;
    assert queue[k].id == id;
  }

  lemma SaveLive(g: Shadow, g': Shadow, o: Open, rest: seq<Open>, s: nat)
    requires LiveOk(g, [o] + rest, s)
    requires g' == g.(home := g.home[o.id := OnDisk])
    ensures LiveOk(g', rest, s)
  {
    var live := [o] + rest;
    assert live[0] == o;
    assert forall k :: 0 <= k < |rest| ==> rest[k] == live[k + 1];
  }

  lemma SaveHome(sv: Server, g: Shadow, H: Buffer -> Buffer, s: nat, id: Buffer)
    requires s < |sv.sessions| && |sv.sessions[s].client.queue| > 0
    requires id in g.all && HomeOk(sv, g, id) && LiveOk(g, Live(sv.sessions[s]), s)
    ensures HomeOk(ServerStep(sv, H, Save(s)), After(sv, g, H, Save(s)), id)
  {
    var sv' := ServerStep(sv, H, Save(s));
    var o, live, live' := sv.sessions[s].client.queue[0], Live(sv.sessions[s]), Live(sv'.sessions[s]);
    assert live == [o] + live';
    assert live[0] == o;
    if id != o.id && g.home[id] == With(s) {
      StillLive(o, live', id);
    }
  }

  lemma StillLive(o: Open, rest: seq<Open>, id: Buffer)
    requires InLive([o] + rest, id) && id != o.id
    ensures InLive(rest, id)
  {
    var live := [o] + rest;
    var k :| 0 <= k < |live| && live[k].id == id;
    assert rest[k - 1].id == id;
  }

  lemma InLonger(live: seq<Open>, longer: seq<Open>, id: Buffer)
    requires InLive(live, id) && |live| <= |longer|
    requires forall k :: 0 <= k < |live| ==> longer[k].id == live[k].id
    ensures InLive(longer, id)
  {
    var k :| 0 <= k < |live| && live[k].id == id;
    assert longer[k].id == id;
  }

  lemma SaveSession(sv: Server, g: Shadow, H: Buffer -> Buffer, s: nat, t: nat)
    requires s < |sv.sessions| && |sv.sessions[s].client.queue| > 0 && t < |sv.sessions|
    requires LiveOk(g, Live(sv.sessions[s]), s) && LiveOk(g, Live(sv.sessions[t]), t)
    ensures LiveOk(After(sv, g, H, Save(s)), Live(ServerStep(sv, H, Save(s)).sessions[t]), t)
  {
    var sv', g' := ServerStep(sv, H, Save(s)), After(sv, g, H, Save(s));
    var live, live' := Live(sv.sessions[s]), Live(sv'.sessions[s]);
    var o := sv.sessions[s].client.queue[0];
    assert live == [o] + live';
    assert live[0] == o;
    if t != s {
      OtherSession(g, g', Live(sv.sessions[t]), t, o.id);
    } else {
      SaveLive(g, g', o, live', s);
    }
  }

  lemma SavePlaced(sv: Server, g: Shadow, H: Buffer -> Buffer, s: nat)
    requires Placed(sv, g)
    requires s < |sv.sessions| && |sv.sessions[s].client.queue| > 0
    ensures Placed(ServerStep(sv, H, Save(s)), After(sv, g, H, Save(s)))
  {
    var sv', g' := ServerStep(sv, H, Save(s)), After(sv, g, H, Save(s));
    var o := sv.sessions[s].client.queue[0];
    assert LiveOk(g, Live(sv.sessions[s]), s) && Live(sv.sessions[s])[0] == o;
    forall t | 0 <= t < |sv'.sessions|
      ensures LiveOk(g', Live(sv'.sessions[t]), t)
    {
      assert LiveOk(g, Live(sv.sessions[t]), t);
      SaveSession(sv, g, H, s, t);
    }
    forall id | id in g'.all
      ensures HomeOk(sv', g', id)
    {
      assert HomeOk(sv, g, id);
      SaveHome(sv, g, H, s, id);
    }
  }

  // ----- deduplication -----

  /** A new fingerprint is added to a container, old or new. */
  lemma AddedEntry(store: map<Buffer, Buffer>, all: map<Buffer, seq<Entry>>, H: Buffer -> Buffer,
                   id: Buffer, entries: seq<Entry>, e: Entry)
    requires Deduplicated(store, all, H) && e.hash !in store
    requires if id in all then all[id] == entries else entries == []
    requires Fits(entries + [e]) && H(e.data) == e.hash && |e.data| <= MAX_CHUNK_SIZE
    ensures Deduplicated(store[e.hash := id], all[id := entries + [e]], H)
  {
    var store', all' := store[e.hash := id], all[id := entries + [e]];
    forall h | h in store'
      ensures store'[h] in all' && HasHash(all'[store'[h]], h)
    {
      HashAppended(entries, e, h);
    }
    forall x | x in all'
      ensures ContainerOk(store', H, x, all'[x])
    {
      if x != id {
        assert ContainerOk(store, H, x, all[x]);
      } else {
        assert x in all ==> ContainerOk(store, H, x, all[x]);
        ExtendedContainer(store, H, id, entries, e);
      }
    }
  }

  lemma ExtendedContainer(store: map<Buffer, Buffer>, H: Buffer -> Buffer, id: Buffer, entries: seq<Entry>, e: Entry)
    requires entries == [] || ContainerOk(store, H, id, entries)
    requires e.hash !in store && Fits(entries + [e]) && H(e.data) == e.hash && |e.data| <= MAX_CHUNK_SIZE
    ensures ContainerOk(store[e.hash := id], H, id, entries + [e])
  {
    var entries' := entries + [e];
    forall j | 0 <= j < |entries| ensures entries'[j] == entries[j] && entries[j].hash != e.hash { }
  }

  lemma ChunkDeduplicated(sv: Server, g: Shadow, H: Buffer -> Buffer, mv: Move)
    requires mv.Chunk? && Allowed(sv, mv) && IsHash(H)
    requires Deduplicated(sv.index.store, g.all, H)
    requires mv.s < |sv.sessions| && !sv.sessions[mv.s].done && H(mv.data) !in sv.index.store
    requires LiveOk(g, Live(sv.sessions[mv.s]), mv.s) && mv.newId !in g.all
    ensures Deduplicated(ServerStep(sv, H, mv).index.store, After(sv, g, H, mv).all, H)
  {
    var c, e := sv.sessions[mv.s].client, Entry(H(mv.data), mv.data);
    assert Live(sv.sessions[mv.s])[|c.queue|] == c.cur;
    assert ContainerOk(sv.index.store, H, c.cur.id, g.all[c.cur.id]);
    WriteFits(c, e, mv.newId);
    var cur := Write(c, e, mv.newId).cur;
    var entries := if Overflows(c.cur.entries, e) then [] else c.cur.entries;
    assert cur.entries == entries + [e];
    AddedEntry(sv.index.store, g.all, H, cur.id, entries, e);
  }

  lemma EmptyContainer(store: map<Buffer, Buffer>, H: Buffer -> Buffer, id: Buffer)
    ensures ContainerOk(store, H, id, [])
  {
    EmptyFits();
  }

  /** Empty containers come and go without changing what is stored. */
  lemma SameChunks(store: map<Buffer, Buffer>, all: map<Buffer, seq<Entry>>, H: Buffer -> Buffer, all': map<Buffer, seq<Entry>>)
    requires Deduplicated(store, all, H)
    requires forall x :: x in all' && all'[x] != [] ==> x in all && all'[x] == all[x]
    requires forall x :: x in all && all[x] != [] ==> x in all' && all'[x] == all[x]
    ensures Deduplicated(store, all', H)
  {
    forall h | h in store ensures store[h] in all' && HasHash(all'[store[h]], h) { assert HasHash(all[store[h]], h); }
    forall x | x in all'
      ensures ContainerOk(store, H, x, all'[x])
    {
      if all'[x] == [] {
        EmptyContainer(store, H, x);
      } else {
        assert ContainerOk(store, H, x, all[x]);
      }
    }
  }

  // ----- counters -----

  lemma HashAppended(order: seq<Entry>, e: Entry, h: Buffer)
    ensures HasHash(order + [e], h) <==> HasHash(order, h) || h == e.hash
  {
    var order' := order + [e];
    assert order'[|order|] == e;
    if HasHash(order, h) {
      var j :| 0 <= j < |order| && order[j].hash == h;
      assert order'[j].hash == h;
    }
  }

  lemma ChunkLedger(sv: Server, g: Shadow, H: Buffer -> Buffer, mv: Move)
    requires mv.Chunk? && Ledger(sv.index, g.log, H)
    requires mv.s < |sv.sessions| && !sv.sessions[mv.s].done
    ensures Ledger(ServerStep(sv, H, mv).index, After(sv, g, H, mv).log, H)
  {
    if H(mv.data) !in sv.index.store {
      var store := ServerStep(sv, H, mv).index.store;
      NewInLedger(sv.index, g.log, H, mv.data, store, After(sv, g, H, mv).log);
    }
  }

  lemma GenuineAppend(order: seq<Entry>, uploaded: set<Buffer>, H: Buffer -> Buffer, e: Entry)
    requires Genuine(order, uploaded, H) && H(e.data) == e.hash
    ensures Genuine(order + [e], uploaded + {e.data}, H)
  {
  }

  lemma DistinctAppend(order: seq<Entry>, e: Entry)
    requires Distinct(order) && !HasHash(order, e.hash)
    ensures Distinct(order + [e])
  {
  }

  lemma IndexedAppend(store: map<Buffer, Buffer>, order: seq<Entry>, e: Entry, store': map<Buffer, Buffer>)
    requires Indexed(store, order) && forall h :: h in store' <==> h in store || h == e.hash
    ensures Indexed(store', order + [e])
  {
    forall h ensures h in store' <==> HasHash(order + [e], h) { HashAppended(order, e, h); }
  }

  lemma CountersAppend(index: Index, order: seq<Entry>, e: Entry, store: map<Buffer, Buffer>)
    requires Counters(index, order)
    ensures Counters(Index(store, index.uniqueChunkNum + 1, index.uniqueDataSize + |e.data|), order + [e])
  {
    AppendEntry(order, e);
  }

  lemma SentAppend(store: map<Buffer, Buffer>, uploaded: set<Buffer>, H: Buffer -> Buffer, data: Buffer, store': map<Buffer, Buffer>)
    requires SentIndexed(store, uploaded, H) && forall h :: h in store' <==> h in store || h == H(data)
    ensures SentIndexed(store', uploaded + {data}, H)
  {
  }

  lemma NewInLedger(index: Index, log: Log, H: Buffer -> Buffer, data: Buffer, store: map<Buffer, Buffer>, log': Log)
    requires Ledger(index, log, H) && H(data) !in index.store
    requires forall h :: h in store <==> h in index.store || h == H(data)
    requires log'.order == log.order + [Entry(H(data), data)] && log'.uploaded == log.uploaded + {data}
    ensures Ledger(Index(store, index.uniqueChunkNum + 1, index.uniqueDataSize + |data|), log', H)
  {
    var e := Entry(H(data), data);
    assert !HasHash(log.order, e.hash);
    DistinctAppend(log.order, e);
    GenuineAppend(log.order, log.uploaded, H, e);
    IndexedAppend(index.store, log.order, e, store);
    CountersAppend(index, log.order, e, store);
    SentAppend(index.store, log.uploaded, H, data, store);
  }

  lemma ChunkRecorded(sv: Server, g: Shadow, H: Buffer -> Buffer, mv: Move)
    requires mv.Chunk? && Recorded(g.all, g.log.order)
    requires mv.s < |sv.sessions| && !sv.sessions[mv.s].done
    requires LiveOk(g, Live(sv.sessions[mv.s]), mv.s)
    ensures Recorded(After(sv, g, H, mv).all, After(sv, g, H, mv).log.order)
  {
    var c, g' := sv.sessions[mv.s].client, After(sv, g, H, mv);
    assert Live(sv.sessions[mv.s])[|c.queue|] == c.cur;
    assert Among(g.all[c.cur.id], g.log.order);
    forall id | id in g'.all
      ensures Among(g'.all[id], g'.log.order)
    {
      assert id in g.all ==> Among(g.all[id], g.log.order);
    }
  }

  // ----- every move -----

  lemma NewName(sv: Server, g: Shadow, id: Buffer)
    requires Placed(sv, g) && id !in sv.used
    ensures id !in g.all
  {
  }

  lemma ChunkKeeps(sv: Server, g: Shadow, H: Buffer -> Buffer, mv: Move)
    requires mv.Chunk? && Allowed(sv, mv) && IsHash(H) && Inv(sv, g, H)
    requires mv.s < |sv.sessions| && !sv.sessions[mv.s].done
    ensures Inv(ServerStep(sv, H, mv), After(sv, g, H, mv), H)
  {
    NewName(sv, g, mv.newId);
    ChunkLedger(sv, g, H, mv);
    assert LiveOk(g, Live(sv.sessions[mv.s]), mv.s);
    ChunkRecorded(sv, g, H, mv);
    if H(mv.data) in sv.index.store {
      DuplicatePlaced(sv, g, H, mv);
    } else {
      WritePlaced(sv, g, H, mv);
      ChunkDeduplicated(sv, g, H, mv);
    }
  }

  /** A duplicate changes nothing but the record of what was sent. */
  lemma DuplicatePlaced(sv: Server, g: Shadow, H: Buffer -> Buffer, mv: Move)
    requires mv.Chunk? && Placed(sv, g)
    requires mv.s < |sv.sessions| && !sv.sessions[mv.s].done && H(mv.data) in sv.index.store
    ensures ServerStep(sv, H, mv) == sv
    ensures Placed(sv, After(sv, g, H, mv))
  {
    var ss, g' := sv.sessions[mv.s], After(sv, g, H, mv);
    assert LiveOk(g, Live(ss), mv.s);
    assert Live(ss)[|ss.client.queue|] == ss.client.cur;
    assert HomeOk(sv, g, ss.client.cur.id);
    assert sv.used + {ss.client.cur.id} == sv.used;
    assert sv.sessions[mv.s := ss] == sv.sessions;
    forall t | 0 <= t < |sv.sessions| ensures LiveOk(g', Live(sv.sessions[t]), t) { assert LiveOk(g, Live(sv.sessions[t]), t); }
    forall id | id in g'.all ensures HomeOk(sv, g', id) { assert HomeOk(sv, g, id); }
  }

  lemma ConnectKeeps(sv: Server, g: Shadow, H: Buffer -> Buffer, mv: Move)
    requires mv.Connect? && Allowed(sv, mv) && Inv(sv, g, H)
    ensures Inv(ServerStep(sv, H, mv), After(sv, g, H, mv), H)
  {
    NewName(sv, g, mv.id);
    ConnectPlaced(sv, g, H, mv);
    SameChunks(sv.index.store, g.all, H, g.all[mv.id := []]);
  }

  /** The index and the record of chunks stay; the rest is given. */
  lemma Assemble(sv: Server, g: Shadow, H: Buffer -> Buffer, sv': Server, g': Shadow)
    requires Placed(sv', g') && Deduplicated(sv.index.store, g'.all, H)
    requires Ledger(sv.index, g.log, H) && Recorded(g'.all, g.log.order)
    requires sv'.index == sv.index && g'.log == g.log
    ensures Inv(sv', g', H)
  {
  }

  lemma SaveEffect(sv: Server, g: Shadow, H: Buffer -> Buffer, s: nat)
    ensures ServerStep(sv, H, Save(s)).index == sv.index
    ensures After(sv, g, H, Save(s)).log == g.log && After(sv, g, H, Save(s)).all == g.all
  {
  }

  lemma SaveKeeps(sv: Server, g: Shadow, H: Buffer -> Buffer, s: nat)
    requires Inv(sv, g, H) && s < |sv.sessions| && |sv.sessions[s].client.queue| > 0
    ensures Inv(ServerStep(sv, H, Save(s)), After(sv, g, H, Save(s)), H)
  {
    SavePlaced(sv, g, H, s);
    SaveEffect(sv, g, H, s);
    Assemble(sv, g, H, ServerStep(sv, H, Save(s)), After(sv, g, H, Save(s)));
  }

  lemma FewerRecorded(all: map<Buffer, seq<Entry>>, id: Buffer, order: seq<Entry>)
    requires Recorded(all, order)
    ensures Recorded(all - {id}, order)
  {
  }

  /** An empty container is dropped; nothing else changes. */
  lemma HangupContents(sv: Server, g: Shadow, H: Buffer -> Buffer, s: nat)
    requires s < |sv.sessions| && !sv.sessions[s].done && LiveOk(g, Live(sv.sessions[s]), s)
    requires Deduplicated(sv.index.store, g.all, H) && Recorded(g.all, g.log.order)
    ensures Deduplicated(sv.index.store, After(sv, g, H, Hangup(s)).all, H)
    ensures Recorded(After(sv, g, H, Hangup(s)).all, g.log.order)
  {
    var c := sv.sessions[s].client;
    if |c.cur.entries| == 0 {
      assert Live(sv.sessions[s])[|c.queue|] == c.cur;
      SameChunks(sv.index.store, g.all, H, g.all - {c.cur.id});
      FewerRecorded(g.all, c.cur.id, g.log.order);
    }
  }

  lemma HangupKeeps(sv: Server, g: Shadow, H: Buffer -> Buffer, s: nat)
    requires Inv(sv, g, H) && s < |sv.sessions| && !sv.sessions[s].done
    ensures Inv(ServerStep(sv, H, Hangup(s)), After(sv, g, H, Hangup(s)), H)
  {
    HangupPlaced(sv, g, H, s);
    assert LiveOk(g, Live(sv.sessions[s]), s);
    HangupContents(sv, g, H, s);
    HangupEffect(sv, g, H, s);
    Assemble(sv, g, H, ServerStep(sv, H, Hangup(s)), After(sv, g, H, Hangup(s)));
  }

  lemma HangupEffect(sv: Server, g: Shadow, H: Buffer -> Buffer, s: nat)
    ensures ServerStep(sv, H, Hangup(s)).index == sv.index && After(sv, g, H, Hangup(s)).log == g.log
  {
  }

  lemma IndexIsStorable(sv: Server, g: Shadow, H: Buffer -> Buffer)
    requires IsHash(H) && Inv(sv, g, H)
    ensures IndexFile.Storable(sv.index.store)
  {
    forall h | h in sv.index.store
      ensures |h| == CHUNK_HASH_SIZE && |sv.index.store[h]| == CONTAINER_ID_LENGTH
    {
      assert HasHash(g.log.order, h);
      assert HomeOk(sv, g, sv.index.store[h]);
    }
  }

  /** After a restart the index is the one that was saved, and every container is a file. */
  lemma RestartPlaced(sv: Server, g: Shadow, g': Shadow, sv': Server)
    requires Placed(sv, g) && Drained(sv)
    requires g'.all == g.all && g'.home == g.home && sv'.sessions == [] && sv'.disk == sv.disk && sv'.used == sv.used
    ensures Placed(sv', g')
  {
    forall id | id in g'.all ensures HomeOk(sv', g', id) { assert HomeOk(sv, g, id); }
  }

  lemma RestartKeeps(sv: Server, g: Shadow, H: Buffer -> Buffer, order: seq<Buffer>)
    requires IsHash(H) && Inv(sv, g, H) && Allowed(sv, Restart(order))
    ensures Inv(ServerStep(sv, H, Restart(order)), After(sv, g, H, Restart(order)), H)
    ensures ServerStep(sv, H, Restart(order)) == sv.(sessions := [])
  {
    IndexIsStorable(sv, g, H);
    IndexFile.LoadedItems(sv.index.store, order);
    RestartPlaced(sv, g, After(sv, g, H, Restart(order)), ServerStep(sv, H, Restart(order)));
  }

  /** Every move of every session keeps the invariant. */
  lemma StepKeeps(sv: Server, g: Shadow, H: Buffer -> Buffer, mv: Move)
    requires Allowed(sv, mv) && IsHash(H) && Inv(sv, g, H)
    ensures Inv(ServerStep(sv, H, mv), After(sv, g, H, mv), H)
  {
    match mv
    case Connect(id) =>
      ConnectKeeps(sv, g, H, mv);
    case Chunk(s, _, _) =>
      if s < |sv.sessions| && !sv.sessions[s].done {
        ChunkKeeps(sv, g, H, mv);
      }
    case Hangup(s) =>
      if s < |sv.sessions| && !sv.sessions[s].done {
        HangupKeeps(sv, g, H, s);
      }
    case Save(s) =>
      if s < |sv.sessions| && |sv.sessions[s].client.queue| > 0 {
        SaveKeeps(sv, g, H, s);
      }
    case Restart(order) => RestartKeeps(sv, g, H, order);
  }

  // ----- whole runs -----

  ghost function Run(sv: Server, H: Buffer -> Buffer, moves: seq<Move>): Server {
    if moves == [] then sv else ServerStep(Run(sv, H, moves[..|moves| - 1]), H, moves[|moves| - 1])
  }

  ghost predicate AllAllowed(sv: Server, H: Buffer -> Buffer, moves: seq<Move>) {
    forall i :: 0 <= i < |moves| ==> Allowed(Run(sv, H, moves[..i]), moves[i])
  }

  const NewServer: Server := Server(Index(map[], 0, 0), [], map[], {})

  /** The chunks that sessions have sent while they were connected. */
  ghost function Sent(sv: Server, H: Buffer -> Buffer, moves: seq<Move>): set<Buffer> {
    if moves == [] then {}
    else
      var init, mv := moves[..|moves| - 1], moves[|moves| - 1];
      var now := Run(sv, H, init);
      Sent(sv, H, init)
        + if mv.Chunk? && mv.s < |now.sessions| && !now.sessions[mv.s].done then {mv.data} else {}
  }

  lemma AllowedPrefix(sv: Server, H: Buffer -> Buffer, moves: seq<Move>)
    requires AllAllowed(sv, H, moves) && moves != []
    ensures var n := |moves| - 1; AllAllowed(sv, H, moves[..n]) && Allowed(Run(sv, H, moves[..n]), moves[n])
  {
    var n := |moves| - 1;
    forall i | 0 <= i < n
      ensures Allowed(Run(sv, H, moves[..n][..i]), moves[..n][i])
    {
      assert moves[..n][..i] == moves[..i];
      assert Allowed(Run(sv, H, moves[..i]), moves[i]);
    }
  }

  lemma NewServerInv(H: Buffer -> Buffer)
    ensures Inv(NewServer, Shadow(map[], map[], Log([], {})), H)
  {
  }

  lemma RecordsSent(sv: Server, g: Shadow, H: Buffer -> Buffer, mv: Move)
    ensures After(sv, g, H, mv).log.uploaded
         == g.log.uploaded + if mv.Chunk? && mv.s < |sv.sessions| && !sv.sessions[mv.s].done then {mv.data} else {}
  {
  }

  /** In every run of any number of sessions, however interleaved. */
  lemma {:induction false} RunKeeps(H: Buffer -> Buffer, moves: seq<Move>) returns (g: Shadow)
    requires IsHash(H) && AllAllowed(NewServer, H, moves)
    ensures Inv(Run(NewServer, H, moves), g, H)
    ensures g.log.uploaded == Sent(NewServer, H, moves)
  {
    if moves == [] {
      g := Shadow(map[], map[], Log([], {}));
      NewServerInv(H);
    } else {
      var n := |moves| - 1;
      AllowedPrefix(NewServer, H, moves);
      var g0 := RunKeeps(H, moves[..n]);
      var sv := Run(NewServer, H, moves[..n]);
      StepKeeps(sv, g0, H, moves[n]);
      RecordsSent(sv, g0, H, moves[n]);
      g := After(sv, g0, H, moves[n]);
    }
  }

  // ----- what the invariant gives -----

  /** What a restore needs: every file is a serialised container whose entries are indexed
      under its name, and every indexed fingerprint is in the file that the index names. */
  ghost predicate Restorable(store: map<Buffer, Buffer>, disk: map<Buffer, Buffer>, all: map<Buffer, seq<Entry>>) {
    && (forall id :: FileOk(store, disk, all, id))
    && (forall h :: HashOk(store, disk, all, h))
  }

  ghost predicate FileOk(store: map<Buffer, Buffer>, disk: map<Buffer, Buffer>, all: map<Buffer, seq<Entry>>, id: Buffer) {
    id in disk ==>
      && |id| == CONTAINER_ID_LENGTH
      && id in all && Fits(all[id]) && Distinct(all[id]) && disk[id] == Serialise(all[id])
      && forall j :: 0 <= j < |all[id]| ==>
           all[id][j].hash in store && store[all[id][j].hash] == id && |all[id][j].data| <= MAX_CHUNK_SIZE
  }

  ghost predicate HashOk(store: map<Buffer, Buffer>, disk: map<Buffer, Buffer>, all: map<Buffer, seq<Entry>>, h: Buffer) {
    h in store ==> store[h] in disk && store[h] in all && HasHash(all[store[h]], h)
  }

  lemma DrainedOnDisk(sv: Server, g: Shadow, id: Buffer)
    requires Placed(sv, g) && Drained(sv) && id in g.all
    ensures id in sv.disk && sv.disk[id] == Serialise(g.all[id]) && |id| == CONTAINER_ID_LENGTH
  {
    assert HomeOk(sv, g, id);
  }

  /** Once every session has hung up and every queue is drained, everything is on disk. */
  lemma DrainedIsRestorable(sv: Server, g: Shadow, H: Buffer -> Buffer)
    requires Inv(sv, g, H) && Drained(sv)
    ensures Restorable(sv.index.store, sv.disk, g.all)
  {
    forall h
      ensures HashOk(sv.index.store, sv.disk, g.all, h)
    {
      if h in sv.index.store {
        DrainedOnDisk(sv, g, sv.index.store[h]);
      }
    }
    forall id
      ensures FileOk(sv.index.store, sv.disk, g.all, id)
    {
      if id in sv.disk {
        DrainedOnDisk(sv, g, id);
        assert ContainerOk(sv.index.store, H, id, g.all[id]);
      }
    }
  }

  /** `data` is stored under `hash` in container `id`. */
  ghost predicate Holds(all: map<Buffer, seq<Entry>>, id: Buffer, hash: Buffer, data: Buffer) {
    id in all && exists j :: 0 <= j < |all[id]| && all[id][j] == Entry(hash, data)
  }

  ghost predicate CollisionFree(H: Buffer -> Buffer, chunks: set<Buffer>) {
    forall a, b :: a in chunks && b in chunks && H(a) == H(b) ==> a == b
  }

  /** What is stored under the fingerprint of a chunk that was sent is that chunk. */
  lemma StoredIsSent(sv: Server, g: Shadow, H: Buffer -> Buffer, data: Buffer)
    requires Inv(sv, g, H) && data in g.log.uploaded && CollisionFree(H, g.log.uploaded)
    ensures H(data) in sv.index.store && Holds(g.all, sv.index.store[H(data)], H(data), data)
  {
    var id := sv.index.store[H(data)];
    assert HasHash(g.all[id], H(data));
    var j :| 0 <= j < |g.all[id]| && g.all[id][j].hash == H(data);
    assert ContainerOk(sv.index.store, H, id, g.all[id]);
    assert Among(g.all[id], g.log.order);
  }

  ghost predicate SentBy(H: Buffer -> Buffer, moves: seq<Move>, h: Buffer) {
    exists data :: data in Sent(NewServer, H, moves) && H(data) == h
  }

  /** The index has a fingerprint exactly when a session has sent a chunk with it. */
  lemma IndexedExactlySent(H: Buffer -> Buffer, moves: seq<Move>, h: Buffer)
    requires IsHash(H) && AllAllowed(NewServer, H, moves)
    ensures h in Run(NewServer, H, moves).index.store <==> SentBy(H, moves, h)
  {
    var g := RunKeeps(H, moves);
    if h in Run(NewServer, H, moves).index.store {
      assert HasHash(g.log.order, h);
      var j :| 0 <= j < |g.log.order| && g.log.order[j].hash == h;
      assert g.log.order[j].data in g.log.uploaded && H(g.log.order[j].data) == h;
    }
  }

  /** The status that a query gets is 0 if a session has sent a chunk with that fingerprint
      before, and 1 otherwise. */
  lemma AnswerIsExact(H: Buffer -> Buffer, moves: seq<Move>, hashes: seq<Buffer>, k: nat)
    requires IsHash(H) && AllAllowed(NewServer, H, moves) && k < |hashes|
    ensures Statuses(Run(NewServer, H, moves).index.store, hashes)[k] == if SentBy(H, moves, hashes[k]) then 0 else 1
  {
    IndexedExactlySent(H, moves, hashes[k]);
  }

  lemma {:induction false} SentGrows(sv: Server, H: Buffer -> Buffer, moves: seq<Move>, i: nat)
    requires i <= |moves|
    ensures Sent(sv, H, moves[..i]) <= Sent(sv, H, moves)
  {
    if i == |moves| {
      assert moves[..i] == moves;
    } else {
      SentGrows(sv, H, moves[..|moves| - 1], i);
      assert moves[..|moves| - 1][..i] == moves[..i];
    }
  }

  lemma {:induction false} AllowedUpTo(sv: Server, H: Buffer -> Buffer, moves: seq<Move>, i: nat)
    requires AllAllowed(sv, H, moves) && i <= |moves|
    ensures AllAllowed(sv, H, moves[..i])
  {
    if i == |moves| {
      assert moves[..i] == moves;
    } else {
      AllowedPrefix(sv, H, moves);
      AllowedUpTo(sv, H, moves[..|moves| - 1], i);
      assert moves[..|moves| - 1][..i] == moves[..i];
    }
  }

  /** The status that a query after `asked[k]` moves gets for entry `k` of the recipe. */
  ghost predicate AnsweredOne(H: Buffer -> Buffer, moves: seq<Move>, hashes: seq<Buffer>, asked: seq<nat>, k: nat)
    requires |asked| == |hashes| && k < |hashes| && asked[k] <= |moves|
  {
    Statuses(Run(NewServer, H, moves[..asked[k]]).index.store, hashes)[k] == 1
  }

  /** Query, then upload: entry `k` of a recipe is asked about after `asked[k]` moves, among
      those of all other sessions.  In the end the whole recipe is indexed exactly when every
      entry that was answered 1 has been sent by somebody. */
  lemma QueryThenUpload(H: Buffer -> Buffer, moves: seq<Move>, hashes: seq<Buffer>, asked: seq<nat>)
    requires IsHash(H) && AllAllowed(NewServer, H, moves)
    requires |asked| == |hashes| && forall k :: 0 <= k < |asked| ==> asked[k] <= |moves|
    ensures (forall k :: 0 <= k < |hashes| ==> hashes[k] in Run(NewServer, H, moves).index.store)
      <==> (forall k :: 0 <= k < |hashes| && AnsweredOne(H, moves, hashes, asked, k) ==> SentBy(H, moves, hashes[k]))
  {
    var store := Run(NewServer, H, moves).index.store;
    forall k | 0 <= k < |hashes|
      ensures hashes[k] in store
        <==> (AnsweredOne(H, moves, hashes, asked, k) ==> SentBy(H, moves, hashes[k]))
    {
      AllowedUpTo(NewServer, H, moves, asked[k]);
      SentGrows(NewServer, H, moves, asked[k]);
      IndexedExactlySent(H, moves[..asked[k]], hashes[k]);
      IndexedExactlySent(H, moves, hashes[k]);
    }
  }

  // ----- counters -----

  function Payload(entries: seq<Entry>): (r: seq<Buffer>)
    ensures |r| == |entries| && forall i :: 0 <= i < |r| ==> r[i] == entries[i].data
  {
    seq(|entries|, i requires 0 <= i < |entries| => entries[i].data)
  }

  function TotalSize(chunks: seq<Buffer>): nat {
    if chunks == [] then 0 else TotalSize(chunks[..|chunks| - 1]) + |chunks[|chunks| - 1]|
  }

  lemma {:induction false} BodyIsTotal(entries: seq<Entry>)
    ensures |Body(entries)| == TotalSize(Payload(entries))
  {
    if entries != [] {
      var n := |entries| - 1;
      BodyIsTotal(entries[..n]);
      assert Payload(entries)[..n] == Payload(entries[..n]);
    }
  }

  /** In every run, restarts included, the unique counters are the number and the total size of
      the distinct chunks ever sent, and the index has one fingerprint for each. */
  lemma CountersAreExact(H: Buffer -> Buffer, moves: seq<Move>) returns (distinct: seq<Buffer>)
    requires IsHash(H) && AllAllowed(NewServer, H, moves)
    requires CollisionFree(H, Sent(NewServer, H, moves))
    ensures forall i, j :: 0 <= i < j < |distinct| ==> distinct[i] != distinct[j]
    ensures forall data :: data in distinct <==> data in Sent(NewServer, H, moves)
    ensures Run(NewServer, H, moves).index.uniqueChunkNum == |distinct| == |Run(NewServer, H, moves).index.store|
    ensures Run(NewServer, H, moves).index.uniqueDataSize == TotalSize(distinct)
  {
    var g := RunKeeps(H, moves);
    var index := Run(NewServer, H, moves).index;
    distinct := Payload(g.log.order);
    BodyIsTotal(g.log.order);
    StoreSize(index.store, g.log.order);
    DistinctPayload(g.log.order, g.log.uploaded, H);
    forall data ensures data in distinct <==> data in g.log.uploaded {
      StoredExactlySent(index, g.log, H, data);
    }
  }

  /** Even with collisions, the chunk counter is the number of fingerprints. */
  lemma CounterIsIndexSize(H: Buffer -> Buffer, moves: seq<Move>)
    requires IsHash(H) && AllAllowed(NewServer, H, moves)
    ensures Run(NewServer, H, moves).index.uniqueChunkNum == |Run(NewServer, H, moves).index.store|
  {
    var g := RunKeeps(H, moves);
    StoreSize(Run(NewServer, H, moves).index.store, g.log.order);
  }

  lemma StoreSize(store: map<Buffer, Buffer>, order: seq<Entry>)
    requires Distinct(order) && Indexed(store, order)
    ensures |store| == |order|
  {
    assert store.Keys == Hashes(order) by {
      forall h ensures h in store.Keys <==> h in Hashes(order) { InHashes(order, h); }
    }
    HashCount(order);
  }

  ghost function Hashes(order: seq<Entry>): set<Buffer> {
    if order == [] then {} else Hashes(order[..|order| - 1]) + {order[|order| - 1].hash}
  }

  lemma {:induction false} InHashes(order: seq<Entry>, h: Buffer)
    ensures h in Hashes(order) <==> HasHash(order, h)
  {
    if order != [] {
      var n := |order| - 1;
      InHashes(order[..n], h);
      HashAppended(order[..n], order[n], h);
      assert order == order[..n] + [order[n]];
    }
  }

  lemma {:induction false} HashCount(order: seq<Entry>)
    requires Distinct(order)
    ensures |Hashes(order)| == |order|
  {
    if order != [] {
      var n := |order| - 1;
      HashCount(order[..n]);
      InHashes(order[..n], order[n].hash);
    }
  }

  lemma StoredExactlySent(index: Index, log: Log, H: Buffer -> Buffer, data: Buffer)
    requires Ledger(index, log, H) && CollisionFree(H, log.uploaded)
    ensures data in Payload(log.order) <==> data in log.uploaded
  {
    if data in log.uploaded {
      assert H(data) in index.store;
      assert HasHash(log.order, H(data));
      var j :| 0 <= j < |log.order| && log.order[j].hash == H(data);
      assert Payload(log.order)[j] == data;
    }
  }

  lemma DistinctPayload(order: seq<Entry>, uploaded: set<Buffer>, H: Buffer -> Buffer)
    requires Distinct(order) && Genuine(order, uploaded, H)
    ensures var distinct := Payload(order); forall i, j :: 0 <= i < j < |distinct| ==> distinct[i] != distinct[j]
  {
    forall i, j | 0 <= i < j < |order|
      ensures order[i].data != order[j].data
    {
      assert order[i].hash != order[j].hash;
    }
  }
}
