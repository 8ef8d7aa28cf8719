/** The whole upload side with nothing assumed of the queues: each session's containers go
    through its own lock-free queue, one shared access at a time, to its own writer thread,
    while all sessions share the index.  Every run is a run of the simpler server of module
    DedupStore, so what is proved there holds here; and when the writers have returned, that
    server is drained.

    In the source a full container is pushed inside `WriteContainer`, under the index lock and
    before the index is updated.  Here the index is updated first and the push follows in
    steps of its own, with those of other sessions in between.  The push touches only the
    session's own queue and the index update only the index, so the order of the two makes no
    difference to the states they lead to; the steps here allow every interleaving that the
    lock allows, and more. */
module Pipeline {

  import opened Bytes
  import opened ContainerFormat
  import opened Packing
  import opened Dedup
  import opened DedupStore
  import SpscQueue
  import SpscProof
  import WS = WriterShutdown
  import IndexFile

  /** One upload session: its open container, whether the client has hung up, and its receiver
      and writer threads on its queue. */
  datatype Node = Node(cur: Open, hung: bool, sys: WS.System<Open>)

  datatype World = World(index: Index, nodes: seq<Node>, disk: map<Buffer, Buffer>, used: set<Buffer>)

  datatype Act =
    | Arrive(id: Buffer)
    | Receive(s: nat, data: Buffer, newId: Buffer)
    | Leave(s: nat)
    | ReceiverTurn(s: nat)
    | WriterTurn(s: nat)
    | Reboot(order: seq<Buffer>)

  /** The receiver thread takes the next message only when it has pushed what it had to. */
  predicate Free(n: Node) { !n.hung && n.sys.todo == [] && n.sys.q.p.PIdle? }

  ghost predicate AllReturned(w: World) { forall s :: 0 <= s < |w.nodes| ==> w.nodes[s].sys.w.WExit? }

  ghost predicate ActAllowed(w: World, act: Act) {
    match act
    case Arrive(id) => id !in w.used && |id| == CONTAINER_ID_LENGTH
    case Receive(_, data, newId) => newId !in w.used && |newId| == CONTAINER_ID_LENGTH && |data| <= MAX_CHUNK_SIZE
    case Reboot(order) => AllReturned(w) && IndexFile.Enumerates(order, w.index.store)
    case _ => true
  }

  /** A chunk is stored in the open container; a full container is handed to `Push`. */
  function ReceiveChunk(w: World, H: Buffer -> Buffer, s: nat, data: Buffer, newId: Buffer): World
    requires s < |w.nodes|
  {
    var n := w.nodes[s];
    var u := UploadOne(Upload(w.index, Client(n.cur, [])), H, data, newId);
    var sys := if u.client.queue == [] then n.sys else WS.Offered(n.sys, u.client.queue[0]);
    w.(index := u.index, nodes := w.nodes[s := n.(cur := u.client.cur, sys := sys)], used := w.used + {u.client.cur.id})
  }

  /** The last container is handed to `Push` unless it is empty; then nothing more comes. */
  function Left(n: Node): Node {
    var sys := if |n.cur.entries| == 0 then n.sys else WS.Offered(n.sys, n.cur);
    n.(hung := true, sys := WS.TakeTurn(sys, WS.Close))
  }

  ghost function WorldStep(w: World, H: Buffer -> Buffer, q0: SpscQueue.Queue<Open>, act: Act): World {
    match act
    case Arrive(id) => w.(nodes := w.nodes + [Node(Open(id, []), false, WS.Session(q0))], used := w.used + {id})
    case Receive(s, data, newId) =>
      if s < |w.nodes| && Free(w.nodes[s]) then ReceiveChunk(w, H, s, data, newId) else w
    case Leave(s) => if s < |w.nodes| && Free(w.nodes[s]) then w.(nodes := w.nodes[s := Left(w.nodes[s])]) else w
    case ReceiverTurn(s) =>
      if s < |w.nodes| then w.(nodes := w.nodes[s := w.nodes[s].(sys := WS.ReceiverStep(w.nodes[s].sys))]) else w
    case WriterTurn(s) =>
      if s < |w.nodes| then
        var sys := w.nodes[s].sys;
        w.(nodes := w.nodes[s := w.nodes[s].(sys := WS.WriterStep(sys))],
           disk := if sys.w.WSave? then w.disk[sys.w.v.id := Serialise(sys.w.v.entries)] else w.disk)
      else w
    case Reboot(order) =>
      if forall i :: 0 <= i < |order| ==> order[i] in w.index.store then
        w.(index := w.index.(store := IndexFile.Reloaded(w.index.store, order)), nodes := [])
      else w
  }

  // ----- the simpler server -----

  /** What a session has handed to its receiver and not yet saved. */
  function Pending(sys: WS.System<Open>): seq<Open> {
    if |sys.saved| <= |sys.offered| then sys.offered[|sys.saved|..] else []
  }

  ghost function Abstract(n: Node): Session { Session(Client(n.cur, Pending(n.sys)), n.hung) }

  ghost predicate NodeOk(n: Node, sh: SpscProof.Shadow) {
    WS.SystemInv(n.sys, sh, n.sys.offered) && n.sys.closed == n.hung
  }

  /** The server that the world implements. */
  ghost predicate Implements(w: World, sv: Server) {
    && sv.index == w.index && sv.disk == w.disk && sv.used == w.used && |sv.sessions| == |w.nodes|
    && forall s :: 0 <= s < |w.nodes| ==> sv.sessions[s] == Abstract(w.nodes[s])
  }

  ghost predicate NodesOk(w: World, shs: seq<SpscProof.Shadow>) {
    |shs| == |w.nodes| && forall s :: 0 <= s < |w.nodes| ==> NodeOk(w.nodes[s], shs[s])
  }

  /** The move of the simpler server that an act amounts to, if any. */
  datatype Effect = Nothing | Does(mv: Move)

  function EffectOf(w: World, act: Act): Effect {
    match act
    case Arrive(id) => Does(Connect(id))
    case Receive(s, data, newId) => if s < |w.nodes| && Free(w.nodes[s]) then Does(Chunk(s, data, newId)) else Nothing
    case Leave(s) => if s < |w.nodes| && Free(w.nodes[s]) then Does(Hangup(s)) else Nothing
    case ReceiverTurn(_) => Nothing
    case WriterTurn(s) => if s < |w.nodes| && w.nodes[s].sys.w.WSave? then Does(Save(s)) else Nothing
    case Reboot(order) => Does(Restart(order))
  }

  ghost function Moved(sv: Server, H: Buffer -> Buffer, e: Effect): Server {
    if e.Does? then ServerStep(sv, H, e.mv) else sv
  }

  lemma PendingFacts(n: Node, sh: SpscProof.Shadow)
    requires NodeOk(n, sh)
    ensures |n.sys.saved| <= |n.sys.offered|
    ensures n.sys.w.WSave? ==> Pending(n.sys) != [] && Pending(n.sys)[0] == n.sys.w.v
    ensures n.sys.w.WExit? ==> Pending(n.sys) == [] && n.hung
  {
    WS.SavedInOrder(n.sys, sh);
    assert n.sys.w.WSave? ==> (n.sys.saved + [n.sys.w.v])[|n.sys.saved|] == n.sys.w.v;
  }

  lemma OfferedPending(sys: WS.System<Open>, o: Open)
    requires |sys.saved| <= |sys.offered| && !sys.closed
    ensures Pending(WS.Offered(sys, o)) == Pending(sys) + [o]
  {
  }

  /** Whatever is already queued, a chunk has the same effect on the index and the open
      container, and a full container goes behind the others. */
  lemma UploadQueued(index: Index, cur: Open, queue: seq<Open>, H: Buffer -> Buffer, data: Buffer, newId: Buffer)
    ensures var u, v := UploadOne(Upload(index, Client(cur, [])), H, data, newId), UploadOne(Upload(index, Client(cur, queue)), H, data, newId);
      && v.index == u.index && v.client.cur == u.client.cur && v.client.queue == queue + u.client.queue
      && (u.client.queue == [] || u.client.queue == [cur])
  {
  }

  lemma WriterPending(sys: WS.System<Open>)
    requires |sys.saved| <= |sys.offered| && (sys.w.WSave? ==> Pending(sys) != [])
    ensures Pending(WS.WriterStep(sys)) == if sys.w.WSave? then Pending(sys)[1..] else Pending(sys)
    ensures WS.WriterStep(sys).closed == sys.closed
  {
  }

  lemma ReceiverPending(sys: WS.System<Open>)
    ensures Pending(WS.ReceiverStep(sys)) == Pending(sys) && WS.ReceiverStep(sys).closed == sys.closed
  {
  }

  // ----- every act is a move, or nothing -----

  /** One session changes, in the world and in the server. */
  lemma Updated(w: World, sv: Server, s: nat, n: Node, w': World, sv': Server)
    requires Implements(w, sv) && s < |w.nodes|
    requires w'.nodes == w.nodes[s := n] && sv'.sessions == sv.sessions[s := Abstract(n)]
    requires sv'.index == w'.index && sv'.disk == w'.disk && sv'.used == w'.used
    ensures Implements(w', sv')
  {
  }

  ghost predicate Starts(q0: SpscQueue.Queue<Open>, sh0: SpscProof.Shadow) {
    SpscProof.Inv(q0, sh0) && SpscProof.Abs(q0, sh0) == [] && q0.p.PIdle? && q0.c.CIdle?
  }

  lemma ReceiveSimulates(w: World, sv: Server, sh: SpscProof.Shadow, H: Buffer -> Buffer, s: nat, data: Buffer, newId: Buffer)
    requires Implements(w, sv) && s < |w.nodes| && Free(w.nodes[s]) && NodeOk(w.nodes[s], sh)
    ensures Implements(ReceiveChunk(w, H, s, data, newId), ServerStep(sv, H, Chunk(s, data, newId)))
    ensures NodeOk(ReceiveChunk(w, H, s, data, newId).nodes[s], sh)
  {
    var n, w' := w.nodes[s], ReceiveChunk(w, H, s, data, newId);
    PendingFacts(n, sh);
    UploadQueued(w.index, n.cur, Pending(n.sys), H, data, newId);
    OfferedPending(n.sys, n.cur);
    WS.OfferKeeps(n.sys, sh, n.cur);
    Updated(w, sv, s, w'.nodes[s], w', ServerStep(sv, H, Chunk(s, data, newId)));
  }

  lemma LeaveSimulates(w: World, sv: Server, sh: SpscProof.Shadow, H: Buffer -> Buffer, s: nat)
    requires Implements(w, sv) && s < |w.nodes| && Free(w.nodes[s]) && NodeOk(w.nodes[s], sh)
    ensures Implements(w.(nodes := w.nodes[s := Left(w.nodes[s])]), ServerStep(sv, H, Hangup(s)))
    ensures NodeOk(Left(w.nodes[s]), sh)
  {
    var n := w.nodes[s];
    PendingFacts(n, sh);
    OfferedPending(n.sys, n.cur);
    WS.OfferKeeps(n.sys, sh, n.cur);
    WS.CloseKeeps(n.sys, sh);
    WS.CloseKeeps(WS.Offered(n.sys, n.cur), sh);
    Updated(w, sv, s, Left(n), w.(nodes := w.nodes[s := Left(n)]), ServerStep(sv, H, Hangup(s)));
  }

  ghost predicate PendingOk(sys: WS.System<Open>) {
    |sys.saved| <= |sys.offered| && (sys.w.WSave? ==> Pending(sys) != [] && Pending(sys)[0] == sys.w.v)
  }

  lemma WriterImplements(w: World, sv: Server, H: Buffer -> Buffer, q0: SpscQueue.Queue<Open>, s: nat)
    requires Implements(w, sv) && s < |w.nodes| && PendingOk(w.nodes[s].sys)
    ensures Implements(WorldStep(w, H, q0, WriterTurn(s)), Moved(sv, H, EffectOf(w, WriterTurn(s))))
  {
    var n, w' := w.nodes[s], WorldStep(w, H, q0, WriterTurn(s));
    WriterPending(n.sys);
    var sv' := Moved(sv, H, EffectOf(w, WriterTurn(s)));
    assert sv.sessions[s] == Abstract(n);
    assert sv'.sessions == sv.sessions[s := Abstract(w'.nodes[s])];
    Updated(w, sv, s, w'.nodes[s], w', sv');
  }

  lemma WriterSimulates(w: World, sv: Server, sh: SpscProof.Shadow, H: Buffer -> Buffer, q0: SpscQueue.Queue<Open>, s: nat)
    returns (sh': SpscProof.Shadow)
    requires Implements(w, sv) && s < |w.nodes| && NodeOk(w.nodes[s], sh)
    ensures Implements(WorldStep(w, H, q0, WriterTurn(s)), Moved(sv, H, EffectOf(w, WriterTurn(s))))
    ensures NodeOk(WorldStep(w, H, q0, WriterTurn(s)).nodes[s], sh')
  {
    PendingFacts(w.nodes[s], sh);
    WriterImplements(w, sv, H, q0, s);
    sh' := NodeTurn(w.nodes[s], sh, WS.WriterTurn);
  }

  lemma NodeTurn(n: Node, sh: SpscProof.Shadow, turn: WS.Turn<Open>) returns (sh': SpscProof.Shadow)
    requires NodeOk(n, sh) && (turn.WriterTurn? || turn.ReceiverTurn?)
    ensures NodeOk(n.(sys := WS.TakeTurn(n.sys, turn)), sh')
  {
    sh' := WS.TurnKeeps(n.sys, sh, turn);
    SameClosed(n.sys, turn);
  }

  lemma SameClosed(sys: WS.System<Open>, turn: WS.Turn<Open>)
    requires turn.WriterTurn? || turn.ReceiverTurn?
    ensures WS.TakeTurn(sys, turn).closed == sys.closed
  {
  }

  lemma ReceiverImplements(w: World, sv: Server, H: Buffer -> Buffer, q0: SpscQueue.Queue<Open>, s: nat)
    requires Implements(w, sv) && s < |w.nodes|
    ensures Implements(WorldStep(w, H, q0, ReceiverTurn(s)), sv)
  {
    var n, w' := w.nodes[s], WorldStep(w, H, q0, ReceiverTurn(s));
    ReceiverPending(n.sys);
    assert sv.sessions[s] == Abstract(n);
    assert sv.sessions == sv.sessions[s := Abstract(w'.nodes[s])];
    Updated(w, sv, s, w'.nodes[s], w', sv);
  }

  /** The queues of the other sessions are as before. */
  lemma NodesUpdated(w: World, shs: seq<SpscProof.Shadow>, s: nat, w': World, sh: SpscProof.Shadow)
    requires NodesOk(w, shs) && s < |w.nodes| && |w'.nodes| == |w.nodes|
    requires w'.nodes == w.nodes[s := w'.nodes[s]] && NodeOk(w'.nodes[s], sh)
    ensures NodesOk(w', shs[s := sh])
  {
  }

  lemma ArriveSimulates(w: World, sv: Server, shs: seq<SpscProof.Shadow>, H: Buffer -> Buffer,
                        q0: SpscQueue.Queue<Open>, sh0: SpscProof.Shadow, id: Buffer)
    requires Implements(w, sv) && NodesOk(w, shs) && Starts(q0, sh0)
    ensures Implements(WorldStep(w, H, q0, Arrive(id)), ServerStep(sv, H, Connect(id)))
    ensures NodesOk(WorldStep(w, H, q0, Arrive(id)), shs + [sh0])
  {
    var w' := WorldStep(w, H, q0, Arrive(id));
    forall s | 0 <= s < |w'.nodes| ensures NodeOk(w'.nodes[s], (shs + [sh0])[s]) { }
  }

  lemma ReturnedIsDrained(w: World, sv: Server, shs: seq<SpscProof.Shadow>)
    requires Implements(w, sv) && NodesOk(w, shs) && AllReturned(w)
    ensures Drained(sv)
  {
    forall s | 0 <= s < |sv.sessions|
      ensures sv.sessions[s].done && sv.sessions[s].client.queue == []
    {
      PendingFacts(w.nodes[s], shs[s]);
    }
  }

  lemma ActSimulates(w: World, sv: Server, shs: seq<SpscProof.Shadow>, H: Buffer -> Buffer,
                     q0: SpscQueue.Queue<Open>, sh0: SpscProof.Shadow, act: Act)
    returns (shs': seq<SpscProof.Shadow>)
    requires Implements(w, sv) && NodesOk(w, shs) && Starts(q0, sh0) && ActAllowed(w, act)
    ensures Implements(WorldStep(w, H, q0, act), Moved(sv, H, EffectOf(w, act)))
    ensures NodesOk(WorldStep(w, H, q0, act), shs')
    ensures var e := EffectOf(w, act); e.Does? ==> Allowed(sv, e.mv)
  {
    shs' := shs;
    match act
    case Arrive(id) =>
      ArriveSimulates(w, sv, shs, H, q0, sh0, id);
      shs' := shs + [sh0];
    case Reboot(order) =>
      ReturnedIsDrained(w, sv, shs);
      shs' := [];
    case _ =>
      if act.s < |w.nodes| {
        shs' := SessionSimulates(w, sv, shs, H, q0, act);
      }
  }

  lemma SessionSimulates(w: World, sv: Server, shs: seq<SpscProof.Shadow>, H: Buffer -> Buffer,
                         q0: SpscQueue.Queue<Open>, act: Act)
    returns (shs': seq<SpscProof.Shadow>)
    requires Implements(w, sv) && NodesOk(w, shs) && !act.Arrive? && !act.Reboot? && act.s < |w.nodes|
    ensures Implements(WorldStep(w, H, q0, act), Moved(sv, H, EffectOf(w, act)))
    ensures NodesOk(WorldStep(w, H, q0, act), shs')
  {
    var s := act.s;
    assert NodeOk(w.nodes[s], shs[s]);
    var sh := NodeSimulates(w, sv, shs[s], H, q0, act);
    NodesUpdated(w, shs, s, WorldStep(w, H, q0, act), sh);
    shs' := shs[s := sh];
  }

  lemma NodeSimulates(w: World, sv: Server, sh: SpscProof.Shadow, H: Buffer -> Buffer, q0: SpscQueue.Queue<Open>, act: Act)
    returns (sh': SpscProof.Shadow)
    requires Implements(w, sv) && !act.Arrive? && !act.Reboot? && act.s < |w.nodes| && NodeOk(w.nodes[act.s], sh)
    ensures var w' := WorldStep(w, H, q0, act);
      && Implements(w', Moved(sv, H, EffectOf(w, act)))
      && |w'.nodes| == |w.nodes| && w'.nodes == w.nodes[act.s := w'.nodes[act.s]] && NodeOk(w'.nodes[act.s], sh')
  {
    var s := act.s;
    sh' := sh;
    match act {
      case Receive(_, data, newId) => if Free(w.nodes[s]) { ReceiveSimulates(w, sv, sh, H, s, data, newId); }
      case Leave(_) => if Free(w.nodes[s]) { LeaveSimulates(w, sv, sh, H, s); }
      case ReceiverTurn(_) =>
        ReceiverImplements(w, sv, H, q0, s);
        sh' := NodeTurn(w.nodes[s], sh, WS.ReceiverTurn);
      case WriterTurn(_) => sh' := WriterSimulates(w, sv, sh, H, q0, s);
    }
  }

  // ----- whole runs -----

  ghost function WorldRun(w: World, H: Buffer -> Buffer, q0: SpscQueue.Queue<Open>, acts: seq<Act>): World {
    if acts == [] then w else WorldStep(WorldRun(w, H, q0, acts[..|acts| - 1]), H, q0, acts[|acts| - 1])
  }

  const NewWorld: World := World(Index(map[], 0, 0), [], map[], {})

  ghost predicate ActsAllowed(H: Buffer -> Buffer, q0: SpscQueue.Queue<Open>, acts: seq<Act>) {
    forall i :: 0 <= i < |acts| ==> ActAllowed(WorldRun(NewWorld, H, q0, acts[..i]), acts[i])
  }

  /** The chunks that receivers have taken in. */
  ghost function Received(H: Buffer -> Buffer, q0: SpscQueue.Queue<Open>, acts: seq<Act>): set<Buffer> {
    if acts == [] then {}
    else
      var init, act := acts[..|acts| - 1], acts[|acts| - 1];
      var w := WorldRun(NewWorld, H, q0, init);
      Received(H, q0, init) + if act.Receive? && act.s < |w.nodes| && Free(w.nodes[act.s]) then {act.data} else {}
  }

  lemma ActsPrefix(H: Buffer -> Buffer, q0: SpscQueue.Queue<Open>, acts: seq<Act>)
    requires ActsAllowed(H, q0, acts) && acts != []
    ensures var n := |acts| - 1; ActsAllowed(H, q0, acts[..n]) && ActAllowed(WorldRun(NewWorld, H, q0, acts[..n]), acts[n])
  {
    var n := |acts| - 1;
    forall i | 0 <= i < n
      ensures ActAllowed(WorldRun(NewWorld, H, q0, acts[..n][..i]), acts[..n][i])
    {
      assert acts[..n][..i] == acts[..i];
      assert ActAllowed(WorldRun(NewWorld, H, q0, acts[..i]), acts[i]);
    }
  }

  lemma OneMoreMove(H: Buffer -> Buffer, moves: seq<Move>, mv: Move)
    requires AllAllowed(NewServer, H, moves) && Allowed(Run(NewServer, H, moves), mv)
    ensures AllAllowed(NewServer, H, moves + [mv])
    ensures Run(NewServer, H, moves + [mv]) == ServerStep(Run(NewServer, H, moves), H, mv)
  {
    var moves' := moves + [mv];
    assert moves'[..|moves|] == moves;
    forall i | 0 <= i < |moves'|
      ensures Allowed(Run(NewServer, H, moves'[..i]), moves'[i])
    {
      if i < |moves| {
        assert moves'[..i] == moves[..i];
        assert Allowed(Run(NewServer, H, moves[..i]), moves[i]);
      }
    }
  }

  lemma OneMoreSent(H: Buffer -> Buffer, moves: seq<Move>, mv: Move)
    ensures var sv := Run(NewServer, H, moves);
      Sent(NewServer, H, moves + [mv]) == Sent(NewServer, H, moves)
        + if mv.Chunk? && mv.s < |sv.sessions| && !sv.sessions[mv.s].done then {mv.data} else {}
  {
    assert (moves + [mv])[..|moves|] == moves;
  }

  /** Every run of the threads is a run of the simpler server, with the same chunks sent. */
  lemma {:induction false} WorldIsServer(H: Buffer -> Buffer, q0: SpscQueue.Queue<Open>, sh0: SpscProof.Shadow, acts: seq<Act>)
    returns (moves: seq<Move>, shs: seq<SpscProof.Shadow>)
    requires Starts(q0, sh0) && ActsAllowed(H, q0, acts)
    ensures AllAllowed(NewServer, H, moves)
    ensures Implements(WorldRun(NewWorld, H, q0, acts), Run(NewServer, H, moves)) && NodesOk(WorldRun(NewWorld, H, q0, acts), shs)
    ensures Sent(NewServer, H, moves) == Received(H, q0, acts)
  {
    moves, shs := [], [];
    if acts != [] {
      var n := |acts| - 1;
      ActsPrefix(H, q0, acts);
      moves, shs := WorldIsServer(H, q0, sh0, acts[..n]);
      var w, sv := WorldRun(NewWorld, H, q0, acts[..n]), Run(NewServer, H, moves);
      shs := ActSimulates(w, sv, shs, H, q0, sh0, acts[n]);
      SameSent(w, sv, acts[n]);
      moves := OneMoreEffect(H, moves, EffectOf(w, acts[n]));
    }
  }

  /** A chunk is taken in exactly when the server counts it as sent. */
  lemma SameSent(w: World, sv: Server, act: Act)
    requires Implements(w, sv)
    ensures var e := EffectOf(w, act);
      && (e.Does? && e.mv.Chunk? <==> act.Receive? && act.s < |w.nodes| && Free(w.nodes[act.s]))
      && (e.Does? && e.mv.Chunk? ==> e.mv.data == act.data && e.mv.s < |sv.sessions| && !sv.sessions[e.mv.s].done)
  {
  }

  lemma OneMoreEffect(H: Buffer -> Buffer, moves: seq<Move>, e: Effect) returns (moves': seq<Move>)
    requires AllAllowed(NewServer, H, moves) && (e.Does? ==> Allowed(Run(NewServer, H, moves), e.mv))
    ensures AllAllowed(NewServer, H, moves') && Run(NewServer, H, moves') == Moved(Run(NewServer, H, moves), H, e)
    ensures var sv := Run(NewServer, H, moves);
      Sent(NewServer, H, moves') == Sent(NewServer, H, moves)
        + if e.Does? && e.mv.Chunk? && e.mv.s < |sv.sessions| && !sv.sessions[e.mv.s].done then {e.mv.data} else {}
  {
    moves' := moves;
    if e.Does? {
      OneMoreMove(H, moves, e.mv);
      OneMoreSent(H, moves, e.mv);
      moves' := moves + [e.mv];
    }
  }

  /** When the writers of all sessions have returned, the server that the world implements is
      drained: nothing is left in a queue, and everything that was sent is on disk. */
  lemma WritersDrain(H: Buffer -> Buffer, q0: SpscQueue.Queue<Open>, sh0: SpscProof.Shadow, acts: seq<Act>)
    returns (moves: seq<Move>)
    requires Starts(q0, sh0) && ActsAllowed(H, q0, acts) && AllReturned(WorldRun(NewWorld, H, q0, acts))
    ensures AllAllowed(NewServer, H, moves) && Sent(NewServer, H, moves) == Received(H, q0, acts)
    ensures var w, sv := WorldRun(NewWorld, H, q0, acts), Run(NewServer, H, moves);
      Drained(sv) && sv.index == w.index && sv.disk == w.disk
  {
    var shs;
    moves, shs := WorldIsServer(H, q0, sh0, acts);
    ReturnedIsDrained(WorldRun(NewWorld, H, q0, acts), Run(NewServer, H, moves), shs);
  }
}
