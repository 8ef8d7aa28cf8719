/** The upload side always comes to its end: from every reachable state, with any number of
    sessions at any point, all of them can hang up and all writers return. */
module PipelineProgress {

  import opened Bytes
  import opened Packing
  import opened Dedup
  import opened Pipeline
  import opened QueueLayout
  import SpscQueue
  import SpscProof
  import SpscRuns
  import WS = WriterShutdown
  import WP = WriterProgress

  ghost predicate NodeGood(n: Node, sh: SpscProof.Shadow) { WP.Good(n.sys, sh) && n.sys.closed == n.hung }

  ghost predicate NodesGood(nodes: seq<Node>, shs: seq<SpscProof.Shadow>) {
    |shs| == |nodes| && forall s :: 0 <= s < |nodes| ==> NodeGood(nodes[s], shs[s])
  }

  // ----- every act keeps the sessions good -----

  lemma OfferGood(sys: WS.System<Open>, sh: SpscProof.Shadow, o: Open)
    requires WP.Good(sys, sh)
    ensures WP.Good(WS.Offered(sys, o), sh) && WS.Offered(sys, o).closed == sys.closed
  {
    if !sys.closed {
      WS.OfferKeeps(sys, sh, o);
    }
  }

  lemma ReceiveGood(w: World, H: Buffer -> Buffer, s: nat, data: Buffer, newId: Buffer, sh: SpscProof.Shadow)
    requires s < |w.nodes| && NodeGood(w.nodes[s], sh)
    ensures NodeGood(ReceiveChunk(w, H, s, data, newId).nodes[s], sh)
  {
    var u := UploadOne(Upload(w.index, Client(w.nodes[s].cur, [])), H, data, newId);
    if u.client.queue != [] {
      OfferGood(w.nodes[s].sys, sh, u.client.queue[0]);
    }
  }

  lemma LeftGood(n: Node, sh: SpscProof.Shadow)
    requires NodeGood(n, sh)
    ensures NodeGood(Left(n), sh) && Left(n).hung
  {
    OfferGood(n.sys, sh, n.cur);
    WS.CloseKeeps(n.sys, sh);
    WS.CloseKeeps(WS.Offered(n.sys, n.cur), sh);
  }

  lemma TurnGood(n: Node, sh: SpscProof.Shadow, turn: WS.Turn<Open>) returns (sh': SpscProof.Shadow)
    requires NodeGood(n, sh) && (turn.WriterTurn? || turn.ReceiverTurn?)
    ensures NodeGood(n.(sys := WS.TakeTurn(n.sys, turn)), sh')
  {
    sh' := WP.GoodTurn(n.sys, sh, turn);
    SameClosed(n.sys, turn);
  }

  lemma NodeActGood(w: World, H: Buffer -> Buffer, q0: SpscQueue.Queue<Open>, act: Act, sh: SpscProof.Shadow)
    returns (sh': SpscProof.Shadow)
    requires !act.Arrive? && !act.Reboot? && act.s < |w.nodes| && NodeGood(w.nodes[act.s], sh)
    ensures var w' := WorldStep(w, H, q0, act);
      |w'.nodes| == |w.nodes| && w'.nodes == w.nodes[act.s := w'.nodes[act.s]] && NodeGood(w'.nodes[act.s], sh')
  {
    sh' := sh;
    match act {
      case Receive(s, data, newId) => ReceiveGood(w, H, s, data, newId, sh);
      case Leave(s) => LeftGood(w.nodes[s], sh);
      case ReceiverTurn(s) => sh' := TurnGood(w.nodes[s], sh, WS.ReceiverTurn);
      case WriterTurn(s) => sh' := TurnGood(w.nodes[s], sh, WS.WriterTurn);
    }
  }

  lemma OneChanged(nodes: seq<Node>, shs: seq<SpscProof.Shadow>, s: nat, nodes': seq<Node>, sh: SpscProof.Shadow)
    requires NodesGood(nodes, shs) && s < |nodes| == |nodes'| && nodes' == nodes[s := nodes'[s]] && NodeGood(nodes'[s], sh)
    ensures NodesGood(nodes', shs[s := sh])
  {
  }

  lemma OneAdded(nodes: seq<Node>, shs: seq<SpscProof.Shadow>, n: Node, sh: SpscProof.Shadow)
    requires NodesGood(nodes, shs) && NodeGood(n, sh)
    ensures NodesGood(nodes + [n], shs + [sh])
  {
  }

  lemma ArriveGood(w: World, H: Buffer -> Buffer, q0: SpscQueue.Queue<Open>, sh0: SpscProof.Shadow, id: Buffer, shs: seq<SpscProof.Shadow>)
    requires NodesGood(w.nodes, shs) && WP.Good(WS.Session(q0), sh0)
    ensures NodesGood(WorldStep(w, H, q0, Arrive(id)).nodes, shs + [sh0])
  {
    OneAdded(w.nodes, shs, Node(Open(id, []), false, WS.Session(q0)), sh0);
  }

  lemma SessionActGood(w: World, H: Buffer -> Buffer, q0: SpscQueue.Queue<Open>, act: Act, shs: seq<SpscProof.Shadow>)
    returns (shs': seq<SpscProof.Shadow>)
    requires !act.Arrive? && !act.Reboot? && act.s < |w.nodes| && NodesGood(w.nodes, shs)
    ensures NodesGood(WorldStep(w, H, q0, act).nodes, shs')
  {
    assert NodeGood(w.nodes[act.s], shs[act.s]);
    var sh := NodeActGood(w, H, q0, act, shs[act.s]);
    OneChanged(w.nodes, shs, act.s, WorldStep(w, H, q0, act).nodes, sh);
    shs' := shs[act.s := sh];
  }

  lemma ActGood(w: World, H: Buffer -> Buffer, q0: SpscQueue.Queue<Open>, sh0: SpscProof.Shadow, act: Act, shs: seq<SpscProof.Shadow>)
    returns (shs': seq<SpscProof.Shadow>)
    requires NodesGood(w.nodes, shs) && WP.Good(WS.Session(q0), sh0)
    ensures NodesGood(WorldStep(w, H, q0, act).nodes, shs')
  {
    shs' := shs;
    if act.Arrive? {
      ArriveGood(w, H, q0, sh0, act.id, shs);
      shs' := shs + [sh0];
    } else if act.Reboot? {
      if forall i :: 0 <= i < |act.order| ==> act.order[i] in w.index.store {
        shs' := [];
      }
    } else if act.s < |w.nodes| {
      shs' := SessionActGood(w, H, q0, act, shs);
    }
  }

  lemma {:induction false} RunGood(w: World, H: Buffer -> Buffer, q0: SpscQueue.Queue<Open>, sh0: SpscProof.Shadow, acts: seq<Act>, shs: seq<SpscProof.Shadow>)
    returns (shs': seq<SpscProof.Shadow>)
    requires NodesGood(w.nodes, shs) && WP.Good(WS.Session(q0), sh0)
    ensures NodesGood(WorldRun(w, H, q0, acts).nodes, shs')
  {
    shs' := shs;
    if acts != [] {
      var n := |acts| - 1;
      shs' := RunGood(w, H, q0, sh0, acts[..n], shs);
      shs' := ActGood(WorldRun(w, H, q0, acts[..n]), H, q0, sh0, acts[n], shs');
    }
  }

  // ----- turns of one session as acts of the world -----

  function ActsOf(s: nat, turns: seq<WS.Turn<Open>>): (acts: seq<Act>)
    ensures |acts| == |turns|
  {
    seq(|turns|, i requires 0 <= i < |turns| => if turns[i].ReceiverTurn? then ReceiverTurn(s) else WriterTurn(s))
  }

  /** Acts that bring nothing new: sessions hang up and their threads go on. */
  ghost predicate Finishing(acts: seq<Act>) {
    forall i :: 0 <= i < |acts| ==> acts[i].Leave? || acts[i].ReceiverTurn? || acts[i].WriterTurn?
  }

  /** Only session `s` changes, and nothing is indexed. */
  ghost predicate Only(w: World, w': World, s: nat) {
    s < |w.nodes| == |w'.nodes| && w'.nodes == w.nodes[s := w'.nodes[s]]
    && w'.index == w.index && w'.used == w.used
  }

  lemma {:induction false} RunAppend(w: World, H: Buffer -> Buffer, q0: SpscQueue.Queue<Open>, a: seq<Act>, b: seq<Act>)
    ensures WorldRun(w, H, q0, a + b) == WorldRun(WorldRun(w, H, q0, a), H, q0, b)
  {
    if b == [] {
      assert a + b == a;
    } else {
      RunAppend(w, H, q0, a, b[..|b| - 1]);
      assert (a + b)[..|a + b| - 1] == a + b[..|b| - 1];
    }
  }

  lemma TurnIsAct(w: World, H: Buffer -> Buffer, q0: SpscQueue.Queue<Open>, s: nat, turn: WS.Turn<Open>)
    requires s < |w.nodes| && (turn.ReceiverTurn? || turn.WriterTurn?)
    ensures var w' := WorldStep(w, H, q0, if turn.ReceiverTurn? then ReceiverTurn(s) else WriterTurn(s));
      Only(w, w', s) && w'.nodes[s] == w.nodes[s].(sys := WS.TakeTurn(w.nodes[s].sys, turn))
  {
  }

  lemma OnlyTwice(w: World, w1: World, w2: World, s: nat)
    requires Only(w, w1, s) && Only(w1, w2, s)
    ensures Only(w, w2, s)
  {
  }

  lemma LastAct(w: World, H: Buffer -> Buffer, q0: SpscQueue.Queue<Open>, acts: seq<Act>, act: Act)
    ensures WorldRun(w, H, q0, acts + [act]) == WorldStep(WorldRun(w, H, q0, acts), H, q0, act)
  {
    assert (acts + [act])[..|acts|] == acts;
  }

  lemma {:induction false} TurnsAreActs(w: World, H: Buffer -> Buffer, q0: SpscQueue.Queue<Open>, s: nat, turns: seq<WS.Turn<Open>>)
    requires s < |w.nodes| && WP.ByThreads(turns)
    ensures var w' := WorldRun(w, H, q0, ActsOf(s, turns));
      Only(w, w', s) && w'.nodes[s] == w.nodes[s].(sys := WS.Run(w.nodes[s].sys, turns))
  {
    if turns != [] {
      var n := |turns| - 1;
      TurnsAreActs(w, H, q0, s, turns[..n]);
      var w1 := WorldRun(w, H, q0, ActsOf(s, turns[..n]));
      TurnIsAct(w1, H, q0, s, turns[n]);
      OnlyTwice(w, w1, WorldStep(w1, H, q0, ActsOf(s, turns)[n]), s);
      LastAct(w, H, q0, ActsOf(s, turns[..n]), ActsOf(s, turns)[n]);
      assert ActsOf(s, turns) == ActsOf(s, turns[..n]) + [ActsOf(s, turns)[n]];
    }
  }

  // ----- one session after the other -----

  /** A session that has not hung up gets free and does. */
  lemma HangsUp(w: World, H: Buffer -> Buffer, q0: SpscQueue.Queue<Open>, s: nat, sh: SpscProof.Shadow)
    returns (acts: seq<Act>, sh': SpscProof.Shadow)
    requires s < |w.nodes| && NodeGood(w.nodes[s], sh) && !w.nodes[s].hung
    ensures Finishing(acts)
    ensures var w' := WorldRun(w, H, q0, acts); Only(w, w', s) && NodeGood(w'.nodes[s], sh') && w'.nodes[s].hung
  {
    var turns;
    turns, sh' := WP.ReceiverGetsFree(w.nodes[s].sys, sh);
    TurnsAreActs(w, H, q0, s, turns);
    acts := ActsOf(s, turns);
    LeavesNow(WorldRun(w, H, q0, acts), H, q0, s, sh');
    LastAct(w, H, q0, acts, Leave(s));
    acts := acts + [Leave(s)];
  }

  lemma LeavesNow(w: World, H: Buffer -> Buffer, q0: SpscQueue.Queue<Open>, s: nat, sh: SpscProof.Shadow)
    requires s < |w.nodes| && NodeGood(w.nodes[s], sh) && Free(w.nodes[s])
    ensures var w' := WorldStep(w, H, q0, Leave(s)); Only(w, w', s) && NodeGood(w'.nodes[s], sh) && w'.nodes[s].hung
  {
    LeftGood(w.nodes[s], sh);
  }

  lemma Returns(w: World, H: Buffer -> Buffer, q0: SpscQueue.Queue<Open>, s: nat, sh: SpscProof.Shadow)
    returns (acts: seq<Act>, sh': SpscProof.Shadow)
    requires s < |w.nodes| && NodeGood(w.nodes[s], sh) && w.nodes[s].hung
    ensures Finishing(acts)
    ensures var w' := WorldRun(w, H, q0, acts); Only(w, w', s) && NodeGood(w'.nodes[s], sh') && w'.nodes[s].sys.w.WExit?
  {
    var turns;
    turns, sh' := WP.Finishes(w.nodes[s].sys, sh);
    TurnsAreActs(w, H, q0, s, turns);
    acts := ActsOf(s, turns);
  }

  lemma SessionEnds(w: World, H: Buffer -> Buffer, q0: SpscQueue.Queue<Open>, s: nat, sh: SpscProof.Shadow)
    returns (acts: seq<Act>, sh': SpscProof.Shadow)
    requires s < |w.nodes| && NodeGood(w.nodes[s], sh)
    ensures Finishing(acts)
    ensures var w' := WorldRun(w, H, q0, acts); Only(w, w', s) && NodeGood(w'.nodes[s], sh') && w'.nodes[s].sys.w.WExit?
  {
    acts, sh' := [], sh;
    if !w.nodes[s].hung {
      acts, sh' := HangsUp(w, H, q0, s, sh);
    }
    var rest;
    rest, sh' := Returns(WorldRun(w, H, q0, acts), H, q0, s, sh');
    RunAppend(w, H, q0, acts, rest);
    acts := acts + rest;
  }

  ghost predicate ReturnedUpTo(w: World, n: nat)
    requires n <= |w.nodes|
  {
    forall s :: 0 <= s < n ==> w.nodes[s].sys.w.WExit?
  }

  lemma {:induction false} SessionsEnd(w: World, H: Buffer -> Buffer, q0: SpscQueue.Queue<Open>, shs: seq<SpscProof.Shadow>, n: nat)
    returns (acts: seq<Act>, shs': seq<SpscProof.Shadow>)
    requires NodesGood(w.nodes, shs) && n <= |w.nodes|
    ensures Finishing(acts)
    ensures var w' := WorldRun(w, H, q0, acts);
      |w'.nodes| == |w.nodes| && w'.index == w.index && NodesGood(w'.nodes, shs') && ReturnedUpTo(w', n)
  {
    acts, shs' := [], shs;
    if n > 0 {
      acts, shs' := SessionsEnd(w, H, q0, shs, n - 1);
      var rest;
      rest, shs' := NextEnds(WorldRun(w, H, q0, acts), H, q0, shs', n - 1);
      RunAppend(w, H, q0, acts, rest);
      acts := acts + rest;
    }
  }

  lemma NextEnds(w: World, H: Buffer -> Buffer, q0: SpscQueue.Queue<Open>, shs: seq<SpscProof.Shadow>, n: nat)
    returns (acts: seq<Act>, shs': seq<SpscProof.Shadow>)
    requires NodesGood(w.nodes, shs) && n < |w.nodes| && ReturnedUpTo(w, n)
    ensures Finishing(acts)
    ensures var w' := WorldRun(w, H, q0, acts);
      |w'.nodes| == |w.nodes| && w'.index == w.index && NodesGood(w'.nodes, shs') && ReturnedUpTo(w', n + 1)
  {
    assert NodeGood(w.nodes[n], shs[n]);
    var sh;
    acts, sh := SessionEnds(w, H, q0, n, shs[n]);
    OneMoreReturned(w, WorldRun(w, H, q0, acts), shs, n, sh);
    shs' := shs[n := sh];
  }

  lemma OneMoreReturned(w: World, w': World, shs: seq<SpscProof.Shadow>, n: nat, sh: SpscProof.Shadow)
    requires NodesGood(w.nodes, shs) && n < |w.nodes| && ReturnedUpTo(w, n)
    requires Only(w, w', n) && NodeGood(w'.nodes[n], sh) && w'.nodes[n].sys.w.WExit?
    ensures NodesGood(w'.nodes, shs[n := sh]) && ReturnedUpTo(w', n + 1)
  {
  }

  // ----- whole runs -----

  lemma OneMoreAct(H: Buffer -> Buffer, q0: SpscQueue.Queue<Open>, acts: seq<Act>, act: Act)
    requires ActsAllowed(H, q0, acts) && (act.Leave? || act.ReceiverTurn? || act.WriterTurn?)
    ensures ActsAllowed(H, q0, acts + [act])
  {
    var all := acts + [act];
    forall i | 0 <= i < |all|
      ensures ActAllowed(WorldRun(NewWorld, H, q0, all[..i]), all[i])
    {
      if i < |acts| {
        assert all[..i] == acts[..i];
        assert ActAllowed(WorldRun(NewWorld, H, q0, acts[..i]), acts[i]);
      }
    }
  }

  lemma NoneReceived(H: Buffer -> Buffer, q0: SpscQueue.Queue<Open>, acts: seq<Act>, act: Act)
    requires !act.Receive?
    ensures Received(H, q0, acts + [act]) == Received(H, q0, acts)
  {
    assert (acts + [act])[..|acts|] == acts;
  }

  lemma Regroup(acts: seq<Act>, rest: seq<Act>)
    requires rest != []
    ensures acts + rest == (acts + [rest[0]]) + rest[1..]
  {
  }

  lemma {:induction false} MoreActs(H: Buffer -> Buffer, q0: SpscQueue.Queue<Open>, acts: seq<Act>, rest: seq<Act>)
    requires Finishing(rest) && ActsAllowed(H, q0, acts)
    ensures ActsAllowed(H, q0, acts + rest)
    decreases |rest|
  {
    if rest == [] {
      assert acts + rest == acts;
    } else {
      OneMoreAct(H, q0, acts, rest[0]);
      MoreActs(H, q0, acts + [rest[0]], rest[1..]);
      Regroup(acts, rest);
    }
  }

  lemma {:induction false} NothingReceived(H: Buffer -> Buffer, q0: SpscQueue.Queue<Open>, acts: seq<Act>, rest: seq<Act>)
    requires Finishing(rest)
    ensures Received(H, q0, acts + rest) == Received(H, q0, acts)
    decreases |rest|
  {
    if rest == [] {
      assert acts + rest == acts;
    } else {
      NoneReceived(H, q0, acts, rest[0]);
      NothingReceived(H, q0, acts + [rest[0]], rest[1..]);
      Regroup(acts, rest);
    }
  }

  /** Main result.  After any run of any sessions, each with its own lock-free queue for at
      least one container, some more acts, in which nothing new is received, bring every
      session to its end: all clients hang up and all writers return. */
  lemma EverybodyReturns(H: Buffer -> Buffer, requested: nat, ceil: nat, maxBlock: nat, acts: seq<Act>) returns (rest: seq<Act>)
    requires maxBlock >= 2 && LeastPow2(ceil, requested + 1) && requested >= 1
    requires ActsAllowed(H, SpscRuns.Constructed<Open>(requested, ceil, maxBlock, false), acts)
    ensures var q0 := SpscRuns.Constructed<Open>(requested, ceil, maxBlock, false);
      var w, w' := WorldRun(NewWorld, H, q0, acts), WorldRun(NewWorld, H, q0, acts + rest);
      && Finishing(rest) && ActsAllowed(H, q0, acts + rest) && Received(H, q0, acts + rest) == Received(H, q0, acts)
      && AllReturned(w') && w'.index == w.index
  {
    var q0 := SpscRuns.Constructed<Open>(requested, ceil, maxBlock, false);
    var sh0 := WP.StartsGood<Open>(requested, ceil, maxBlock);
    var w := WorldRun(NewWorld, H, q0, acts);
    var shs := RunGood(NewWorld, H, q0, sh0, acts, []);
    var shs';
    rest, shs' := SessionsEnd(w, H, q0, shs, |w.nodes|);
    RunAppend(NewWorld, H, q0, acts, rest);
    MoreActs(H, q0, acts, rest);
    NothingReceived(H, q0, acts, rest);
  }

  lemma ReceiveIsAllowed(H: Buffer -> Buffer, q0: SpscQueue.Queue<Open>, acts: seq<Act>, act: Act)
    requires ActsAllowed(H, q0, acts) && ActAllowed(WorldRun(NewWorld, H, q0, acts), act)
    ensures ActsAllowed(H, q0, acts + [act])
  {
    var all := acts + [act];
    forall i | 0 <= i < |all|
      ensures ActAllowed(WorldRun(NewWorld, H, q0, all[..i]), all[i])
    {
      if i < |acts| {
        assert all[..i] == acts[..i];
        assert ActAllowed(WorldRun(NewWorld, H, q0, acts[..i]), acts[i]);
      } else {
        assert all[..i] == acts;
      }
    }
  }

  lemma TakenIn(H: Buffer -> Buffer, q0: SpscQueue.Queue<Open>, acts: seq<Act>, s: nat, data: Buffer, newId: Buffer)
    requires s < |WorldRun(NewWorld, H, q0, acts).nodes| && Free(WorldRun(NewWorld, H, q0, acts).nodes[s])
    ensures data in Received(H, q0, acts + [Receive(s, data, newId)])
    ensures H(data) in WorldRun(NewWorld, H, q0, acts + [Receive(s, data, newId)]).index.store
  {
    assert (acts + [Receive(s, data, newId)])[..|acts|] == acts;
    LastAct(NewWorld, H, q0, acts, Receive(s, data, newId));
  }

  /** A client that has not hung up is never turned away: after any run, once its receiver has
      pushed what it had to, its next chunk is taken in and indexed. */
  lemma EveryChunkIsTaken(H: Buffer -> Buffer, requested: nat, ceil: nat, maxBlock: nat, acts: seq<Act>, s: nat, data: Buffer, newId: Buffer)
    returns (rest: seq<Act>)
    requires maxBlock >= 2 && LeastPow2(ceil, requested + 1) && requested >= 1
    requires ActsAllowed(H, SpscRuns.Constructed<Open>(requested, ceil, maxBlock, false), acts)
    requires var w := WorldRun(NewWorld, H, SpscRuns.Constructed<Open>(requested, ceil, maxBlock, false), acts);
      s < |w.nodes| && !w.nodes[s].hung && ActAllowed(w, Receive(s, data, newId))
    ensures var q0 := SpscRuns.Constructed<Open>(requested, ceil, maxBlock, false);
      var acts' := acts + rest + [Receive(s, data, newId)];
      && Finishing(rest) && ActsAllowed(H, q0, acts')
      && data in Received(H, q0, acts') && H(data) in WorldRun(NewWorld, H, q0, acts').index.store
  {
    var q0 := SpscRuns.Constructed<Open>(requested, ceil, maxBlock, false);
    var sh0 := WP.StartsGood<Open>(requested, ceil, maxBlock);
    var w := WorldRun(NewWorld, H, q0, acts);
    var shs := RunGood(NewWorld, H, q0, sh0, acts, []);
    assert NodeGood(w.nodes[s], shs[s]);
    rest := GetsFree(w, H, q0, s, shs[s]);
    MoreActs(H, q0, acts, rest);
    RunAppend(NewWorld, H, q0, acts, rest);
    ReceiveIsAllowed(H, q0, acts + rest, Receive(s, data, newId));
    TakenIn(H, q0, acts + rest, s, data, newId);
  }

  lemma GetsFree(w: World, H: Buffer -> Buffer, q0: SpscQueue.Queue<Open>, s: nat, sh: SpscProof.Shadow) returns (acts: seq<Act>)
    requires s < |w.nodes| && NodeGood(w.nodes[s], sh) && !w.nodes[s].hung
    ensures Finishing(acts)
    ensures var w' := WorldRun(w, H, q0, acts); Only(w, w', s) && Free(w'.nodes[s])
  {
    var turns, sh' := WP.ReceiverGetsFree(w.nodes[s].sys, sh);
    TurnsAreActs(w, H, q0, s, turns);
    acts := ActsOf(s, turns);
  }
}
