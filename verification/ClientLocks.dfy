/** The per-client lock protocol of the server's connection threads.  A thread takes the lock
    that guards the lock table, finds or makes the lock of its client, blocks on that lock
    while it still holds the table's, then lets the table go and serves the client.  One step
    is one lock operation. */
module ClientLocks {

  datatype Phase = Arrived | AtTable | Serving | Gone

  /** Thread `t` serves client `clients[t]`.  `table` holds the locks made so far, each with
      the thread that holds it. */
  datatype Owner = Nobody | Held(t: nat)

  datatype State = State(clients: seq<nat>, phases: seq<Phase>, tableLock: Owner, table: map<nat, Owner>)

  ghost predicate Shape(s: State) { |s.phases| == |s.clients| }

  /** A step of thread `t`; a thread that has to wait does not move. */
  function LockStep(s: State, t: nat): State
    requires Shape(s) && t < |s.phases|
  {
    var c := s.clients[t];
    match s.phases[t]
    case Arrived =>
      if s.tableLock == Nobody then s.(phases := s.phases[t := AtTable], tableLock := Held(t)) else s
    case AtTable =>
      if c !in s.table || s.table[c] == Nobody then
        s.(phases := s.phases[t := Serving], tableLock := Nobody, table := s.table[c := Held(t)])
      else s
    case Serving => s.(phases := s.phases[t := Gone], table := s.table[c := Nobody])
    case Gone => s
  }

  /** A lock is held by the thread that serves its client, and the table's lock by the thread
      that is at the table. */
  ghost predicate Inv(s: State) {
    && Shape(s)
    && (forall t :: 0 <= t < |s.phases| ==> ThreadOk(s, t))
    && (s.tableLock.Held? ==> s.tableLock.t < |s.phases| && s.phases[s.tableLock.t] == AtTable)
    && (forall c :: c in s.table && s.table[c].Held? ==> HolderOk(s, c))
  }

  ghost predicate ThreadOk(s: State, t: nat)
    requires Shape(s) && t < |s.phases|
  {
    && (s.phases[t] == AtTable ==> s.tableLock == Held(t))
    && (s.phases[t] == Serving ==> s.clients[t] in s.table && s.table[s.clients[t]] == Held(t))
  }

  ghost predicate HolderOk(s: State, c: nat)
    requires Shape(s) && c in s.table && s.table[c].Held?
  {
    s.table[c].t < |s.phases| && s.phases[s.table[c].t] == Serving && s.clients[s.table[c].t] == c
  }

  lemma StepKeeps(s: State, t: nat)
    requires Inv(s) && t < |s.phases|
    ensures Inv(LockStep(s, t))
  {
    var s' := LockStep(s, t);
    assert ThreadOk(s, t);
    forall u | 0 <= u < |s'.phases|
      ensures ThreadOk(s', u)
    {
      assert ThreadOk(s, u);
    }
    forall c | c in s'.table && s'.table[c].Held?
      ensures HolderOk(s', c)
    {
      if c in s.table && s.table[c].Held? {
        assert HolderOk(s, c);
      }
    }
  }

  ghost predicate Initial(s: State) {
    && Shape(s) && s.tableLock == Nobody && s.table == map[]
    && forall t :: 0 <= t < |s.phases| ==> s.phases[t] == Arrived
  }

  function Run(s: State, turns: seq<nat>): (r: State)
    requires Shape(s) && forall i :: 0 <= i < |turns| ==> turns[i] < |s.phases|
    ensures Shape(r) && r.clients == s.clients
  {
    if turns == [] then s else LockStep(Run(s, turns[..|turns| - 1]), turns[|turns| - 1])
  }

  lemma {:induction false} RunKeeps(s: State, turns: seq<nat>)
    requires Initial(s) && forall i :: 0 <= i < |turns| ==> turns[i] < |s.phases|
    ensures Inv(Run(s, turns))
  {
    if turns != [] {
      RunKeeps(s, turns[..|turns| - 1]);
      StepKeeps(Run(s, turns[..|turns| - 1]), turns[|turns| - 1]);
    }
  }

  /** In every run of any number of threads, no two serve the same client at once. */
  lemma OneSessionPerClient(s: State, turns: seq<nat>, t: nat, u: nat)
    requires Initial(s) && forall i :: 0 <= i < |turns| ==> turns[i] < |s.phases|
    requires t < |s.phases| && u < |s.phases|
    requires Run(s, turns).phases[t] == Serving && Run(s, turns).phases[u] == Serving
    requires s.clients[t] == s.clients[u]
    ensures t == u
  {
    RunKeeps(s, turns);
    assert ThreadOk(Run(s, turns), t) && ThreadOk(Run(s, turns), u);
  }

  /** Another connection of the same client is being served. */
  ghost predicate ClientBusy(s: State, t: nat)
    requires Shape(s) && t < |s.phases|
  {
    exists u :: 0 <= u < |s.phases| && s.phases[u] == Serving && s.clients[u] == s.clients[t]
  }

  ghost predicate TableBusy(s: State)
    requires Shape(s)
  {
    exists u :: 0 <= u < |s.phases| && s.phases[u] == AtTable
  }

  /** In every run a connection waits for two reasons only: at the table, exactly while another
      connection of the same client is served; before it, exactly while somebody is at it. */
  lemma WaitsExactlyWhen(s: State, turns: seq<nat>, t: nat)
    requires Initial(s) && (forall i :: 0 <= i < |turns| ==> turns[i] < |s.phases|) && t < |s.phases|
    ensures var r := Run(s, turns);
      && (r.phases[t] == AtTable ==> (LockStep(r, t) == r <==> ClientBusy(r, t)))
      && (r.phases[t] == Arrived ==> (LockStep(r, t) == r <==> TableBusy(r)))
      && (r.phases[t] == Serving ==> LockStep(r, t) != r)
  {
    RunKeeps(s, turns);
    WaitsInState(Run(s, turns), t);
  }

  lemma WaitsInState(s: State, t: nat)
    requires Inv(s) && t < |s.phases|
    ensures s.phases[t] == AtTable ==> (LockStep(s, t) == s <==> ClientBusy(s, t))
    ensures s.phases[t] == Arrived ==> (LockStep(s, t) == s <==> TableBusy(s))
    ensures s.phases[t] == Serving ==> LockStep(s, t) != s
  {
    assert ThreadOk(s, t);
    var c := s.clients[t];
    if c in s.table && s.table[c].Held? {
      assert HolderOk(s, c);
    }
    if ClientBusy(s, t) {
      var u :| 0 <= u < |s.phases| && s.phases[u] == Serving && s.clients[u] == c;
      assert ThreadOk(s, u);
    }
    if TableBusy(s) {
      var u :| 0 <= u < |s.phases| && s.phases[u] == AtTable;
      assert ThreadOk(s, u);
    }
    assert LockStep(s, t) != s ==> LockStep(s, t).phases[t] != s.phases[t];
  }

  /** The first `n` connections are being served, the others have just arrived. */
  ghost predicate ServingFirst(s: State, n: nat) {
    && Shape(s) && s.tableLock == Nobody
    && (forall t :: 0 <= t < |s.phases| ==> s.phases[t] == if t < n then Serving else Arrived)
    && (forall c :: c in s.table ==> exists t :: 0 <= t < n && t < |s.clients| && s.clients[t] == c)
  }

  lemma NextServed(s: State, n: nat)
    requires ServingFirst(s, n) && n < |s.phases|
    requires forall t :: 0 <= t < n ==> s.clients[t] != s.clients[n]
    ensures ServingFirst(LockStep(LockStep(s, n), n), n + 1)
  {
    var s' := LockStep(LockStep(s, n), n);
    forall c | c in s'.table
      ensures exists t :: 0 <= t < n + 1 && t < |s.clients| && s.clients[t] == c
    {
      if c == s.clients[n] {
        assert s.clients[n] == c;
      } else {
        var t :| 0 <= t < n && t < |s.clients| && s.clients[t] == c;
      }
    }
  }

  /** Clients do not hold each other up: connections of different clients can all be served at
      the same time. */
  lemma {:induction false} AllServedAtOnce(s: State, n: nat) returns (turns: seq<nat>)
    requires Initial(s) && n <= |s.phases|
    requires forall t, u :: 0 <= t < u < |s.clients| ==> s.clients[t] != s.clients[u]
    ensures forall i :: 0 <= i < |turns| ==> turns[i] < |s.phases|
    ensures ServingFirst(Run(s, turns), n)
  {
    turns := [];
    if n > 0 {
      var before := AllServedAtOnce(s, n - 1);
      turns := before + [n - 1, n - 1];
      TwoMore(s, before, n - 1);
      NextServed(Run(s, before), n - 1);
    }
  }

  lemma TwoMore(s: State, turns: seq<nat>, t: nat)
    requires Shape(s) && t < |s.phases| && forall i :: 0 <= i < |turns| ==> turns[i] < |s.phases|
    ensures Run(s, turns + [t, t]) == LockStep(LockStep(Run(s, turns), t), t)
  {
    var all := turns + [t, t];
    assert all[..|all| - 1] == turns + [t];
    assert (turns + [t])[..|turns|] == turns;
  }

  // ----- progress -----

  function Left(p: Phase): nat {
    match p
    case Arrived => 3
    case AtTable => 2
    case Serving => 1
    case Gone => 0
  }

  function Work(phases: seq<Phase>): nat {
    if phases == [] then 0 else Work(phases[..|phases| - 1]) + Left(phases[|phases| - 1])
  }

  lemma {:induction false} WorkUpdate(phases: seq<Phase>, t: nat, p: Phase)
    requires t < |phases|
    ensures Work(phases[t := p]) == Work(phases) - Left(phases[t]) + Left(p)
  {
    var n := |phases| - 1;
    if t == n {
      assert phases[t := p][..n] == phases[..n];
    } else {
      WorkUpdate(phases[..n], t, p);
      assert phases[t := p][..n] == phases[..n][t := p];
    }
  }

  /** A thread that is not waiting brings the end nearer by one. */
  lemma MovesCount(s: State, t: nat)
    requires Shape(s) && t < |s.phases|
    ensures LockStep(s, t) == s || Work(LockStep(s, t).phases) == Work(s.phases) - 1
  {
    WorkUpdate(s.phases, t, LockStep(s, t).phases[t]);
  }

  /** No deadlock: while any thread is not gone, some thread can move.  A thread blocked on a
      client's lock waits for one that is serving, which needs no other lock to finish. */
  lemma SomebodyCanMove(s: State, t: nat) returns (u: nat)
    requires Inv(s) && t < |s.phases| && s.phases[t] != Gone
    ensures u < |s.phases| && LockStep(s, u) != s
  {
    assert ThreadOk(s, t);
    u := if s.phases[t] == Arrived && s.tableLock.Held? then s.tableLock.t else t;
    assert ThreadOk(s, u);
    if s.phases[u] == AtTable && s.clients[u] in s.table && s.table[s.clients[u]].Held? {
      assert HolderOk(s, s.clients[u]);
      u := s.table[s.clients[u]].t;
    }
    assert LockStep(s, u).phases[u] != s.phases[u];
  }

  /** From every reachable state all threads can be brought to their end, in as many moves as
      there is work left; each move uses up one, so no schedule takes more. */
  lemma {:induction false} EverybodyGetsServed(s: State) returns (turns: seq<nat>)
    requires Inv(s)
    ensures forall i :: 0 <= i < |turns| ==> turns[i] < |s.phases|
    ensures |turns| == Work(s.phases)
    ensures forall t :: 0 <= t < |s.phases| ==> Run(s, turns).phases[t] == Gone
    decreases Work(s.phases)
  {
    if t :| 0 <= t < |s.phases| && s.phases[t] != Gone {
      var u := SomebodyCanMove(s, t);
      MovesCount(s, u);
      StepKeeps(s, u);
      var rest := EverybodyGetsServed(LockStep(s, u));
      turns := [u] + rest;
      RunCons(s, u, rest);
    } else {
      NoWork(s.phases);
      turns := [];
    }
  }

  lemma {:induction false} NoWork(phases: seq<Phase>)
    requires forall t :: 0 <= t < |phases| ==> phases[t] == Gone
    ensures Work(phases) == 0
  {
    if phases != [] {
      NoWork(phases[..|phases| - 1]);
    }
  }

  lemma {:induction false} RunCons(s: State, u: nat, rest: seq<nat>)
    requires Shape(s) && u < |s.phases| && forall i :: 0 <= i < |rest| ==> rest[i] < |s.phases|
    ensures Run(s, [u] + rest) == Run(LockStep(s, u), rest)
  {
    if rest == [] {
      assert [u] + rest == [u];
    } else {
      var n := |rest| - 1;
      RunCons(s, u, rest[..n]);
      assert ([u] + rest)[..|rest|] == [u] + rest[..n];
    }
  }

  /** The cost of waiting at the table: while a second connection of a client waits for the
      first to finish, no new connection of any client gets any further. */
  lemma WaitingBlocksEveryone(s: State, u: nat, t: nat)
    requires Inv(s) && u < |s.phases| && t < |s.phases|
    requires s.phases[u] == AtTable && LockStep(s, u) == s
    requires s.phases[t] == Arrived
    ensures LockStep(s, t) == s
  {
    assert ThreadOk(s, u);
  }
}
