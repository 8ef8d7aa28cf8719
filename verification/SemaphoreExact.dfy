/** Exactly when the semaphore conserves, run by run.  A `signal(0)` that finds a waiter
    asleep issues a wake-up that no signal pays for; every such wake-up stays in the semaphore
    for good, as a token too many or as a wait too many. */
module SemaphoreExact {

  import opened Semaphore

  /** The step is a `signal(0)` that finds the count negative. */
  predicate IsEmptyWake(m: Sema, mv: Move) { mv.BySignaller? && m.s == SSignal(0) && m.count == -1 }

  function EmptyWakes(initialCount: nat, moves: seq<Move>): nat {
    if moves == [] then 0
    else
      var n := |moves| - 1;
      EmptyWakes(initialCount, moves[..n])
        + if IsEmptyWake(Exec(New(initialCount), moves[..n]).m, moves[n]) then 1 else 0
  }

  // ----- what is conserved in every run -----

  /** Signals less successful waits. */
  function Balance(m: Sema): int { m.signals - m.wins }

  /** A wake-up is due to the waiter. */
  function Due(m: Sema): nat { if m.w.WRetry? || (Debt(m.w) == 1 && m.count >= 0) then 1 else 0 }

  /** Wake-ups too many, and waits too many. */
  function Surplus(m: Sema): int { Tokens(m) - Due(m) + if Balance(m) < 0 then -Balance(m) else 0 }

  ghost predicate Sound(m: Sema) {
    && m.count == Balance(m) - Debt(m.w)
    && (m.w.WTake? || m.w.WRetry? ==> m.count >= 1)
    && (m.w.WTryOs? ==> m.count >= 0)
  }

  /** Every step of every run keeps the surplus, except that an empty wake adds one. */
  lemma SurplusStep(m: Sema, mv: Move)
    requires Sound(m)
    ensures Sound(SemaStep(m, mv).m)
    ensures Surplus(SemaStep(m, mv).m) == Surplus(m) + if IsEmptyWake(m, mv) then 1 else 0
  {
    if mv.ByWaiter? {
      WaiterKeepsSurplus(m, mv.wm);
    }
  }

  lemma WaiterKeepsSurplus(m: Sema, mv: WaiterMove)
    requires Sound(m)
    ensures Sound(WaiterStep(m, mv).m) && Surplus(WaiterStep(m, mv).m) == Surplus(m)
  {
  }

  /** The surplus is the number of empty wakes, in every run. */
  lemma {:induction false} SurplusIsEmptyWakes(initialCount: nat, moves: seq<Move>)
    ensures var m := Exec(New(initialCount), moves).m; Sound(m) && Surplus(m) == EmptyWakes(initialCount, moves)
  {
    if moves != [] {
      var n := |moves| - 1;
      SurplusIsEmptyWakes(initialCount, moves[..n]);
      SurplusStep(Exec(New(initialCount), moves[..n]).m, moves[n]);
    }
  }

  // ----- without empty wakes -----

  lemma NoSurplusIsFine(m: Sema)
    requires Sound(m) && Surplus(m) == 0
    ensures Balance(m) >= 0 && m.count >= -1
  {
  }

  lemma StepEvent(m: Sema, mv: Move)
    requires m.count >= -1
    ensures var r := SemaStep(m, mv); r.ev != AssertFailed && r.m.wins == m.wins + if r.ev == Won then 1 else 0
  {
  }

  lemma {:induction false} EventsConserve(initialCount: nat, moves: seq<Move>)
    requires EmptyWakes(initialCount, moves) == 0
    ensures var t := Exec(New(initialCount), moves); Wins(t.events) == t.m.wins && AssertFailed !in t.events
  {
    if moves != [] {
      var n := |moves| - 1;
      EventsConserve(initialCount, moves[..n]);
      SurplusIsEmptyWakes(initialCount, moves[..n]);
      var t := Exec(New(initialCount), moves[..n]);
      NoSurplusIsFine(t.m);
      StepEvent(t.m, moves[n]);
      var events := Exec(New(initialCount), moves).events;
      assert events[..|events| - 1] == t.events;
    }
  }

  /** A run without empty wakes conserves, whatever its signals carry. */
  lemma QuietRunConserves(initialCount: nat, moves: seq<Move>)
    requires EmptyWakes(initialCount, moves) == 0
    ensures Conserves(initialCount, moves)
  {
    SurplusIsEmptyWakes(initialCount, moves);
    NoSurplusIsFine(Exec(New(initialCount), moves).m);
    EventsConserve(initialCount, moves);
  }

  ghost predicate PendingEmpty(m: Sema) { m.s == SSignal(0) }

  lemma FullSignal(m: Sema, mv: Move)
    requires !PendingEmpty(m) && (mv.BySignaller? && mv.sm.Signal? ==> mv.sm.count >= 1)
    ensures !IsEmptyWake(m, mv) && !PendingEmpty(SemaStep(m, mv).m)
  {
  }

  lemma LastMove(initialCount: nat, moves: seq<Move>, mv: Move)
    ensures var m := Exec(New(initialCount), moves).m;
      && Exec(New(initialCount), moves + [mv]).m == SemaStep(m, mv).m
      && EmptyWakes(initialCount, moves + [mv]) == EmptyWakes(initialCount, moves) + if IsEmptyWake(m, mv) then 1 else 0
  {
    assert (moves + [mv])[..|moves|] == moves;
  }

  /** Signals of at least one add no empty wakes. */
  lemma {:induction false} NoMoreEmptyWakes(initialCount: nat, moves: seq<Move>, more: seq<Move>)
    requires SignalsAtLeast(more, 1) && !PendingEmpty(Exec(New(initialCount), moves).m)
    ensures EmptyWakes(initialCount, moves + more) == EmptyWakes(initialCount, moves)
    ensures !PendingEmpty(Exec(New(initialCount), moves + more).m)
  {
    if more == [] {
      assert moves + more == moves;
    } else {
      var n := |more| - 1;
      NoMoreEmptyWakes(initialCount, moves, more[..n]);
      FullSignal(Exec(New(initialCount), moves + more[..n]).m, more[n]);
      LastMove(initialCount, moves + more[..n], more[n]);
      assert moves + more == moves + more[..n] + [more[n]];
    }
  }

  // ----- with a surplus -----

  /** `m` is reached by `moves` and then `more`, which carries no empty signal. */
  ghost predicate Reached(initialCount: nat, moves: seq<Move>, more: seq<Move>, m: Sema) {
    SignalsAtLeast(more, 1) && Exec(New(initialCount), moves + more).m == m
  }

  lemma Then(initialCount: nat, moves: seq<Move>, more: seq<Move>, m: Sema, mv: Move) returns (more': seq<Move>, m': Sema)
    requires Reached(initialCount, moves, more, m) && (mv.BySignaller? ==> mv.sm.Continue?)
    ensures m' == SemaStep(m, mv).m && Reached(initialCount, moves, more', m')
  {
    more', m' := more + [mv], SemaStep(m, mv).m;
    LastMove(initialCount, moves + more, mv);
    assert moves + more' == moves + more + [mv];
  }

  /** Steps until the waiter is idle, if it only gives up when it may. */
  function Rank(w: Waiter): nat {
    match w
    case WIdle => 0
    case WTake => 1
    case WTryOs => 1
    case WRetry => 2
    case WRestore => 3
    case WSleep(_) => 4
    case WRegister(_) => 5
    case WSpin(spin, _) => 6 + spin
    case WTry(_, _) => 7 + SPIN_COUNT
  }

  /** All wake-ups are with the operating system, and a due one is among them. */
  ghost predicate Calm(m: Sema) {
    Sound(m) && !m.s.SPost? && m.os >= Due(m)
  }

  lemma CalmStep(m: Sema)
    requires Calm(m) && !m.w.WIdle?
    ensures var m' := WaiterStep(m, Go(false)).m;
      && Calm(m') && Rank(m'.w) < Rank(m.w) && m'.s == m.s && Surplus(m') == Surplus(m)
      && (Balance(m) >= 0 ==> Balance(m') >= 0)
  {
  }

  lemma {:induction false} LetItFinish(initialCount: nat, moves: seq<Move>, more: seq<Move>, m: Sema)
    returns (more': seq<Move>, m': Sema)
    requires Reached(initialCount, moves, more, m) && Calm(m) && Balance(m) >= 0
    ensures Reached(initialCount, moves, more', m') && Calm(m') && Balance(m') >= 0
    ensures m'.w == WIdle && m'.s == m.s && Surplus(m') == Surplus(m)
    decreases Rank(m.w)
  {
    more', m' := more, m;
    if !m.w.WIdle? {
      CalmStep(m);
      more', m' := Then(initialCount, moves, more, m, ByWaiter(Go(false)));
      more', m' := LetItFinish(initialCount, moves, more', m');
    }
  }

  /** Take what was signalled. */
  lemma {:induction false} TakeAll(initialCount: nat, moves: seq<Move>, more: seq<Move>, m: Sema)
    returns (more': seq<Move>, m': Sema)
    requires Reached(initialCount, moves, more, m) && Calm(m) && m.w == WIdle && m.count >= 0
    ensures Reached(initialCount, moves, more', m')
    ensures m' == m.(count := 0, wins := m.wins + m.count)
    decreases m.count
  {
    more', m' := more, m;
    if m.count > 0 {
      more', m' := Then(initialCount, moves, more, m, ByWaiter(TryWait));
      more', m' := Then(initialCount, moves, more', m', ByWaiter(Go(false)));
      more', m' := Then(initialCount, moves, more', m', ByWaiter(Go(false)));
      assert m' == m.(count := m.count - 1, wins := m.wins + 1);
      more', m' := TakeAll(initialCount, moves, more', m');
    }
  }

  lemma {:induction false} SpinDown(initialCount: nat, moves: seq<Move>, more: seq<Move>, m: Sema)
    returns (more': seq<Move>, m': Sema)
    requires Reached(initialCount, moves, more, m) && m.w.WSpin? && m.count == 0
    ensures Reached(initialCount, moves, more', m') && m' == m.(w := WSpin(0, m.w.timeout))
    decreases m.w.spin
  {
    more', m' := more, m;
    if m.w.spin > 0 {
      more', m' := Then(initialCount, moves, more, m, ByWaiter(Go(false)));
      more', m' := SpinDown(initialCount, moves, more', m');
    }
  }

  /** With nothing signalled, wait until asleep. */
  lemma FallAsleep(initialCount: nat, moves: seq<Move>, more: seq<Move>, m: Sema)
    returns (more': seq<Move>, m': Sema)
    requires Reached(initialCount, moves, more, m) && m.w == WIdle && m.count == 0
    ensures Reached(initialCount, moves, more', m') && m' == m.(count := -1, w := WSleep(-1))
  {
    more', m' := Then(initialCount, moves, more, m, ByWaiter(Wait(-1)));
    more', m' := Then(initialCount, moves, more', m', ByWaiter(Go(false)));
    more', m' := SpinDown(initialCount, moves, more', m');
    more', m' := Then(initialCount, moves, more', m', ByWaiter(Go(false)));
    more', m' := Then(initialCount, moves, more', m', ByWaiter(Go(false)));
  }

  /** The sleeper is woken by a token that nobody paid for. */
  lemma WakeForNothing(initialCount: nat, moves: seq<Move>, more: seq<Move>, m: Sema)
    returns (more': seq<Move>, m': Sema)
    requires Reached(initialCount, moves, more, m) && m.w == WSleep(-1) && m.count == -1
    requires m.os >= 1 || PendingEmpty(m)
    ensures Reached(initialCount, moves, more', m') && m'.wins == m.wins + 1 && m'.signals == m.signals
  {
    more', m' := more, m;
    if m.os == 0 {
      more', m' := Then(initialCount, moves, more', m', BySignaller(Continue));
      more', m' := Then(initialCount, moves, more', m', BySignaller(Continue));
    }
    more', m' := Then(initialCount, moves, more', m', ByWaiter(Go(true)));
  }

  /** The signaller finishes a wake-up it has begun. */
  lemma Flush(initialCount: nat, moves: seq<Move>, m: Sema) returns (more: seq<Move>, m': Sema)
    requires m == Exec(New(initialCount), moves).m && Sound(m) && Surplus(m) >= 0 && Balance(m) >= 0
    ensures Reached(initialCount, moves, more, m') && Calm(m') && Balance(m') >= 0 && Surplus(m') == Surplus(m)
    ensures PendingEmpty(m) ==> PendingEmpty(m')
  {
    assert moves + [] == moves;
    more, m' := [], m;
    if m.s.SPost? {
      more, m' := Then(initialCount, moves, more, m, BySignaller(Continue));
    }
  }

  /** After an empty wake, or during a `signal(0)`, some continuation has a wait too many. */
  lemma SomeContinuationBreaks(initialCount: nat, moves: seq<Move>) returns (more: seq<Move>)
    requires EmptyWakes(initialCount, moves) > 0 || PendingEmpty(Exec(New(initialCount), moves).m)
    ensures SignalsAtLeast(more, 1) && !Conserves(initialCount, moves + more)
  {
    SurplusIsEmptyWakes(initialCount, moves);
    var m := Exec(New(initialCount), moves).m;
    if Balance(m) < 0 {
      more := [];
      assert moves + more == moves;
    } else {
      more, m := Flush(initialCount, moves, m);
      more, m := LetItFinish(initialCount, moves, more, m);
      more, m := TakeAll(initialCount, moves, more, m);
      more, m := FallAsleep(initialCount, moves, more, m);
      more, m := WakeForNothing(initialCount, moves, more, m);
    }
  }

  /** From any point of any run on, the semaphore conserves in all continuations whose signals
      carry at least one, if and only if no `signal(0)` has met a sleeper so far and none is
      under way. */
  lemma ConservesFromHereExactlyWhen(initialCount: nat, moves: seq<Move>)
    ensures (forall more: seq<Move> | SignalsAtLeast(more, 1) :: Conserves(initialCount, moves + more))
      <==> EmptyWakes(initialCount, moves) == 0 && !PendingEmpty(Exec(New(initialCount), moves).m)
  {
    if EmptyWakes(initialCount, moves) == 0 && !PendingEmpty(Exec(New(initialCount), moves).m) {
      forall more: seq<Move> | SignalsAtLeast(more, 1)
        ensures Conserves(initialCount, moves + more)
      {
        NoMoreEmptyWakes(initialCount, moves, more);
        QuietRunConserves(initialCount, moves + more);
      }
    } else {
      var more := SomeContinuationBreaks(initialCount, moves);
    }
  }
}
