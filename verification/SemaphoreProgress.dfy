/** The semaphore gives what it has: a wait gives up only if nothing is there, a wait succeeds if
    something is, and a signal returns. */
module SemaphoreProgress {
  import opened Semaphore

  // ----- giving up -----

  lemma {:induction false} EventAt(m: Sema, moves: seq<Move>, i: nat)
    requires i < |moves|
    ensures |Exec(m, moves).events| == |moves|
    ensures Exec(m, moves).events[i] == SemaStep(Exec(m, moves[..i]).m, moves[i]).ev
  {
    var n := |moves| - 1;
    ExecLast(m, moves[..n], moves[n]);
    assert moves == moves[..n] + [moves[n]];
    if i < n {
      EventAt(m, moves[..n], i);
      assert moves[..n][..i] == moves[..i];
    } else if n > 0 {
      EventAt(m, moves[..n], 0);
    }
  }

  lemma SignalsPrefix(moves: seq<Move>, i: nat, n: nat)
    requires SignalsAtLeast(moves, n) && i <= |moves|
    ensures SignalsAtLeast(moves[..i], n)
  {
    forall j | 0 <= j < i && moves[..i][j].BySignaller? && moves[..i][j].sm.Signal?
      ensures moves[..i][j].sm.count >= n
    {
      assert moves[..i][j] == moves[j];
    }
  }

  /** In every interleaving a wait, timed or not, gives up only at an instant at which everything
      that was ever signalled has been taken. */
  lemma GivesUpOnlyIfNone(initialCount: nat, moves: seq<Move>, i: nat)
    requires SignalsAtLeast(moves, 1) && i < |moves|
    ensures |Exec(New(initialCount), moves).events| == |moves|
    ensures Exec(New(initialCount), moves).events[i] == GaveUp ==>
      var m := Exec(New(initialCount), moves[..i]).m; m.signals == m.wins
  {
    EventAt(New(initialCount), moves, i);
    SignalsPrefix(moves, i, 1);
    RunKeeps(initialCount, moves[..i]);
    NoneLeft(Exec(New(initialCount), moves[..i]).m, moves[i]);
  }

  lemma NoneLeft(m: Sema, mv: Move)
    requires Inv(m)
    ensures SemaStep(m, mv).ev == GaveUp ==> m.signals == m.wins
  {
  }

  // ----- succeeding -----

  /** How many steps the waiter has left at most, if there is something to take. */
  function WaiterLeft(w: Waiter): nat {
    match w
    case WIdle => 0
    case WTake => 1
    case WTryOs => 1
    case WRegister(_) => 1
    case WTry(_, _) => 3
    case WSpin(_, _) => 2
    case WRetry => 2
    case WRestore => 3
    case WSleep(_) => 4
  }

  lemma WaiterAdvances(m: Sema)
    requires Inv(m) && m.s.SIdle? && m.signals > m.wins && !m.w.WIdle?
    ensures var r := WaiterStep(m, Go(true));
      r.ev == Won
      || (Inv(r.m) && r.m.s.SIdle? && r.m.signals == m.signals && r.m.wins == m.wins
          && !r.m.w.WIdle? && WaiterLeft(r.m.w) < WaiterLeft(m.w))
  {
    StepKeeps(m, ByWaiter(Go(true)));
  }

  ghost predicate AllWaits(moves: seq<Move>) { forall i :: 0 <= i < |moves| ==> moves[i] == ByWaiter(Go(true)) }

  lemma {:induction false} ExecFirst(m: Sema, mv: Move, rest: seq<Move>)
    ensures var s := SemaStep(m, mv);
      Exec(m, [mv] + rest) == Trace(Exec(s.m, rest).m, [s.ev] + Exec(s.m, rest).events)
  {
    if rest == [] {
      assert [mv] + rest == [mv] && [mv][..0] == [];
    } else {
      var n := |rest| - 1;
      ExecFirst(m, mv, rest[..n]);
      ExecLast(m, [mv] + rest[..n], rest[n]);
      ExecLast(SemaStep(m, mv).m, rest[..n], rest[n]);
      assert [mv] + rest == [mv] + rest[..n] + [rest[n]] && rest == rest[..n] + [rest[n]];
    }
  }

  lemma ExecLast(m: Sema, moves: seq<Move>, mv: Move)
    ensures var t := Exec(m, moves); var s := SemaStep(t.m, mv); Exec(m, moves + [mv]) == Trace(s.m, t.events + [s.ev])
  {
    assert (moves + [mv])[..|moves|] == moves;
  }

  /** From every point inside a wait, of either kind and with any timeout, the waiter wins within
      four steps of its own if more was signalled than taken and no signal is under way. */
  lemma {:induction false} WaitSucceeds(m: Sema) returns (moves: seq<Move>)
    requires Inv(m) && m.s.SIdle? && m.signals > m.wins && !m.w.WIdle?
    ensures AllWaits(moves) && 1 <= |moves| <= WaiterLeft(m.w) <= 4
    ensures var t := Exec(m, moves); |t.events| == |moves| && t.events[|moves| - 1] == Won && t.m.wins == m.wins + 1
    decreases WaiterLeft(m.w)
  {
    var mv := ByWaiter(Go(true));
    WaiterAdvances(m);
    StepKeeps(m, mv);
    var r := SemaStep(m, mv);
    var rest: seq<Move> := [];
    if r.ev != Won {
      rest := WaitSucceeds(r.m);
    }
    moves := [mv] + rest;
    ExecFirst(m, mv, rest);
  }

  /** A signal returns after two steps at most, with everything it carries added; if the waiter
      was asleep, it is woken. */
  lemma SignalReturns(m: Sema)
    requires Inv(m) && m.s.SSignal?
    ensures var m1 := SignallerStep(m, Continue).m;
      var m2 := SignallerStep(m1, Continue).m;
      && m2.s.SIdle? && m2.signals == m.signals + m.s.count && m2.w == m.w && m2.wins == m.wins
      && m2.os == m.os + (if m.count < 0 then 1 else 0) && m2.count == m.count + m.s.count
  {
  }
}
