/** The SPSC `LightweightSemaphore`: an atomic count that goes to -1 while the one waiter
    sleeps on an operating-system semaphore.  One step is one atomic access or one
    operating-system call, under sequential consistency. */
module Semaphore {

  /** The waiting thread, in `tryWait` and `waitWithPartialSpinning`.  A negative `timeout`
      waits for ever; `spin` counts the remaining iterations of the spin loop. */
  datatype Waiter =
    | WIdle
    | WTry(blocking: bool, timeout: int)
    | WTake
    | WSpin(spin: nat, timeout: int)
    | WRegister(timeout: int)
    | WSleep(timeout: int)
    | WRestore
    | WRetry
    | WTryOs

  datatype Signaller = SIdle | SSignal(count: nat) | SPost

  /** `signals` and `wins` are history variables: the initial count plus all counts
      signalled, and the waits that returned true. */
  datatype Sema = Sema(count: int, os: nat, w: Waiter, s: Signaller, signals: nat, wins: nat)

  datatype Event = Quiet | Won | GaveUp | AssertFailed

  datatype Step = Step(m: Sema, ev: Event)

  /** `woken`: the operating system's wait returned success, which takes a token. */
  datatype WaiterMove = TryWait | Wait(timeout: int) | Go(woken: bool)
  datatype SignallerMove = Signal(count: nat) | Continue
  datatype Move = ByWaiter(wm: WaiterMove) | BySignaller(sm: SignallerMove)

  const SPIN_COUNT: nat := 1024

  function Win(m: Sema): Step { Step(m.(w := WIdle, wins := m.wins + 1), Won) }

  function WaiterStep(m: Sema, mv: WaiterMove): Step {
    match m.w
    case WIdle =>
      (match mv
       case TryWait => Step(m.(w := WTry(false, 0)), Quiet)
       case Wait(timeout) => Step(m.(w := WTry(true, timeout)), Quiet)
       case Go(_) => Step(m, Quiet))
    case WTry(blocking, timeout) =>
      if m.count > 0 then Step(m.(w := WTake), Quiet)
      else if blocking then Step(m.(w := WSpin(SPIN_COUNT, timeout)), Quiet)
      else Step(m.(w := WIdle), GaveUp)
    case WTake => Win(m.(count := m.count - 1))
    case WSpin(spin, timeout) =>
      if spin == 0 then Step(m.(w := WRegister(timeout)), Quiet)
      else if m.count > 0 then Step(m.(w := WTake), Quiet)
      else Step(m.(w := WSpin(spin - 1, timeout)), Quiet)
    case WRegister(timeout) =>
      var m' := m.(count := m.count - 1);
      if m.count > 0 then Win(m') else Step(m'.(w := WSleep(timeout)), Quiet)
    case WSleep(timeout) =>
      if timeout == 0 then Step(m.(w := WRestore), Quiet)
      else if mv.Go? && mv.woken then
        if m.os > 0 then Win(m.(os := m.os - 1)) else Step(m, Quiet)
      else Step(m.(w := WRestore), Quiet)
    case WRestore =>
      var m' := m.(count := m.count + 1);
      if m.count < 0 then Step(m'.(w := WIdle), GaveUp) else Step(m'.(w := WRetry), Quiet)
    case WRetry =>
      var m' := m.(count := m.count - 1);
      Step(m'.(w := if m.count > 0 then WTryOs else WRestore), Quiet)
    case WTryOs =>
      if m.os > 0 then Win(m.(os := m.os - 1)) else Step(m.(w := WRestore), Quiet)
  }

  function SignallerStep(m: Sema, mv: SignallerMove): Step {
    match m.s
    case SIdle => Step(if mv.Signal? then m.(s := SSignal(mv.count)) else m, Quiet)
    case SSignal(n) =>
      var m' := m.(count := m.count + n, signals := m.signals + n);
      if m.count < -1 then Step(m, AssertFailed)
      else Step(m'.(s := if m.count < 0 then SPost else SIdle), Quiet)
    case SPost => Step(m.(os := m.os + 1, s := SIdle), Quiet)
  }

  function SemaStep(m: Sema, mv: Move): Step {
    match mv
    case ByWaiter(wm) => WaiterStep(m, wm)
    case BySignaller(sm) => SignallerStep(m, sm)
  }

  function New(initialCount: nat): Sema { Sema(initialCount, 0, WIdle, SIdle, initialCount, 0) }

  datatype Trace = Trace(m: Sema, events: seq<Event>)

  function Exec(m: Sema, moves: seq<Move>): Trace {
    if moves == [] then Trace(m, [])
    else
      var t := Exec(m, moves[..|moves| - 1]);
      var s := SemaStep(t.m, moves[|moves| - 1]);
      Trace(s.m, t.events + [s.ev])
  }

  // ----- invariant -----

  /** The waiter has decremented the count for a wait that is still undecided. */
  function Debt(w: Waiter): nat {
    if w.WSleep? || w.WRestore? || w.WTryOs? then 1 else 0
  }

  /** Wake-ups issued or about to be issued and not consumed yet. */
  function Tokens(m: Sema): nat {
    m.os + if m.s.SPost? then 1 else 0
  }

  ghost predicate Inv(m: Sema) {
    && m.count == m.signals - m.wins - Debt(m.w)
    && m.count + Debt(m.w) >= 0
    && (m.w.WTake? || m.w.WRetry? ==> m.count >= 1)
    && (m.w.WTryOs? ==> m.count >= 0)
    && Tokens(m) == (if m.w.WRetry? || (Debt(m.w) == 1 && m.count >= 0) then 1 else 0)
    && (m.s.SSignal? ==> m.s.count >= 1)
  }

  lemma StepKeeps(m: Sema, mv: Move)
    requires Inv(m) && (mv.BySignaller? && mv.sm.Signal? ==> mv.sm.count >= 1)
    ensures var s := SemaStep(m, mv);
            && Inv(s.m) && s.ev != AssertFailed
            && (s.ev == Won ==> s.m.wins == m.wins + 1) && (s.ev != Won ==> s.m.wins == m.wins)
  {
  }

  /** Every signal in the run carries at least `n`. */
  ghost predicate SignalsAtLeast(moves: seq<Move>, n: nat) {
    forall i :: 0 <= i < |moves| && moves[i].BySignaller? && moves[i].sm.Signal? ==> moves[i].sm.count >= n
  }

  function Wins(events: seq<Event>): nat {
    if events == [] then 0
    else Wins(events[..|events| - 1]) + if events[|events| - 1] == Won then 1 else 0
  }

  /** Conservation: never more successful waits than signals, the count is at least -1 (which
      is what `signal` asserts), and when no call is in progress the count is exactly what
      is left, so a wait that gave up has consumed nothing. */
  ghost predicate Conserves(initialCount: nat, moves: seq<Move>) {
    var t := Exec(New(initialCount), moves);
    && Wins(t.events) == t.m.wins <= t.m.signals
    && t.m.count >= -1
    && (t.m.w.WIdle? ==> t.m.count == t.m.signals - t.m.wins)
    && AssertFailed !in t.events
  }

  lemma {:induction false} RunKeeps(initialCount: nat, moves: seq<Move>)
    requires SignalsAtLeast(moves, 1)
    ensures var t := Exec(New(initialCount), moves);
            Inv(t.m) && Wins(t.events) == t.m.wins && AssertFailed !in t.events
  {
    if moves != [] {
      var n := |moves| - 1;
      RunKeeps(initialCount, moves[..n]);
      var t := Exec(New(initialCount), moves[..n]);
      StepKeeps(t.m, moves[n]);
      var events := Exec(New(initialCount), moves).events;
      assert events[..|events| - 1] == t.events;
    }
  }

  /** In every interleaving of the waiter and the signaller, with any timeouts. */
  lemma SemaphoreConserves(initialCount: nat, moves: seq<Move>)
    requires SignalsAtLeast(moves, 1)
    ensures Conserves(initialCount, moves)
  {
    RunKeeps(initialCount, moves);
  }

  // ----- signal(0) -----

  /** The state after some moves, first move first. */
  ghost function Play(m: Sema, moves: seq<Move>): Sema
    decreases |moves|
  {
    if moves == [] then m else Play(SemaStep(m, moves[0]).m, moves[1..])
  }

  lemma {:induction false} PlayLast(m: Sema, moves: seq<Move>, mv: Move)
    ensures Play(m, moves + [mv]) == SemaStep(Play(m, moves), mv).m
    decreases |moves|
  {
    if moves != [] {
      PlayLast(SemaStep(m, moves[0]).m, moves[1..], mv);
      assert (moves + [mv])[1..] == moves[1..] + [mv];
    } else {
      assert [mv][1..] == [];
      assert Play(m, [mv]) == Play(SemaStep(m, mv).m, []);
    }
  }

  lemma {:induction false} PlayIsExec(m: Sema, moves: seq<Move>)
    ensures Play(m, moves) == Exec(m, moves).m
  {
    if moves != [] {
      var n := |moves| - 1;
      PlayIsExec(m, moves[..n]);
      PlayLast(m, moves[..n], moves[n]);
      assert moves[..n] + [moves[n]] == moves;
    }
  }

  function WakeMoves(): seq<Move> {
    [BySignaller(Continue)] + ([BySignaller(Continue)] + ([ByWaiter(Go(true))] + []))
  }

  /** A wait of which the spin loop runs out, followed by `signal(0)`. */
  function SpinMoves(spin: nat): seq<Move> {
    if spin == 0 then [ByWaiter(Go(false))] + ([ByWaiter(Go(false))] + ([BySignaller(Signal(0))] + WakeMoves()))
    else [ByWaiter(Go(false))] + SpinMoves(spin - 1)
  }

  lemma PlayFirst(m: Sema, mv: Move, rest: seq<Move>)
    ensures Play(m, [mv] + rest) == Play(SemaStep(m, mv).m, rest)
  {
    assert ([mv] + rest)[1..] == rest;
  }

  lemma SleepAndWake(m: Sema)
    requires m == New(0).(w := WSpin(0, -1))
    ensures Play(m, SpinMoves(0)) == Sema(-1, 0, WIdle, SIdle, 0, 1)
  {
    var go, signal := ByWaiter(Go(false)), [BySignaller(Signal(0))] + WakeMoves();
    var asleep := Sema(-1, 0, WSleep(-1), SIdle, 0, 0);
    calc {
      Play(m, [go] + ([go] + signal));
    == { PlayFirst(m, go, [go] + signal); assert SemaStep(m, go).m == m.(w := WRegister(-1)); }
      Play(m.(w := WRegister(-1)), [go] + signal);
    == { PlayFirst(m.(w := WRegister(-1)), go, signal); assert SemaStep(m.(w := WRegister(-1)), go).m == asleep; }
      Play(asleep, signal);
    == { PlayFirst(asleep, BySignaller(Signal(0)), WakeMoves()); }
      Play(asleep.(s := SSignal(0)), WakeMoves());
    == { WakeUp(asleep); }
      asleep.(w := WIdle, wins := 1);
    }
  }

  lemma WakeUp(asleep: Sema)
    requires asleep == Sema(-1, 0, WSleep(-1), SIdle, 0, 0)
    ensures Play(asleep.(s := SSignal(0)), WakeMoves()) == asleep.(w := WIdle, wins := 1)
  {
    var last := [ByWaiter(Go(true))] + [];
    PlayFirst(asleep.(s := SSignal(0)), BySignaller(Continue), [BySignaller(Continue)] + last);
    PlayFirst(asleep.(s := SPost), BySignaller(Continue), last);
    PlayFirst(asleep.(os := 1), ByWaiter(Go(true)), []);
  }

  lemma {:induction false} SpinOut(spin: nat)
    ensures Play(New(0).(w := WSpin(spin, -1)), SpinMoves(spin)) == Sema(-1, 0, WIdle, SIdle, 0, 1)
  {
    if spin > 0 {
      SpinOut(spin - 1);
      assert SpinMoves(spin)[1..] == SpinMoves(spin - 1);
    } else {
      SleepAndWake(New(0).(w := WSpin(0, -1)));
    }
  }

  /** `signal(0)` wakes a sleeping waiter although nothing was signalled: the wait then
      succeeds without a signal. */
  lemma EmptySignalBreaks(moves: seq<Move>)
    requires moves == [ByWaiter(Wait(-1)), ByWaiter(Go(false))] + SpinMoves(SPIN_COUNT)
    ensures SignalsAtLeast(moves, 0) && !Conserves(0, moves)
  {
    SpinOut(SPIN_COUNT);
    PlayIsExec(New(0), moves);
    assert moves[1..][1..] == SpinMoves(SPIN_COUNT);
  }

  /** `signal` asserts only `count >= 0`; the semaphore conserves exactly if every signal
      carries at least one. */
  lemma ConservesExactlyWhen(least: nat)
    ensures (forall initialCount: nat, moves: seq<Move> | SignalsAtLeast(moves, least) :: Conserves(initialCount, moves))
            <==> least >= 1
  {
    if least >= 1 {
      forall initialCount: nat, moves: seq<Move> | SignalsAtLeast(moves, least)
        ensures Conserves(initialCount, moves)
      {
        SemaphoreConserves(initialCount, moves);
      }
    } else {
      EmptySignalBreaks([ByWaiter(Wait(-1)), ByWaiter(Go(false))] + SpinMoves(SPIN_COUNT));
    }
  }
}
