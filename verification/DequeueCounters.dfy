/** The index counters of one `ConcurrentQueue` producer, with any number of dequeuing
    threads.  A dequeuer first bumps an optimistic count, then compares it, less an overcommit
    count it read earlier, with the tail; if it loses it pays back by bumping the overcommit.
    All counters are 64-bit words that wrap.  One step is one atomic access. */
module DequeueCounters {

  const WORD: nat := 0x1_0000_0000_0000_0000
  const HALF: nat := 0x8000_0000_0000_0000

  function Sub(a: nat, b: nat): nat { (a - b) % WORD }

  function Bump(a: nat): nat { (a + 1) % WORD }

  predicate CircularLess(a: nat, b: nat) { Sub(a, b) > HALF }

  /** A thread inside `dequeue`, before the named access; the fields are its locals. */
  datatype Thread =
    | Idle
    | LoadOvercommit(tail: nat)
    | LoadOptimistic(tail: nat, overcommit: nat)
    | TakeCount(overcommit: nat)
    | ReloadTail(my: nat, overcommit: nat)
    | TakeIndex
    | PayBack

  /** `paid[t]` is a history variable: how many paybacks there were since thread `t` read the
      overcommit. */
  datatype State = State(tail: nat, head: nat, optimistic: nat, overcommit: nat, threads: seq<Thread>, paid: seq<nat>)

  datatype Event = Quiet | Enqueued | Took(index: nat) | Failed

  datatype Step = Step(s: State, ev: Event)

  datatype Turn = Enqueue | Go(t: nat)

  function Now(s: State, t: nat, pc: Thread): State
    requires t < |s.threads|
  {
    s.(threads := s.threads[t := pc])
  }

  function OneMorePaid(paid: seq<nat>): (r: seq<nat>)
    ensures |r| == |paid|
  {
    seq(|paid|, i requires 0 <= i < |paid| => paid[i] + 1)
  }

  function ThreadStep(s: State, t: nat): Step
    requires t < |s.threads| == |s.paid|
  {
    match s.threads[t]
    case Idle => Step(Now(s, t, LoadOvercommit(s.tail)), Quiet)
    case LoadOvercommit(tail) =>
      Step(Now(s, t, LoadOptimistic(tail, s.overcommit)).(paid := s.paid[t := 0]), Quiet)
    case LoadOptimistic(tail, overcommit) =>
      if CircularLess(Sub(s.optimistic, overcommit), tail) then Step(Now(s, t, TakeCount(overcommit)), Quiet)
      else Step(Now(s, t, Idle), Failed)
    case TakeCount(overcommit) =>
      Step(Now(s, t, ReloadTail(s.optimistic, overcommit)).(optimistic := Bump(s.optimistic)), Quiet)
    case ReloadTail(my, overcommit) =>
      if CircularLess(Sub(my, overcommit), s.tail) then Step(Now(s, t, TakeIndex), Quiet)
      else Step(Now(s, t, PayBack), Quiet)
    case TakeIndex => Step(Now(s, t, Idle).(head := Bump(s.head)), Took(s.head))
    case PayBack => Step(Now(s, t, Idle).(overcommit := Bump(s.overcommit), paid := OneMorePaid(s.paid)), Failed)
  }

  function CounterStep(s: State, turn: Turn): Step
    requires turn.Go? ==> turn.t < |s.threads| == |s.paid|
  {
    match turn
    case Enqueue => Step(s.(tail := Bump(s.tail)), Enqueued)
    case Go(t) => ThreadStep(s, t)
  }

  // ----- words against true counts -----

  lemma Unwrapped(d: int, q: int, r: nat)
    requires d == q * WORD + r && r < WORD
    ensures d % WORD == r
  {
  }

  lemma WordBump(a: nat)
    ensures Bump(a % WORD) == (a + 1) % WORD
  {
  }

  lemma WordSub(a: nat, b: nat)
    ensures Sub(a % WORD, b % WORD) == (a - b) % WORD
  {
    ModDifference(a, b);
  }

  /** What the circular comparison decides about the true counts: whether the second is ahead
      of the first by 1 to 2^63 - 1, modulo 2^64. */
  lemma CircularLessMeans(a: nat, b: nat)
    ensures CircularLess(a % WORD, b % WORD) <==> 0 < (b - a) % WORD < HALF
  {
    WordSub(a, b);
    var x := (a - b) % WORD;
    var q := (a - b) / WORD;
    if x == 0 {
      Unwrapped(b - a, -q, 0);
    } else {
      Unwrapped(b - a, -q - 1, WORD - x);
    }
  }

  lemma ModDifference(b: nat, a: nat)
    ensures (b - a) % WORD == (b % WORD - a % WORD) % WORD
  {
    var q := b / WORD - a / WORD;
    var x := b % WORD - a % WORD;
    assert b - a == q * WORD + x;
    if x < 0 {
      Unwrapped(b - a, q - 1, x + WORD);
    } else {
      Unwrapped(b - a, q, x);
    }
  }

  /** Within the window the circular comparison is the comparison of the true counts. */
  lemma CircularLessIsLess(a: nat, b: nat)
    requires a <= b + HALF && b < a + HALF
    ensures CircularLess(a % WORD, b % WORD) <==> a < b
  {
    CircularLessMeans(a, b);
  }

  /** However far the tail runs ahead, the comparison never claims an element too many. */
  lemma CircularLessIsSafe(a: nat, b: nat)
    requires a <= b + HALF && CircularLess(a % WORD, b % WORD)
    ensures a < b
  {
    CircularLessMeans(a, b);
  }

  // ----- what became of each optimistic count -----

  /** The fate of the dequeue that drew a given optimistic count: undecided, entitled to an
      index, about to pay back, paid back. */
  datatype Fate = Open | Won | Lost | Settled

  function Count(log: seq<Fate>, f: Fate): nat {
    if log == [] then 0 else Count(log[..|log| - 1], f) + if log[|log| - 1] == f then 1 else 0
  }

  function AtPc(pc: Thread, f: Fate): nat {
    match f
    case Open => if pc.ReloadTail? then 1 else 0
    case Won => if pc.TakeIndex? then 1 else 0
    case Lost => if pc.PayBack? then 1 else 0
    case Settled => 0
  }

  function Threads(threads: seq<Thread>, f: Fate): nat {
    if threads == [] then 0 else AtPc(threads[0], f) + Threads(threads[1..], f)
  }

  lemma {:induction false} ThreadsUpdate(threads: seq<Thread>, t: nat, pc: Thread, f: Fate)
    requires t < |threads|
    ensures Threads(threads[t := pc], f) == Threads(threads, f) - AtPc(threads[t], f) + AtPc(pc, f)
    ensures Threads(threads, f) >= AtPc(threads[t], f)
  {
    if t == 0 {
      assert threads[t := pc][1..] == threads[1..];
    } else {
      ThreadsUpdate(threads[1..], t - 1, pc, f);
      assert threads[t := pc][1..] == threads[1..][t - 1 := pc];
    }
  }

  lemma {:induction false} CountUpdate(log: seq<Fate>, i: nat, x: Fate, f: Fate)
    requires i < |log|
    ensures Count(log[i := x], f)
            == Count(log, f) - (if log[i] == f then 1 else 0) + (if x == f then 1 else 0)
  {
    var n := |log| - 1;
    if i == n {
      assert log[i := x][..n] == log[..n];
    } else {
      CountUpdate(log[..n], i, x, f);
      assert log[i := x][..n] == log[..n][i := x];
    }
  }

  lemma {:induction false} CountSplits(log: seq<Fate>)
    ensures Count(log, Open) + Count(log, Won) + Count(log, Lost) + Count(log, Settled) == |log|
  {
    if log != [] {
      CountSplits(log[..|log| - 1]);
    }
  }

  lemma CountAppend(log: seq<Fate>, x: Fate, f: Fate)
    ensures Count(log + [x], f) == Count(log, f) + if x == f then 1 else 0
  {
    assert (log + [x])[..|log|] == log;
  }

  /** A fate changes; the settled fates before any point do not become fewer. */
  lemma SettledBefore(log: seq<Fate>, i: nat, x: Fate, j: nat)
    requires i < |log| && j <= |log| && log[i] != Settled
    ensures Count(log[i := x][..j], Settled) >= Count(log[..j], Settled)
  {
    if i < j {
      assert log[i := x][..j] == log[..j][i := x];
      CountUpdate(log[..j], i, x, Settled);
    } else {
      assert log[i := x][..j] == log[..j];
    }
  }

  // ----- invariant -----

  /** The true counts: `tail` elements enqueued, `head` indices taken, `|log|` counts drawn;
      thread `t` drew count `mine[t]` and read `saw[t]` paybacks. */
  datatype Shadow = Shadow(tail: nat, head: nat, log: seq<Fate>, mine: seq<nat>, saw: seq<nat>)

  /** A winner's count, less the paybacks of earlier counts, is covered by the tail. */
  ghost predicate Covered(g: Shadow, i: nat)
    requires i < |g.log|
  {
    i + 1 - Count(g.log[..i], Settled) <= g.tail
  }

  ghost predicate Fresh(s: State, g: Shadow, t: nat)
    requires t < |s.paid| && t < |g.saw|
  {
    g.saw[t] + s.paid[t] == Count(g.log, Settled)
  }

  ghost predicate Drawn(g: Shadow, t: nat, f: Fate)
    requires t < |g.mine|
  {
    g.mine[t] < |g.log| && g.log[g.mine[t]] == f
  }

  ghost predicate ThreadOk(s: State, g: Shadow, t: nat)
    requires t < |s.threads| && t < |s.paid| && t < |g.mine| && t < |g.saw|
  {
    match s.threads[t]
    case LoadOptimistic(_, overcommit) => overcommit == g.saw[t] % WORD && Fresh(s, g, t)
    case TakeCount(overcommit) => overcommit == g.saw[t] % WORD && Fresh(s, g, t)
    case ReloadTail(my, overcommit) =>
      && Drawn(g, t, Open) && my == g.mine[t] % WORD && overcommit == g.saw[t] % WORD
      && g.saw[t] <= Count(g.log[..g.mine[t]], Settled)
      && g.mine[t] - g.saw[t] <= g.tail + HALF
    case PayBack => Drawn(g, t, Lost)
    case _ => true
  }

  ghost predicate Holding(s: State, t: nat)
    requires t < |s.threads|
  {
    s.threads[t].ReloadTail? || s.threads[t].PayBack?
  }

  ghost predicate CountsOk(s: State, g: Shadow) {
    && s.tail == g.tail % WORD && s.head == g.head % WORD
    && s.optimistic == |g.log| % WORD && s.overcommit == Count(g.log, Settled) % WORD
    && Count(g.log, Won) == g.head + Threads(s.threads, Won)
    && Count(g.log, Open) == Threads(s.threads, Open)
    && Count(g.log, Lost) == Threads(s.threads, Lost)
  }

  ghost predicate Inv(s: State, g: Shadow) {
    && |s.paid| == |s.threads| && |g.mine| == |s.threads| && |g.saw| == |s.threads|
    && CountsOk(s, g)
    && (forall i :: 0 <= i < |g.log| && g.log[i] == Won ==> Covered(g, i))
    && (forall t :: 0 <= t < |s.threads| ==> ThreadOk(s, g, t))
    && (forall t, u :: 0 <= t < u < |s.threads| && Holding(s, t) && Holding(s, u) ==> g.mine[t] != g.mine[u])
  }

  /** There are never more winners than elements. */
  lemma {:induction false} WinnersCovered(g: Shadow, n: nat)
    requires n <= |g.log|
    requires forall i :: 0 <= i < |g.log| && g.log[i] == Won ==> Covered(g, i)
    ensures Count(g.log[..n], Won) <= g.tail
  {
    if n > 0 {
      assert g.log[..n][..n - 1] == g.log[..n - 1];
      if g.log[n - 1] == Won {
        assert Covered(g, n - 1);
        CountSplits(g.log[..n - 1]);
      } else {
        WinnersCovered(g, n - 1);
      }
    }
  }

  lemma HeadBehindTail(s: State, g: Shadow)
    requires Inv(s, g)
    ensures g.head + Threads(s.threads, Won) <= g.tail
  {
    assert g.log[..|g.log|] == g.log;
    WinnersCovered(g, |g.log|);
  }

  ghost function After(s: State, g: Shadow, turn: Turn): Shadow
    requires Inv(s, g) && (turn.Go? ==> turn.t < |s.threads|)
  {
    match turn
    case Enqueue => g.(tail := g.tail + 1)
    case Go(t) =>
      assert ThreadOk(s, g, t);
      match s.threads[t]
      case LoadOvercommit(_) => g.(saw := g.saw[t := Count(g.log, Settled)])
      case TakeCount(_) => g.(log := g.log + [Open], mine := g.mine[t := |g.log|])
      case ReloadTail(my, overcommit) =>
        g.(log := g.log[g.mine[t] := if CircularLess(Sub(my, overcommit), s.tail) then Won else Lost])
      case TakeIndex => g.(head := g.head + 1)
      case PayBack => g.(log := g.log[g.mine[t] := Settled])
      case _ => g
  }

  /** The dequeues that have drawn a count and neither won nor paid back yet. */
  function InFlight(s: State): nat { Threads(s.threads, Open) + Threads(s.threads, Lost) }

  /** When a thread draws a count: how many dequeues have paid back since it read the overcommit
      or are in flight. */
  function Lag(s: State, turn: Turn): nat
    requires turn.Go? ==> turn.t < |s.threads| == |s.paid|
  {
    if turn.Go? && s.threads[turn.t].TakeCount? then s.paid[turn.t] + InFlight(s) else 0
  }

  ghost predicate Within(s: State, turn: Turn, window: nat) {
    (turn.Go? ==> turn.t < |s.threads| == |s.paid|) && Lag(s, turn) <= window
  }

  /** A thread that draws is not itself in flight: it is enough to bound the paybacks since its
      read, less one for each other thread. */
  lemma PaybacksBound(s: State, t: nat, window: nat)
    requires t < |s.threads| == |s.paid| && s.paid[t] + |s.threads| <= window + 1
    ensures Within(s, Go(t), window)
  {
    if s.threads[t].TakeCount? {
      OthersInFlight(s.threads, t);
    }
  }

  lemma {:induction false} OthersInFlight(threads: seq<Thread>, t: nat)
    requires t < |threads| ==> threads[t].TakeCount?
    ensures Threads(threads, Open) + Threads(threads, Lost) + (if t < |threads| then 1 else 0) <= |threads|
  {
    if threads != [] {
      OthersInFlight(threads[1..], if t == 0 then |threads| else t - 1);
    }
  }

  // ----- each step keeps the invariant -----

  lemma EnqueueKeeps(s: State, g: Shadow)
    requires Inv(s, g)
    ensures Inv(CounterStep(s, Enqueue).s, After(s, g, Enqueue))
  {
    var s', g' := CounterStep(s, Enqueue).s, After(s, g, Enqueue);
    WordBump(g.tail);
    forall i | 0 <= i < |g.log| && g.log[i] == Won ensures Covered(g', i) { assert Covered(g, i); }
    forall t | 0 <= t < |s.threads| ensures ThreadOk(s', g', t) { assert ThreadOk(s, g, t); }
    forall t, u | 0 <= t < u < |s.threads| && Holding(s', t) && Holding(s', u)
      ensures g'.mine[t] != g'.mine[u]
    {
      assert Holding(s, t) && Holding(s, u);
    }
  }

  lemma ThreadsMove(s: State, t: nat, pc: Thread)
    requires t < |s.threads|
    ensures Threads(s.threads[t := pc], Open) == Threads(s.threads, Open) - AtPc(s.threads[t], Open) + AtPc(pc, Open)
    ensures Threads(s.threads[t := pc], Won) == Threads(s.threads, Won) - AtPc(s.threads[t], Won) + AtPc(pc, Won)
    ensures Threads(s.threads[t := pc], Lost) == Threads(s.threads, Lost) - AtPc(s.threads[t], Lost) + AtPc(pc, Lost)
  {
    ThreadsUpdate(s.threads, t, pc, Open);
    ThreadsUpdate(s.threads, t, pc, Won);
    ThreadsUpdate(s.threads, t, pc, Lost);
  }

  /** A step that leaves the fates as they are. */
  lemma SameFates(s: State, g: Shadow, t: nat, s': State, g': Shadow)
    requires Inv(s, g) && t < |s.threads| && !Holding(s, t)
    requires |s'.threads| == |s.threads| && s'.threads == s.threads[t := s'.threads[t]] && !Holding(s', t)
    requires |s'.paid| == |s.paid| && s'.paid == s.paid[t := s'.paid[t]]
    requires |g'.saw| == |g.saw| && g'.saw == g.saw[t := g'.saw[t]]
    requires g'.tail == g.tail && g'.log == g.log && g'.mine == g.mine
    requires CountsOk(s', g') && ThreadOk(s', g', t)
    ensures Inv(s', g')
  {
    forall i | 0 <= i < |g.log| && g.log[i] == Won ensures Covered(g', i) { assert Covered(g, i); }
    forall u | 0 <= u < |s.threads| ensures ThreadOk(s', g', u) { assert ThreadOk(s, g, u); }
    forall u, v | 0 <= u < v < |s.threads| && Holding(s', u) && Holding(s', v)
      ensures g'.mine[u] != g'.mine[v]
    {
      assert Holding(s, u) && Holding(s, v);
    }
  }

  /** Steps that only load, and the taking of an index. */
  lemma LoadKeeps(s: State, g: Shadow, t: nat)
    requires Inv(s, g) && t < |s.threads|
    requires var pc := s.threads[t]; pc.Idle? || pc.LoadOvercommit? || pc.LoadOptimistic? || pc.TakeIndex?
    ensures Inv(ThreadStep(s, t).s, After(s, g, Go(t)))
  {
    var s', g' := ThreadStep(s, t).s, After(s, g, Go(t));
    assert ThreadOk(s, g, t);
    ThreadsMove(s, t, s'.threads[t]);
    WordBump(g.head);
    SameFates(s, g, t, s', g');
  }

  /** Counts drawn and not paid back: at most one for each element, and those in flight. */
  lemma Backlog(s: State, g: Shadow)
    requires Inv(s, g)
    ensures |g.log| - Count(g.log, Settled) <= g.tail + InFlight(s)
  {
    HeadBehindTail(s, g);
    CountSplits(g.log);
  }

  lemma DrawCounts(s: State, g: Shadow, t: nat)
    requires Inv(s, g) && t < |s.threads| && s.threads[t].TakeCount?
    ensures CountsOk(ThreadStep(s, t).s, After(s, g, Go(t)))
  {
    ThreadsMove(s, t, ThreadStep(s, t).s.threads[t]);
    WordBump(|g.log|);
    CountAppend(g.log, Open, Open);
    CountAppend(g.log, Open, Won);
    CountAppend(g.log, Open, Lost);
    CountAppend(g.log, Open, Settled);
  }

  lemma DrawOwn(s: State, g: Shadow, t: nat)
    requires Inv(s, g) && t < |s.threads| && s.threads[t].TakeCount? && Within(s, Go(t), HALF) && ThreadOk(s, g, t)
    ensures ThreadOk(ThreadStep(s, t).s, After(s, g, Go(t)), t)
  {
    var g' := After(s, g, Go(t));
    Backlog(s, g);
    assert g'.log[..|g.log|] == g.log;
    assert g'.mine[t] == |g.log| && g'.log[|g.log|] == Open && g'.saw[t] == g.saw[t];
  }

  lemma DrawOther(s: State, g: Shadow, s': State, g': Shadow, u: nat)
    requires u < |s.threads| == |s'.threads| == |s.paid| == |s'.paid| && u < |g.mine| == |g'.mine| && u < |g.saw| == |g'.saw|
    requires ThreadOk(s, g, u) && s'.threads[u] == s.threads[u] && s'.paid[u] == s.paid[u]
    requires g'.mine[u] == g.mine[u] && g'.saw[u] == g.saw[u] && g'.tail == g.tail && g'.log == g.log + [Open]
    ensures ThreadOk(s', g', u)
  {
    CountAppend(g.log, Open, Settled);
    if s.threads[u].ReloadTail? {
      assert g'.log[..g.mine[u]] == g.log[..g.mine[u]];
    }
  }

  lemma DrawThread(s: State, g: Shadow, t: nat, u: nat)
    requires t < |s.threads| && u < |s.threads| && s.threads[t].TakeCount? && Within(s, Go(t), HALF)
    requires Inv(s, g) && ThreadOk(s, g, u) && ThreadOk(s, g, t)
    ensures ThreadOk(ThreadStep(s, t).s, After(s, g, Go(t)), u)
  {
    if u == t {
      DrawOwn(s, g, t);
    } else {
      DrawOther(s, g, ThreadStep(s, t).s, After(s, g, Go(t)), u);
    }
  }

  lemma DrawKeeps(s: State, g: Shadow, t: nat)
    requires Inv(s, g) && t < |s.threads| && s.threads[t].TakeCount? && Within(s, Go(t), HALF)
    ensures Inv(ThreadStep(s, t).s, After(s, g, Go(t)))
  {
    var s', g' := ThreadStep(s, t).s, After(s, g, Go(t));
    DrawCounts(s, g, t);
    forall i | 0 <= i < |g'.log| && g'.log[i] == Won
      ensures Covered(g', i)
    {
      assert Covered(g, i);
      assert g'.log[..i] == g.log[..i];
    }
    forall u | 0 <= u < |s.threads|
      ensures ThreadOk(s', g', u)
    {
      assert ThreadOk(s, g, u) && ThreadOk(s, g, t);
      DrawThread(s, g, t, u);
    }
    forall u, v | 0 <= u < v < |s.threads| && Holding(s', u) && Holding(s', v)
      ensures g'.mine[u] != g'.mine[v]
    {
      assert ThreadOk(s, g, u) && ThreadOk(s, g, v);
      assert u != t ==> Holding(s, u);
      assert v != t ==> Holding(s, v);
    }
  }

  /** A thread that holds a count decides or settles its fate. */
  lemma FateKeeps(s: State, g: Shadow, t: nat, x: Fate, pc: Thread, s': State, g': Shadow)
    requires Inv(s, g) && t < |s.threads| && Holding(s, t)
    requires g.mine[t] < |g.log| && g.log[g.mine[t]] != Settled && g.log[g.mine[t]] != Won
    requires g' == g.(log := g.log[g.mine[t] := x])
    requires s'.threads == s.threads[t := pc] && s'.paid == if x == Settled then OneMorePaid(s.paid) else s.paid
    requires pc.Idle? || pc.TakeIndex? || (pc.PayBack? && x == Lost)
    requires CountsOk(s', g')
    requires x == Won ==> Covered(g, g.mine[t])
    ensures Inv(s', g')
  {
    var i := g.mine[t];
    CountUpdate(g.log, i, x, Settled);
    forall j | 0 <= j < |g'.log| && g'.log[j] == Won
      ensures Covered(g', j)
    {
      assert Covered(g, j);
      SettledBefore(g.log, i, x, j);
    }
    forall u | 0 <= u < |s.threads|
      ensures ThreadOk(s', g', u)
    {
      assert ThreadOk(s, g, u);
      if u != t {
        if Holding(s, u) {
          assert g.mine[u] != i;
          SettledBefore(g.log, i, x, g.mine[u]);
        }
      }
    }
    forall u, v | 0 <= u < v < |s.threads| && Holding(s', u) && Holding(s', v)
      ensures g'.mine[u] != g'.mine[v]
    {
      assert Holding(s, u) && Holding(s, v);
    }
  }

  lemma CountsMove(g: Shadow, i: nat, x: Fate)
    requires i < |g.log|
    ensures var log' := g.log[i := x];
      && Count(log', Open) == Count(g.log, Open) - (if g.log[i] == Open then 1 else 0) + (if x == Open then 1 else 0)
      && Count(log', Won) == Count(g.log, Won) - (if g.log[i] == Won then 1 else 0) + (if x == Won then 1 else 0)
      && Count(log', Lost) == Count(g.log, Lost) - (if g.log[i] == Lost then 1 else 0) + (if x == Lost then 1 else 0)
      && Count(log', Settled) == Count(g.log, Settled) - (if g.log[i] == Settled then 1 else 0) + (if x == Settled then 1 else 0)
  {
    CountUpdate(g.log, i, x, Open);
    CountUpdate(g.log, i, x, Won);
    CountUpdate(g.log, i, x, Lost);
    CountUpdate(g.log, i, x, Settled);
  }

  lemma {:induction false} CountAtMost(log: seq<Fate>, f: Fate)
    ensures Count(log, f) <= |log|
  {
    if log != [] {
      CountAtMost(log[..|log| - 1], f);
    }
  }

  /** A comparison that succeeds is right: the winner is covered by the tail. */
  lemma WinnerCovered(s: State, g: Shadow, t: nat)
    requires Inv(s, g) && t < |s.threads| && s.threads[t].ReloadTail? && g.mine[t] < |g.log|
    requires CircularLess(Sub(s.threads[t].my, s.threads[t].overcommit), s.tail)
    ensures Covered(g, g.mine[t])
  {
    assert ThreadOk(s, g, t);
    var i, v := g.mine[t], g.saw[t];
    CountAtMost(g.log[..i], Settled);
    WordSub(i, v);
    CircularLessIsSafe(i - v, g.tail);
  }

  lemma DecideCounts(s: State, g: Shadow, t: nat)
    requires Inv(s, g) && t < |s.threads| && s.threads[t].ReloadTail?
    ensures CountsOk(ThreadStep(s, t).s, After(s, g, Go(t)))
  {
    assert ThreadOk(s, g, t);
    CountsMove(g, g.mine[t], After(s, g, Go(t)).log[g.mine[t]]);
    ThreadsMove(s, t, ThreadStep(s, t).s.threads[t]);
  }

  lemma DecideKeeps(s: State, g: Shadow, t: nat)
    requires Inv(s, g) && t < |s.threads| && s.threads[t].ReloadTail?
    ensures Inv(ThreadStep(s, t).s, After(s, g, Go(t)))
  {
    var s', g' := ThreadStep(s, t).s, After(s, g, Go(t));
    assert ThreadOk(s, g, t);
    var x := g'.log[g.mine[t]];
    if x == Won {
      WinnerCovered(s, g, t);
    }
    DecideCounts(s, g, t);
    FateKeeps(s, g, t, x, s'.threads[t], s', g');
  }

  lemma PayBackKeeps(s: State, g: Shadow, t: nat)
    requires Inv(s, g) && t < |s.threads| && s.threads[t].PayBack?
    ensures Inv(ThreadStep(s, t).s, After(s, g, Go(t)))
  {
    var s', g' := ThreadStep(s, t).s, After(s, g, Go(t));
    assert ThreadOk(s, g, t);
    CountsMove(g, g.mine[t], Settled);
    WordBump(Count(g.log, Settled));
    ThreadsMove(s, t, Idle);
    FateKeeps(s, g, t, Settled, Idle, s', g');
  }

  /** Every step keeps the invariant; an index is handed out in order, below the tail. */
  lemma StepKeeps(s: State, g: Shadow, turn: Turn)
    requires Inv(s, g) && Within(s, turn, HALF)
    ensures var r, g' := CounterStep(s, turn), After(s, g, turn);
      && Inv(r.s, g')
      && g'.tail == g.tail + (if r.ev.Enqueued? then 1 else 0)
      && g'.head == g.head + (if r.ev.Took? then 1 else 0)
      && (r.ev.Took? ==> r.ev.index == g.head % WORD && g.head < g.tail)
  {
    match turn
    case Enqueue => EnqueueKeeps(s, g);
    case Go(t) =>
      match s.threads[t]
      case TakeCount(_) => DrawKeeps(s, g, t);
      case ReloadTail(_, _) => DecideKeeps(s, g, t);
      case PayBack => PayBackKeeps(s, g, t);
      case _ =>
        LoadKeeps(s, g, t);
        HeadBehindTail(s, g);
        ThreadsUpdate(s.threads, t, Idle, Won);
  }

  // ----- whole runs -----

  datatype Trace = Trace(s: State, events: seq<Event>)

  ghost predicate TurnsOk(s: State, turns: seq<Turn>) {
    |s.paid| == |s.threads| && forall i :: 0 <= i < |turns| ==> TurnOk(s, turns[i])
  }

  ghost predicate TurnOk(s: State, turn: Turn) { turn.Go? ==> turn.t < |s.threads| }

  function Exec(s: State, turns: seq<Turn>): (r: Trace)
    requires TurnsOk(s, turns)
    ensures |r.s.threads| == |s.threads| == |r.s.paid|
  {
    if turns == [] then Trace(s, [])
    else
      var before := Exec(s, turns[..|turns| - 1]);
      assert TurnOk(s, turns[|turns| - 1]);
      var r := CounterStep(before.s, turns[|turns| - 1]);
      Trace(r.s, before.events + [r.ev])
  }

  /** The greatest lag in a run. */
  function MaxLag(s: State, turns: seq<Turn>): nat
    requires TurnsOk(s, turns)
  {
    if turns == [] then 0
    else
      var n := |turns| - 1;
      assert TurnOk(s, turns[n]);
      var lag, before := Lag(Exec(s, turns[..n]).s, turns[n]), MaxLag(s, turns[..n]);
      if lag > before then lag else before
  }

  lemma OneMoreTurn(s: State, turns: seq<Turn>, turn: Turn)
    requires TurnsOk(s, turns) && TurnOk(s, turn)
    ensures TurnsOk(s, turns + [turn])
    ensures var before := Exec(s, turns);
      var r := CounterStep(before.s, turn);
      && Exec(s, turns + [turn]) == Trace(r.s, before.events + [r.ev])
      && (MaxLag(s, turns + [turn]) == MaxLag(s, turns) || MaxLag(s, turns + [turn]) == Lag(before.s, turn))
  {
    var turns' := turns + [turn];
    assert turns'[..|turns|] == turns;
    forall i | 0 <= i < |turns'| ensures TurnOk(s, turns'[i]) { assert i < |turns| ==> TurnOk(s, turns[i]); }
  }

  /** A new producer, as its constructor leaves it. */
  ghost predicate Initial(s: State) {
    && s.tail == 0 && s.head == 0 && s.optimistic == 0 && s.overcommit == 0 && |s.paid| == |s.threads|
    && forall t :: 0 <= t < |s.threads| ==> s.threads[t] == Idle
  }

  /** The successful dequeues, or the enqueues, in a history. */
  function Taken(events: seq<Event>): nat {
    if events == [] then 0
    else Taken(events[..|events| - 1]) + if events[|events| - 1].Took? then 1 else 0
  }

  function Added(events: seq<Event>): nat {
    if events == [] then 0
    else Added(events[..|events| - 1]) + if events[|events| - 1].Enqueued? then 1 else 0
  }

  lemma OneMoreEvent(events: seq<Event>, ev: Event)
    ensures Taken(events + [ev]) == Taken(events) + if ev.Took? then 1 else 0
    ensures Added(events + [ev]) == Added(events) + if ev.Enqueued? then 1 else 0
  {
    assert (events + [ev])[..|events|] == events;
  }

  lemma {:induction false} NobodyAt(threads: seq<Thread>, f: Fate)
    requires forall t :: 0 <= t < |threads| ==> threads[t] == Idle
    ensures Threads(threads, f) == 0
  {
    if threads != [] {
      NobodyAt(threads[1..], f);
    }
  }

  lemma InitialInv(s: State)
    requires Initial(s)
    ensures Inv(s, Shadow(0, 0, [], seq(|s.threads|, _ => 0), seq(|s.threads|, _ => 0)))
  {
    NobodyAt(s.threads, Won);
    NobodyAt(s.threads, Open);
    NobodyAt(s.threads, Lost);
  }

  lemma {:induction false} ReachedInv(s: State, turns: seq<Turn>) returns (g: Shadow)
    requires Initial(s) && TurnsOk(s, turns) && MaxLag(s, turns) <= HALF
    ensures var r := Exec(s, turns); Inv(r.s, g) && g.tail == Added(r.events) && g.head == Taken(r.events)
  {
    if turns == [] {
      g := Shadow(0, 0, [], seq(|s.threads|, _ => 0), seq(|s.threads|, _ => 0));
      InitialInv(s);
    } else {
      var n := |turns| - 1;
      assert TurnOk(s, turns[n]);
      var g0 := ReachedInv(s, turns[..n]);
      var before := Exec(s, turns[..n]);
      StepKeeps(before.s, g0, turns[n]);
      OneMoreEvent(before.events, CounterStep(before.s, turns[n]).ev);
      g := After(before.s, g0, turns[n]);
    }
  }

  /** In every run within the window, with any number of dequeuers: the k-th successful dequeue takes index
      k, wrapped to 64 bits, and at that instant more than k elements have been enqueued.  So no
      two dequeues take the same element, and `headIndex` never passes `tailIndex`. */
  lemma IndicesAreDistinctAndBelowTail(s: State, turns: seq<Turn>, next: Turn)
    requires Initial(s) && TurnsOk(s, turns) && MaxLag(s, turns) <= HALF
    requires TurnOk(s, next) && Within(Exec(s, turns).s, next, HALF)
    ensures var r := Exec(s, turns);
      && Taken(r.events) <= Added(r.events)
      && r.s.head == Taken(r.events) % WORD && r.s.tail == Added(r.events) % WORD
    ensures var r, ev := Exec(s, turns), CounterStep(Exec(s, turns).s, next).ev;
      ev.Took? ==> ev.index == Taken(r.events) % WORD && Taken(r.events) < Added(r.events)
  {
    var g := ReachedInv(s, turns);
    HeadBehindTail(Exec(s, turns).s, g);
    StepKeeps(Exec(s, turns).s, g, next);
  }

  /** The fact that `enqueue` asserts before it starts a block: the tail has not fallen behind
      the head, as long as at most 2^63 elements are in the queue. */
  lemma EnqueueAssertion(s: State, turns: seq<Turn>)
    requires Initial(s) && TurnsOk(s, turns) && MaxLag(s, turns) <= HALF
    requires var r := Exec(s, turns); Added(r.events) - Taken(r.events) <= HALF
    ensures !CircularLess(Exec(s, turns).s.tail, Exec(s, turns).s.head)
  {
    IndicesAreDistinctAndBelowTail(s, turns, Enqueue);
    NotBehind(Taken(Exec(s, turns).events), Added(Exec(s, turns).events));
  }

  lemma NotBehind(head: nat, tail: nat)
    requires head <= tail <= head + HALF
    ensures !CircularLess(tail % WORD, head % WORD)
  {
    CircularLessMeans(tail, head);
  }

  /** When no dequeue is under way every failed one has paid back: the quick test that opens
      `dequeue` then passes exactly when an element is there. */
  lemma AtRestTestIsExact(s: State, turns: seq<Turn>)
    requires Initial(s) && TurnsOk(s, turns) && MaxLag(s, turns) <= HALF
    requires var r := Exec(s, turns);
      && (forall t :: 0 <= t < |r.s.threads| ==> r.s.threads[t] == Idle)
      && Added(r.events) - Taken(r.events) < HALF
    ensures var r := Exec(s, turns);
      && Sub(r.s.optimistic, r.s.overcommit) == r.s.head
      && (CircularLess(Sub(r.s.optimistic, r.s.overcommit), r.s.tail) <==> Taken(r.events) < Added(r.events))
  {
    var g := ReachedInv(s, turns);
    RestIsExact(Exec(s, turns).s, g);
  }

  lemma RestIsExact(s: State, g: Shadow)
    requires Inv(s, g) && g.tail - g.head < HALF
    requires forall t :: 0 <= t < |s.threads| ==> s.threads[t] == Idle
    ensures Sub(s.optimistic, s.overcommit) == s.head
    ensures CircularLess(Sub(s.optimistic, s.overcommit), s.tail) <==> g.head < g.tail
  {
    NobodyAt(s.threads, Won);
    NobodyAt(s.threads, Open);
    NobodyAt(s.threads, Lost);
    CountSplits(g.log);
    HeadBehindTail(s, g);
    WordSub(|g.log|, Count(g.log, Settled));
    CircularLessIsLess(g.head, g.tail);
  }

  // ----- a dequeue that runs alone -----

  /** What a dequeue of thread `t` does from its first load on, one state after the other. */
  ghost predicate AloneAt(path: seq<State>, t: nat, i: nat)
    requires i + 1 < |path|
  {
    t < |path[i].threads| == |path[i].paid| && ThreadStep(path[i], t).s == path[i + 1]
  }

  ghost predicate AlonePath(path: seq<State>, t: nat) {
    |path| >= 1 && forall i :: 0 <= i && i + 1 < |path| ==> AloneAt(path, t, i)
  }

  lemma Goes(path: seq<State>, t: nat, next: State) returns (path': seq<State>)
    requires AlonePath(path, t)
    requires var last := path[|path| - 1]; t < |last.threads| == |last.paid| && ThreadStep(last, t).s == next
    ensures path' == path + [next] && AlonePath(path', t)
  {
    path' := path + [next];
    forall i | 0 <= i && i + 1 < |path'| ensures AloneAt(path', t, i) {
      assert i + 1 < |path| ==> AloneAt(path, t, i);
    }
  }

  /** The opening test and the test after drawing a count agree when nobody else moves. */
  lemma DequeuesAlone(s: State, t: nat) returns (path: seq<State>)
    requires t < |s.threads| == |s.paid| && s.threads[t] == Idle
    ensures AlonePath(path, t) && path[0] == s
    ensures var last := path[|path| - 1];
      && t < |last.threads| == |last.paid|
      && if CircularLess(Sub(s.optimistic, s.overcommit), s.tail) then |path| == 6 && ThreadStep(last, t).ev == Took(s.head)
         else |path| == 3 && ThreadStep(last, t).ev == Failed
  {
    var s1 := s.(paid := s.paid[t := 0]);
    path := [s];
    path := Goes(path, t, Now(s, t, LoadOvercommit(s.tail)));
    path := Goes(path, t, Now(s1, t, LoadOptimistic(s.tail, s.overcommit)));
    if CircularLess(Sub(s.optimistic, s.overcommit), s.tail) {
      var s2 := s1.(optimistic := Bump(s.optimistic));
      path := Goes(path, t, Now(s1, t, TakeCount(s.overcommit)));
      path := Goes(path, t, Now(s2, t, ReloadTail(s.optimistic, s.overcommit)));
      path := Goes(path, t, Now(s2, t, TakeIndex));
    }
  }

  /** After any run within the window, when no dequeue is under way, a dequeue that runs alone
      takes the next index exactly when an element is there, and fails otherwise. */
  lemma DequeueAlone(s: State, turns: seq<Turn>, t: nat) returns (path: seq<State>)
    requires Initial(s) && TurnsOk(s, turns) && MaxLag(s, turns) <= HALF && t < |s.threads|
    requires var r := Exec(s, turns);
      && (forall u :: 0 <= u < |r.s.threads| ==> r.s.threads[u] == Idle)
      && Added(r.events) - Taken(r.events) < HALF
    ensures var r := Exec(s, turns);
      && AlonePath(path, t) && path[0] == r.s && |path| <= 6
      && var last := path[|path| - 1];
         && t < |last.threads| == |last.paid|
         && ThreadStep(last, t).ev == if Taken(r.events) < Added(r.events) then Took(Taken(r.events) % WORD) else Failed
  {
    AtRestTestIsExact(s, turns);
    IndicesAreDistinctAndBelowTail(s, turns, Enqueue);
    path := DequeuesAlone(Exec(s, turns).s, t);
  }
}
