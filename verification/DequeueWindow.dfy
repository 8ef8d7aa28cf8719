/** The window of the dequeue counters is exact.  In a run of three threads one of them stalls
    between reading the overcommit and drawing a count, while 2^63 + 1 races of the other two
    each leave one payback behind.  That is one more than the window has room for, and the
    stalled thread takes an index at the tail. */
module DequeueWindow {

  import opened DequeueCounters

  ghost predicate Good(s: State, turns: seq<Turn>) { Initial(s) && |s.threads| == 3 && TurnsOk(s, turns) }

  /** Reduction modulo 2^64, in steps, which keeps the arithmetic of the runs linear. */
  function Wrap(n: nat): nat { if n < WORD then n else Wrap(n - WORD) }

  lemma {:induction false} WrapIsMod(n: nat)
    ensures Wrap(n) == n % WORD
  {
    if n >= WORD {
      WrapIsMod(n - WORD);
    }
  }

  /** The words of a state and its threads; thread 0 saw an overcommit of 0. */
  ghost predicate Is(s: State, tail: nat, head: nat, optimistic: nat, overcommit: nat, threads: seq<Thread>) {
    && s.tail == Wrap(tail) && s.head == Wrap(head) && s.optimistic == Wrap(optimistic)
    && s.overcommit == Wrap(overcommit) && s.threads == threads && |s.paid| == |threads| > 0 && s.paid[0] == overcommit
  }

  /** The run so far: a state, and how much was taken and added. */
  ghost predicate Reached(s0: State, turns: seq<Turn>, s: State, taken: nat, added: nat) {
    && Good(s0, turns) && MaxLag(s0, turns) <= HALF + 1 && Exec(s0, turns).s == s
    && Taken(Exec(s0, turns).events) == taken && Added(Exec(s0, turns).events) == added
  }

  lemma Then(s0: State, turns: seq<Turn>, s: State, taken: nat, added: nat, turn: Turn) returns (turns': seq<Turn>)
    requires Reached(s0, turns, s, taken, added) && TurnOk(s0, turn) && |s.threads| == |s.paid| == |s0.threads|
    requires Within(s, turn, HALF + 1)
    ensures var r := CounterStep(s, turn);
      Reached(s0, turns', r.s, taken + (if r.ev.Took? then 1 else 0), added + (if r.ev.Enqueued? then 1 else 0))
  {
    turns' := turns + [turn];
    OneMoreTurn(s0, turns, turn);
    OneMoreEvent(Exec(s0, turns).events, CounterStep(s, turn).ev);
  }

  /** Nothing was paid back since threads 1 and 2 read the overcommit. */
  predicate NonePaid(s: State) { |s.paid| == 3 && s.paid[1] == 0 && s.paid[2] == 0 }

  lemma BumpWrapped(n: nat)
    ensures Bump(Wrap(n)) == Wrap(n + 1)
  {
    WrapIsMod(n);
    WrapIsMod(n + 1);
    WordBump(n);
  }

  /** The outcome of a comparison, as long as the counts are not further apart than this: a
      count that is too far ahead of the tail looks as if it were behind. */
  predicate Decidable(my: nat, saw: nat, tail: nat) { saw <= my && tail < my - saw + HALF && my - saw < tail + WORD }

  predicate Wins(my: nat, saw: nat, tail: nat) { my - saw < tail || my - saw > tail + HALF }

  lemma Compared(my: nat, saw: nat, tail: nat)
    requires Decidable(my, saw, tail)
    ensures CircularLess(Sub(Wrap(my), Wrap(saw)), Wrap(tail)) <==> Wins(my, saw, tail)
  {
    WrapIsMod(my);
    WrapIsMod(saw);
    WrapIsMod(tail);
    ComparedMod(my, saw, tail);
  }

  lemma ComparedMod(my: nat, saw: nat, tail: nat)
    requires Decidable(my, saw, tail)
    ensures CircularLess(Sub(my % WORD, saw % WORD), tail % WORD) <==> Wins(my, saw, tail)
  {
    WordSub(my, saw);
    CircularLessMeans(my - saw, tail);
    Ahead(my - saw, tail);
  }

  lemma Ahead(a: nat, b: nat)
    requires b < a + HALF && a < b + WORD
    ensures 0 < (b - a) % WORD < HALF <==> a < b || a > b + HALF
  {
    if a > b {
      Unwrapped(b - a, -1, WORD - (a - b));
    }
  }

  // ----- one race -----

  /** Thread `t` passes the opening test for the one element that is there. */
  lemma Enters(s: State, n: nat, drawn: nat, t: nat)
    requires drawn == 2 * n && Is(s, n + 1, n, drawn, n, s.threads) && t < |s.threads| && s.threads[t] == Idle && (t == 0 ==> n == 0)
    ensures var s1 := CounterStep(s, Go(t)).s;
      var s2 := CounterStep(s1, Go(t)).s;
      var s3 := CounterStep(s2, Go(t)).s;
      && Is(s3, n + 1, n, drawn, n, s.threads[t := TakeCount(Wrap(n))]) && s3.paid == s.paid[t := 0]
      && CounterStep(s, Go(t)).ev == Quiet && CounterStep(s1, Go(t)).ev == Quiet && CounterStep(s2, Go(t)).ev == Quiet
  {
    WrapIsMod(2 * n);
    WrapIsMod(n);
    WrapIsMod(n + 1);
    WordSub(2 * n, n);
    CircularLessIsLess(n, n + 1);
  }

  lemma Draws(s: State, tail: nat, head: nat, drawn: nat, overcommit: nat, t: nat, saw: nat)
    requires Is(s, tail, head, drawn, overcommit, s.threads) && t < |s.threads| && s.threads[t] == TakeCount(saw)
    ensures Is(CounterStep(s, Go(t)).s, tail, head, drawn + 1, overcommit, s.threads[t := ReloadTail(Wrap(drawn), saw)])
    ensures CounterStep(s, Go(t)).ev == Quiet && CounterStep(s, Go(t)).s.paid == s.paid
  {
    BumpWrapped(drawn);
  }

  lemma Decides(s: State, tail: nat, head: nat, drawn: nat, overcommit: nat, t: nat, my: nat, saw: nat)
    requires Is(s, tail, head, drawn, overcommit, s.threads) && t < |s.threads|
    requires s.threads[t] == ReloadTail(Wrap(my), Wrap(saw)) && Decidable(my, saw, tail)
    ensures Is(CounterStep(s, Go(t)).s, tail, head, drawn, overcommit, s.threads[t := if Wins(my, saw, tail) then TakeIndex else PayBack])
    ensures CounterStep(s, Go(t)).ev == Quiet
  {
    Compared(my, saw, tail);
  }

  lemma Finishes(s: State, tail: nat, head: nat, drawn: nat, overcommit: nat, t: nat)
    requires Is(s, tail, head, drawn, overcommit, s.threads) && t < |s.threads| && (s.threads[t].TakeIndex? || s.threads[t].PayBack?)
    ensures var won := s.threads[t].TakeIndex?;
      && Is(CounterStep(s, Go(t)).s, tail, if won then head + 1 else head, drawn, if won then overcommit else overcommit + 1,
            s.threads[t := Idle])
      && (CounterStep(s, Go(t)).ev.Took? <==> won) && !CounterStep(s, Go(t)).ev.Enqueued?
  {
    BumpWrapped(head);
    BumpWrapped(overcommit);
  }

  lemma Adds(s: State, tail: nat, head: nat, drawn: nat, overcommit: nat)
    requires Is(s, tail, head, drawn, overcommit, s.threads)
    ensures Is(CounterStep(s, Enqueue).s, tail + 1, head, drawn, overcommit, s.threads)
  {
    BumpWrapped(tail);
  }

  /** The stalled thread has read an overcommit of 0. */
  const Stalled: Thread := TakeCount(0)

  /** Both others enter and draw, the first wins, the second pays back. */
  lemma Race(s0: State, turns: seq<Turn>, s: State, n: nat, drawn: nat) returns (turns': seq<Turn>, s': State)
    requires Reached(s0, turns, s, n, n + 1) && Is(s, n + 1, n, drawn, n, [Stalled, Idle, Idle]) && drawn == 2 * n
    ensures Reached(s0, turns', s', n + 1, n + 1) && Is(s', n + 1, n + 1, drawn + 2, n + 1, [Stalled, Idle, Idle])
  {
    var entered, s1 := EnterBoth(s0, turns, s, n, drawn);
    turns', s' := Compete(s0, entered, s1, n, n + 1, drawn, n);
  }

  lemma EnterBoth(s0: State, turns: seq<Turn>, s: State, n: nat, drawn: nat) returns (turns': seq<Turn>, s': State)
    requires Reached(s0, turns, s, n, n + 1) && Is(s, n + 1, n, drawn, n, [Stalled, Idle, Idle]) && drawn == 2 * n
    ensures Reached(s0, turns', s', n, n + 1)
    ensures Is(s', n + 1, n, drawn, n, [Stalled, TakeCount(Wrap(n)), TakeCount(Wrap(n))]) && NonePaid(s')
  {
    turns', s' := EnterOne(s0, turns, s, n, drawn, 1);
    turns', s' := EnterOne(s0, turns', s', n, drawn, 2);
  }

  lemma EnterOne(s0: State, turns: seq<Turn>, s: State, n: nat, drawn: nat, t: nat) returns (turns': seq<Turn>, s': State)
    requires Reached(s0, turns, s, n, n + 1) && t < 3 && |s.threads| == 3 && s.threads[t] == Idle && (t == 0 ==> n == 0)
    requires Is(s, n + 1, n, drawn, n, s.threads) && drawn == 2 * n
    ensures Reached(s0, turns', s', n, n + 1)
    ensures Is(s', n + 1, n, drawn, n, s.threads[t := TakeCount(Wrap(n))]) && s'.paid == s.paid[t := 0]
  {
    Enters(s, n, drawn, t);
    turns' := Then(s0, turns, s, n, n + 1, Go(t));
    var s1 := CounterStep(s, Go(t)).s;
    turns' := Then(s0, turns', s1, n, n + 1, Go(t));
    var s2 := CounterStep(s1, Go(t)).s;
    turns' := Then(s0, turns', s2, n, n + 1, Go(t));
    s' := CounterStep(s2, Go(t)).s;
  }

  lemma DrawOne(s0: State, turns: seq<Turn>, s: State, taken: nat, added: nat, drawn: nat, overcommit: nat, t: nat, saw: nat)
    returns (turns': seq<Turn>, s': State)
    requires Reached(s0, turns, s, taken, added) && Is(s, added, taken, drawn, overcommit, s.threads) && |s.threads| == 3
    requires t < 3 && s.threads[t] == TakeCount(saw) && Within(s, Go(t), HALF + 1)
    ensures Reached(s0, turns', s', taken, added) && s'.paid == s.paid
    ensures Is(s', added, taken, drawn + 1, overcommit, s.threads[t := ReloadTail(Wrap(drawn), saw)])
  {
    Draws(s, added, taken, drawn, overcommit, t, saw);
    turns' := Then(s0, turns, s, taken, added, Go(t));
    s' := CounterStep(s, Go(t)).s;
  }

  /** Thread `t` compares, and then takes an index or pays back. */
  lemma SettleOne(s0: State, turns: seq<Turn>, s: State, taken: nat, added: nat, drawn: nat, overcommit: nat, t: nat, my: nat, saw: nat)
    returns (turns': seq<Turn>, s': State)
    requires Reached(s0, turns, s, taken, added) && Is(s, added, taken, drawn, overcommit, s.threads) && |s.threads| == 3
    requires t < 3 && s.threads[t] == ReloadTail(Wrap(my), Wrap(saw)) && Decidable(my, saw, added)
    ensures var won := Wins(my, saw, added);
      && Reached(s0, turns', s', if won then taken + 1 else taken, added)
      && Is(s', added, if won then taken + 1 else taken, drawn, if won then overcommit else overcommit + 1, s.threads[t := Idle])
  {
    Decides(s, added, taken, drawn, overcommit, t, my, saw);
    turns' := Then(s0, turns, s, taken, added, Go(t));
    var s1 := CounterStep(s, Go(t)).s;
    Finishes(s1, added, taken, drawn, overcommit, t);
    turns' := Then(s0, turns', s1, taken, added, Go(t));
    s' := CounterStep(s1, Go(t)).s;
    assert s1.threads[t := Idle] == s.threads[t := Idle];
  }

  lemma Compete(s0: State, turns: seq<Turn>, s: State, taken: nat, added: nat, drawn: nat, overcommit: nat)
    returns (turns': seq<Turn>, s': State)
    requires Reached(s0, turns, s, taken, added)
    requires Is(s, added, taken, drawn, overcommit, [Stalled, TakeCount(Wrap(overcommit)), TakeCount(Wrap(overcommit))])
    requires NonePaid(s)
    requires overcommit <= drawn && added == drawn - overcommit + 1
    ensures Reached(s0, turns', s', taken + 1, added)
    ensures Is(s', added, taken + 1, drawn + 2, overcommit + 1, [Stalled, Idle, Idle])
  {
    turns', s' := DrawTwo(s0, turns, s, taken, added, drawn, overcommit, Wrap(overcommit));
    turns', s' := SettleTwo(s0, turns', s', taken, added, drawn + 2, overcommit, drawn, drawn + 1, overcommit);
  }

  lemma DrawTwo(s0: State, turns: seq<Turn>, s: State, taken: nat, added: nat, drawn: nat, overcommit: nat, saw: nat)
    returns (turns': seq<Turn>, s': State)
    requires Reached(s0, turns, s, taken, added)
    requires Is(s, added, taken, drawn, overcommit, [Stalled, TakeCount(saw), TakeCount(saw)]) && NonePaid(s)
    ensures Reached(s0, turns', s', taken, added)
    ensures Is(s', added, taken, drawn + 2, overcommit,
               [Stalled, ReloadTail(Wrap(drawn), saw), ReloadTail(Wrap(drawn + 1), saw)])
  {
    PaybacksBound(s, 1, HALF + 1);
    turns', s' := DrawOne(s0, turns, s, taken, added, drawn, overcommit, 1, saw);
    assert s'.threads == [Stalled, ReloadTail(Wrap(drawn), saw), TakeCount(saw)];
    PaybacksBound(s', 2, HALF + 1);
    turns', s' := DrawOne(s0, turns', s', taken, added, drawn + 1, overcommit, 2, saw);
    assert s'.threads == [Stalled, ReloadTail(Wrap(drawn), saw), ReloadTail(Wrap(drawn + 1), saw)];
  }

  /** The first wins and the second loses. */
  lemma SettleTwo(s0: State, turns: seq<Turn>, s: State, taken: nat, added: nat, drawn: nat, overcommit: nat, x: nat, y: nat, saw: nat)
    returns (turns': seq<Turn>, s': State)
    requires Reached(s0, turns, s, taken, added) && Decidable(x, saw, added) && Decidable(y, saw, added)
    requires Is(s, added, taken, drawn, overcommit,
                [Stalled, ReloadTail(Wrap(x), Wrap(saw)), ReloadTail(Wrap(y), Wrap(saw))])
    requires Wins(x, saw, added) && !Wins(y, saw, added)
    ensures Reached(s0, turns', s', taken + 1, added)
    ensures Is(s', added, taken + 1, drawn, overcommit + 1, [Stalled, Idle, Idle])
  {
    turns', s' := SettleOne(s0, turns, s, taken, added, drawn, overcommit, 1, x, saw);
    assert s'.threads == [Stalled, Idle, ReloadTail(Wrap(y), Wrap(saw))];
    turns', s' := SettleOne(s0, turns', s', taken + 1, added, drawn, overcommit, 2, y, saw);
    assert s'.threads == [Stalled, Idle, Idle];
  }

  // ----- the whole run -----

  /** An element is added, and the first thread passes the opening test and stalls. */
  lemma Stall() returns (s0: State, turns: seq<Turn>, s: State)
    ensures Reached(s0, turns, s, 0, 1) && Is(s, 1, 0, 0, 0, [Stalled, Idle, Idle])
  {
    s0 := State(0, 0, 0, 0, [Idle, Idle, Idle], [0, 0, 0]);
    turns := [];
    turns := Then(s0, turns, s0, 0, 0, Enqueue);
    s := CounterStep(s0, Enqueue).s;
    turns, s := EnterOne(s0, turns, s, 0, 0, 0);
  }

  lemma {:induction false} Races(n: nat) returns (s0: State, turns: seq<Turn>, s: State)
    ensures Reached(s0, turns, s, n, n + 1) && Is(s, n + 1, n, 2 * n, n, [Stalled, Idle, Idle])
  {
    if n == 0 {
      s0, turns, s := Stall();
    } else {
      var k := n - 1;
      s0, turns, s := Races(k);
      turns, s := Race(s0, turns, s, k, 2 * k);
      assert 2 * k + 2 == 2 * n;
      Adds(s, n, n, 2 * n, n);
      turns := Then(s0, turns, s, n, n, Enqueue);
      s := CounterStep(s, Enqueue).s;
    }
  }

  /** One more than the window allows: a run from a new producer in which more indices are taken
      than elements were ever added. */
  lemma UntimelyRunFails() returns (s0: State, turns: seq<Turn>)
    ensures Initial(s0) && TurnsOk(s0, turns) && MaxLag(s0, turns) <= HALF + 1
    ensures Taken(Exec(s0, turns).events) > Added(Exec(s0, turns).events)
  {
    var m := HALF + 1;
    var s;
    s0, turns, s := Races(m - 1);
    turns, s := Race(s0, turns, s, m - 1, 2 * (m - 1));
    turns, s := LateWin(s0, turns, s, m);
  }

  /** The stalled thread draws its count: to the wrapped comparison it is behind the tail. */
  lemma LateWin(s0: State, turns: seq<Turn>, s: State, m: nat) returns (turns': seq<Turn>, s': State)
    requires m == HALF + 1 && Reached(s0, turns, s, m, m) && Is(s, m, m, 2 * m, m, [Stalled, Idle, Idle])
    ensures Reached(s0, turns', s', m + 1, m)
  {
    NobodyInFlight(s);
    turns', s' := DrawOne(s0, turns, s, m, m, 2 * m, m, 0, 0);
    turns', s' := SettleOne(s0, turns', s', m, m, 2 * m + 1, m, 0, 2 * m, 0);
  }

  lemma NobodyInFlight(s: State)
    requires s.threads == [Stalled, Idle, Idle]
    ensures InFlight(s) == 0
  {
    assert s.threads[1..] == [Idle, Idle];
    NobodyAt(s.threads[1..], Open);
    NobodyAt(s.threads[1..], Lost);
  }

  // ----- the exact window -----

  ghost predicate NeverOvertakes(s: State, turns: seq<Turn>)
    requires TurnsOk(s, turns)
  {
    Taken(Exec(s, turns).events) <= Added(Exec(s, turns).events)
  }

  ghost predicate SafeWindow(window: nat) {
    forall s: State, turns: seq<Turn> ::
      Initial(s) && TurnsOk(s, turns) && MaxLag(s, turns) <= window ==> NeverOvertakes(s, turns)
  }

  /** All runs within a window take at most as many indices as elements were added, if and only
      if the window is at most 2^63. */
  lemma WindowIsExact(window: nat)
    ensures SafeWindow(window) <==> window <= HALF
  {
    if window <= HALF {
      forall s: State, turns: seq<Turn> | Initial(s) && TurnsOk(s, turns) && MaxLag(s, turns) <= window
        ensures NeverOvertakes(s, turns)
      {
        IndicesAreDistinctAndBelowTail(s, turns, Enqueue);
      }
    } else {
      var s0, turns := UntimelyRunFails();
      assert !NeverOvertakes(s0, turns);
    }
  }
}
