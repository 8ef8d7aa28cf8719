/** The generator of compressible data: runs of random literals alternate with copies of one
    literal buffer, with lengths drawn from frequencies that are refilled when used up.  The
    random source is a parameter: any sequences of bytes, lengths and coin flips, read at
    positions that only go up. */
module CompressGen {

  import opened Bytes

  const MIN_LEN: nat := 3
  const MAX_LEN: nat := 160
  const NUM_LEN: nat := MAX_LEN - MIN_LEN + 1
  const LEN_PER_CHUNK: nat := 512

  /** What each draw gives, as a literal, as a length and as a coin flip. */
  datatype Source = Source(literal: nat -> byte, length: nat -> nat, coin: nat -> bool)

  function Drawn(src: Source, from: nat, n: nat): (b: Buffer)
    ensures |b| == n
  {
    if n == 0 then [] else Drawn(src, from, n - 1) + [src.literal(from + n - 1)]
  }

  /** How many of `n` lengths drawn from a position on are `k`. */
  function Freq(src: Source, from: nat, n: nat, k: nat): nat {
    if n == 0 then 0 else Freq(src, from, n - 1, k) + if src.length(from + n - 1) == k then 1 else 0
  }

  /** How often length `k` was drawn in the round that began at a position: after the literal
      buffer. */
  function RoundFreq(src: Source, round: nat, k: nat): nat { Freq(src, round + MAX_LEN, LEN_PER_CHUNK, k) }

  // ----- the output as a sequence of steps -----

  /** One step: the position at which its round began, its length index, the position of its
      coin flip, whether it is a copy, whether a single literal parts it from a copy before
      it, and the number of bytes besides that literal. */
  datatype Step = Step(round: nat, k: nat, flip: nat, copy: bool, parted: bool, len: nat)

  ghost function BytesOf(src: Source, st: Step): (b: Buffer)
    ensures |b| == st.len + if st.copy && st.parted then 1 else 0
  {
    if !st.copy then Drawn(src, st.flip + 1, st.len)
    else (if st.parted then Drawn(src, st.flip + 1, 1) else []) + Drawn(src, st.round, st.len)
  }

  /** The position after a step's draws. */
  function After(st: Step): nat { st.flip + 1 + if !st.copy then st.len else if st.parted then 1 else 0 }

  ghost function Output(src: Source, steps: seq<Step>): Buffer {
    if steps == [] then [] else Output(src, steps[..|steps| - 1]) + BytesOf(src, steps[|steps| - 1])
  }

  function Position(steps: seq<Step>, start: nat): nat {
    if steps == [] then start else After(steps[|steps| - 1])
  }

  /** How often a round's length `k` has been used. */
  function Uses(steps: seq<Step>, round: nat, k: nat): nat {
    if steps == [] then 0
    else
      var st := steps[|steps| - 1];
      Uses(steps[..|steps| - 1], round, k) + if st.round == round && st.k == k then 1 else 0
  }

  predicate Left(src: Source, steps: seq<Step>, round: nat, k: nat) {
    Uses(steps, round, k) < RoundFreq(src, round, k)
  }

  /** All lengths drawn in a round have been used. */
  ghost predicate UsedUp(src: Source, steps: seq<Step>, round: nat) {
    forall k :: 0 <= k < NUM_LEN ==> !Left(src, steps, round, k)
  }

  /** `k` is the greatest length of the round that is left. */
  ghost predicate Greatest(src: Source, steps: seq<Step>, round: nat, k: nat) {
    k < NUM_LEN && Left(src, steps, round, k) && forall m :: k < m < NUM_LEN ==> !Left(src, steps, round, m)
  }

  ghost predicate SameRound(src: Source, steps: seq<Step>) {
    steps != [] && !UsedUp(src, steps, steps[|steps| - 1].round)
  }

  function Min(a: nat, b: nat): nat { if a <= b then a else b }

  /** `st` is the step that follows `steps`: a round goes on until it is used up, the next one
      begins with its literals and lengths; the greatest length left is taken, clipped only by
      what is left to fill; the coin decides, and a copy never follows a copy directly. */
  ghost predicate Continues(src: Source, steps: seq<Step>, st: Step, start: nat, size: nat) {
    var at, filled := Position(steps, start), |Output(src, steps)|;
    && filled < size
    && (if SameRound(src, steps) then st.round == steps[|steps| - 1].round && st.flip == at
        else st.round == at && st.flip == at + MAX_LEN + LEN_PER_CHUNK)
    && Greatest(src, steps, st.round, st.k)
    && st.copy == !src.coin(st.flip)
    && st.parted == (st.copy && steps != [] && steps[|steps| - 1].copy)
    && st.len == Min(MIN_LEN + st.k, size - filled - if st.parted then 1 else 0)
  }

  ghost predicate StepOk(src: Source, steps: seq<Step>, start: nat, size: nat, i: nat)
    requires i < |steps|
  {
    Continues(src, steps[..i], steps[i], start, size)
  }

  ghost predicate Follows(src: Source, steps: seq<Step>, start: nat, size: nat) {
    forall i :: 0 <= i < |steps| ==> StepOk(src, steps, start, size, i)
  }

  lemma FollowsAppend(src: Source, steps: seq<Step>, st: Step, start: nat, size: nat)
    requires Follows(src, steps, start, size) && Continues(src, steps, st, start, size)
    ensures Follows(src, steps + [st], start, size)
    ensures Output(src, steps + [st]) == Output(src, steps) + BytesOf(src, st)
  {
    var steps' := steps + [st];
    assert steps'[..|steps|] == steps;
    forall i | 0 <= i < |steps'|
      ensures StepOk(src, steps', start, size, i)
    {
      if i < |steps| {
        assert StepOk(src, steps, start, size, i);
        assert steps'[..i] == steps[..i];
      }
    }
  }

  // ----- what the steps guarantee -----

  /** The random source determines every step. */
  lemma {:induction false} Determined(src: Source, a: seq<Step>, b: seq<Step>, start: nat, size: nat, n: nat)
    requires Follows(src, a, start, size) && Follows(src, b, start, size) && n <= |a| && n <= |b|
    ensures a[..n] == b[..n]
  {
    if n > 0 {
      Determined(src, a, b, start, size, n - 1);
      SameNext(src, a, b, start, size, n - 1);
      assert a[..n] == a[..n - 1] + [a[n - 1]] && b[..n] == b[..n - 1] + [b[n - 1]];
    }
  }

  lemma SameNext(src: Source, a: seq<Step>, b: seq<Step>, start: nat, size: nat, n: nat)
    requires Follows(src, a, start, size) && Follows(src, b, start, size) && n < |a| && n < |b|
    requires a[..n] == b[..n]
    ensures a[n] == b[n]
  {
    var prior, x, y := a[..n], a[n], b[n];
    assert StepOk(src, a, start, size, n) && StepOk(src, b, start, size, n);
    assert x.round == y.round && x.flip == y.flip;
    assert x.k == y.k;
  }

  lemma MoreRoom(src: Source, steps: seq<Step>, start: nat, size: nat, n: nat)
    requires Follows(src, steps, start, size) && n < |steps|
    ensures |Output(src, steps[..n])| < size
  {
    assert StepOk(src, steps, start, size, n);
  }

  /** Two ways to fill the same bytes from the same draws are the same. */
  lemma OneOutput(src: Source, a: seq<Step>, b: seq<Step>, start: nat, size: nat)
    requires Follows(src, a, start, size) && Follows(src, b, start, size)
    requires |Output(src, a)| == size && |Output(src, b)| == size
    ensures a == b
  {
    var n := if |a| <= |b| then |a| else |b|;
    Determined(src, a, b, start, size, n);
    assert if |a| <= |b| then a[..n] == a else b[..n] == b;
    if n < |b| {
      MoreRoom(src, b, start, size, n);
    } else if n < |a| {
      MoreRoom(src, a, start, size, n);
    } else {
      assert a[..n] == a && b[..n] == b;
    }
  }

  /** Rounds begin before the position reached. */
  lemma {:induction false} RoundsBefore(src: Source, steps: seq<Step>, start: nat, size: nat, n: nat)
    requires Follows(src, steps, start, size) && n <= |steps|
    ensures forall i :: 0 <= i < n ==> steps[i].round < Position(steps[..n], start)
  {
    if n > 0 {
      RoundsBefore(src, steps, start, size, n - 1);
      PositionAfter(src, steps, start, size, n - 1);
      assert steps[..n][n - 1] == steps[n - 1];
    }
  }

  lemma PositionAfter(src: Source, steps: seq<Step>, start: nat, size: nat, n: nat)
    requires Follows(src, steps, start, size) && n < |steps|
    ensures Position(steps[..n], start) < After(steps[n])
    ensures n == 0 || steps[n - 1].round < Position(steps[..n], start) ==> steps[n].round < After(steps[n])
  {
    assert StepOk(src, steps, start, size, n);
    assert n > 0 ==> steps[..n][n - 1] == steps[n - 1];
  }

  lemma FollowsPrefix(src: Source, steps: seq<Step>, start: nat, size: nat, n: nat)
    requires Follows(src, steps, start, size) && n <= |steps|
    ensures Follows(src, steps[..n], start, size)
  {
    forall i | 0 <= i < n
      ensures StepOk(src, steps[..n], start, size, i)
    {
      assert StepOk(src, steps, start, size, i);
      assert steps[..n][..i] == steps[..i];
    }
  }

  lemma {:induction false} UnusedRound(steps: seq<Step>, round: nat, k: nat)
    requires forall i :: 0 <= i < |steps| ==> steps[i].round != round
    ensures Uses(steps, round, k) == 0
  {
    if steps != [] {
      UnusedRound(steps[..|steps| - 1], round, k);
    }
  }

  lemma {:induction false} UsesWithin(src: Source, steps: seq<Step>, start: nat, size: nat, round: nat, k: nat)
    requires Follows(src, steps, start, size)
    ensures Uses(steps, round, k) <= RoundFreq(src, round, k)
  {
    if steps != [] {
      var n := |steps| - 1;
      FollowsPrefix(src, steps, start, size, n);
      UsesWithin(src, steps[..n], start, size, round, k);
      assert StepOk(src, steps, start, size, n);
    }
  }

  /** When a round ends, every length has been used exactly as often as it was drawn. */
  lemma RoundsAreUsedUp(src: Source, steps: seq<Step>, start: nat, size: nat, i: nat, k: nat)
    requires Follows(src, steps, start, size) && i + 1 < |steps| && steps[i + 1].round != steps[i].round && k < NUM_LEN
    ensures Uses(steps[..i + 1], steps[i].round, k) == RoundFreq(src, steps[i].round, k)
  {
    var prior := steps[..i + 1];
    assert prior[|prior| - 1] == steps[i];
    assert StepOk(src, steps, start, size, i + 1);
    FollowsPrefix(src, steps, start, size, i + 1);
    UsesWithin(src, prior, start, size, steps[i].round, k);
    assert !Left(src, prior, steps[i].round, k);
  }

  /** Within a round lengths only get shorter. */
  lemma LengthsDescend(src: Source, steps: seq<Step>, start: nat, size: nat, i: nat)
    requires Follows(src, steps, start, size) && i + 1 < |steps| && steps[i + 1].round == steps[i].round
    ensures steps[i + 1].k <= steps[i].k
  {
    assert StepOk(src, steps, start, size, i) && StepOk(src, steps, start, size, i + 1);
    assert steps[..i + 1][..i] == steps[..i];
    assert Left(src, steps[..i + 1], steps[i].round, steps[i + 1].k);
    assert Left(src, steps[..i], steps[i].round, steps[i + 1].k);
  }

  /** A copy starts right after a literal, and only the last step may be cut short. */
  lemma StepsAreWhole(src: Source, steps: seq<Step>, start: nat, size: nat, i: nat)
    requires Follows(src, steps, start, size) && i + 1 < |steps|
    ensures steps[i].len == MIN_LEN + steps[i].k <= MAX_LEN
    ensures steps[i].copy && steps[i + 1].copy ==> steps[i + 1].parted
  {
    assert StepOk(src, steps, start, size, i) && StepOk(src, steps, start, size, i + 1);
    assert steps[..i + 1][..i] == steps[..i];
  }

  // ----- lengths out of range -----

  ghost predicate InRange(src: Source) { forall n :: src.length(n) < NUM_LEN }

  /** The lengths drawn in the round that begins at a position are in range. */
  ghost predicate LengthsOk(src: Source, round: nat) {
    forall j :: round + MAX_LEN <= j < round + MAX_LEN + LEN_PER_CHUNK ==> src.length(j) < NUM_LEN
  }

  ghost predicate RoundsOk(src: Source, steps: seq<Step>) {
    forall i :: 0 <= i < |steps| ==> LengthsOk(src, steps[i].round)
  }

  lemma RoundsAppend(src: Source, steps: seq<Step>, st: Step)
    requires RoundsOk(src, steps) && LengthsOk(src, st.round)
    ensures RoundsOk(src, steps + [st])
  {
  }

  /** The draws fill `size` bytes by rounds whose lengths are all in range. */
  ghost predicate Fillable(src: Source, start: nat, size: nat) {
    exists steps :: Follows(src, steps, start, size) && |Output(src, steps)| == size && RoundsOk(src, steps)
  }

  /** Bytes are left to fill, and the round that has to begin now has a length out of range. */
  ghost predicate Stuck(src: Source, steps: seq<Step>, start: nat, size: nat) {
    |Output(src, steps)| < size && !SameRound(src, steps) && !LengthsOk(src, Position(steps, start))
  }

  lemma StuckFailsAll(src: Source, steps: seq<Step>, start: nat, size: nat)
    requires Follows(src, steps, start, size) && Stuck(src, steps, start, size)
    ensures !Fillable(src, start, size)
  {
    forall other | Follows(src, other, start, size) && |Output(src, other)| == size
      ensures !RoundsOk(src, other)
    {
      StuckFails(src, steps, other, start, size);
    }
  }

  /** Any other way to fill the bytes uses the same bad round. */
  lemma StuckFails(src: Source, steps: seq<Step>, other: seq<Step>, start: nat, size: nat)
    requires Follows(src, steps, start, size) && Stuck(src, steps, start, size)
    requires Follows(src, other, start, size) && |Output(src, other)| == size
    ensures !RoundsOk(src, other)
  {
    var n := |steps|;
    assert steps[..n] == steps && other[..|other|] == other;
    if |other| <= n {
      Determined(src, steps, other, start, size, |other|);
      if |other| < n {
        MoreRoom(src, steps, start, size, |other|);
      }
    } else {
      Determined(src, steps, other, start, size, n);
      assert StepOk(src, other, start, size, n);
    }
  }

  lemma {:induction false} FreqPositive(src: Source, from: nat, n: nat)
    requires n > 0
    ensures Freq(src, from, n, src.length(from)) > 0
  {
    if n > 1 {
      FreqPositive(src, from, n - 1);
    }
  }

  ghost predicate SpentAbove(freq: seq<nat>, k: nat) {
    forall m :: k < m < |freq| ==> freq[m] == 0
  }

  ghost predicate Spent(freq: seq<nat>) { forall m :: 0 <= m < |freq| ==> freq[m] == 0 }

  /** The frequencies of a new round. */
  ghost predicate Counted(src: Source, freq: seq<nat>, round: nat) {
    |freq| == NUM_LEN && forall k :: 0 <= k < NUM_LEN ==> freq[k] == RoundFreq(src, round, k)
  }

  lemma {:induction false} DrawnPrefix(src: Source, from: nat, n: nat, m: nat)
    requires m <= n
    ensures Drawn(src, from, n)[..m] == Drawn(src, from, m)
  {
    if m < n {
      DrawnPrefix(src, from, n - 1, m);
    }
  }

  // ----- the generator's variables against the steps done -----

  /** What is left in the frequency table is what was drawn less what was used. */
  ghost predicate TableOk(src: Source, freq: seq<nat>, steps: seq<Step>, round: nat) {
    |freq| == NUM_LEN && forall k :: 0 <= k < NUM_LEN ==> freq[k] + Uses(steps, round, k) == RoundFreq(src, round, k)
  }

  ghost predicate At(src: Source, freq: seq<nat>, buffer: Buffer, curLen: nat, steps: seq<Step>) {
    && |freq| == NUM_LEN && curLen < NUM_LEN
    && if steps == [] then curLen == 0 && freq[0] == 0
       else
         var round := steps[|steps| - 1].round;
         SpentAbove(freq, curLen) && TableOk(src, freq, steps, round) && buffer == Drawn(src, round, MAX_LEN)
  }

  /** The round goes on exactly if the table is not spent. */
  lemma RoundGoesOn(src: Source, freq: seq<nat>, steps: seq<Step>)
    requires steps != [] && TableOk(src, freq, steps, steps[|steps| - 1].round)
    ensures SameRound(src, steps) <==> !Spent(freq)
  {
    var round := steps[|steps| - 1].round;
    assert forall k :: 0 <= k < NUM_LEN ==> (Left(src, steps, round, k) <==> freq[k] > 0);
  }

  /** A new round has used nothing yet. */
  lemma NewRound(src: Source, freq: seq<nat>, steps: seq<Step>, start: nat, size: nat)
    requires Follows(src, steps, start, size) && Counted(src, freq, Position(steps, start))
    ensures TableOk(src, freq, steps, Position(steps, start))
  {
    RoundsBefore(src, steps, start, size, |steps|);
    assert steps[..|steps|] == steps;
    forall k | 0 <= k < NUM_LEN
      ensures freq[k] + Uses(steps, Position(steps, start), k) == RoundFreq(src, Position(steps, start), k)
    {
      UnusedRound(steps, Position(steps, start), k);
    }
  }

  lemma GreatestLeft(src: Source, freq: seq<nat>, steps: seq<Step>, round: nat, k: nat)
    requires TableOk(src, freq, steps, round) && k < NUM_LEN && freq[k] > 0 && SpentAbove(freq, k)
    ensures Greatest(src, steps, round, k)
  {
  }

  lemma UseOne(src: Source, freq: seq<nat>, steps: seq<Step>, st: Step)
    requires TableOk(src, freq, steps, st.round) && st.k < NUM_LEN && freq[st.k] > 0 && SpentAbove(freq, st.k)
    ensures TableOk(src, freq[st.k := freq[st.k] - 1], steps + [st], st.round)
    ensures SpentAbove(freq[st.k := freq[st.k] - 1], st.k)
  {
    assert (steps + [st])[..|steps|] == steps;
  }

  lemma AtNext(src: Source, freq: seq<nat>, buffer: Buffer, steps: seq<Step>, st: Step)
    requires TableOk(src, freq, steps, st.round) && st.k < NUM_LEN && freq[st.k] > 0 && SpentAbove(freq, st.k)
    requires buffer == Drawn(src, st.round, MAX_LEN)
    ensures At(src, freq[st.k := freq[st.k] - 1], buffer, st.k, steps + [st])
  {
    UseOne(src, freq, steps, st);
  }

  lemma StepFollows(src: Source, steps: seq<Step>, st: Step, start: nat, size: nat)
    requires |Output(src, steps)| < size && Begins(src, steps, start, st.round, st.flip) && Greatest(src, steps, st.round, st.k)
    requires st.copy == !src.coin(st.flip) && st.parted == (st.copy && steps != [] && steps[|steps| - 1].copy)
    requires st.len == Min(MIN_LEN + st.k, size - |Output(src, steps)| - if st.parted then 1 else 0)
    ensures Continues(src, steps, st, start, size)
  {
  }

  class CompressGen {
    const src: Source
    var drawn: nat

    constructor (src: Source)
      ensures this.src == src && drawn == 0
    {
      this.src, drawn := src, 0;
    }

    method GenerateLiterals(ptr: array<byte>, at: nat, size: nat)
      requires at + size <= ptr.Length
      modifies this, ptr
      ensures ptr[..] == Splice(old(ptr[..]), at, Drawn(src, old(drawn), size)) && drawn == old(drawn) + size
    {
      ghost var before := ptr[..];
      for i := 0 to size
        invariant ptr[..] == Splice(before, at, Drawn(src, old(drawn), i)) && drawn == old(drawn) + i
      {
        var x := src.literal(drawn);
        ghost var done, was := Drawn(src, old(drawn), i), ptr[..];
        SpliceStep(before, at, done, x);
        ptr[at + i] := x;
        drawn := drawn + 1;
        assert ptr[..] == was[at + i := x];
        assert Drawn(src, old(drawn), i + 1) == done + [x];
      }
    }

    /** Count `num` drawn lengths; a length out of range ends the program. */
    method GenerateLengths(freq: array<nat>, num: nat) returns (ok: bool)
      requires freq.Length == NUM_LEN
      modifies this, freq
      ensures ok <==> forall j :: old(drawn) <= j < old(drawn) + num ==> src.length(j) < NUM_LEN
      ensures ok ==> drawn == old(drawn) + num
      ensures ok ==> forall k :: 0 <= k < NUM_LEN ==> freq[k] == Freq(src, old(drawn), num, k)
    {
      for i := 0 to NUM_LEN
        invariant drawn == old(drawn) && forall k :: 0 <= k < i ==> freq[k] == 0
      {
        freq[i] := 0;
      }
      for i := 0 to num
        invariant drawn == old(drawn) + i
        invariant forall j :: old(drawn) <= j < old(drawn) + i ==> src.length(j) < NUM_LEN
        invariant forall k :: 0 <= k < NUM_LEN ==> freq[k] == Freq(src, old(drawn), i, k)
      {
        var len := src.length(drawn);
        if !(len < NUM_LEN) {
          return false;
        }
        drawn := drawn + 1;
        freq[len] := freq[len] + 1;
      }
      return true;
    }

    /** The next length with a frequency left, the greatest one.  Only when all are spent is
        there a refill: new literals, then new lengths.  It needs no second one, because a
        refill leaves some frequency positive. */
    method NextLength(freq: array<nat>, buffer: array<byte>, curLen: nat, ghost filled: bool) returns (ok: bool, next: nat)
      requires freq.Length == NUM_LEN && buffer.Length == MAX_LEN && curLen < NUM_LEN
      requires if filled then SpentAbove(freq[..], curLen) else curLen == 0 && freq[0] == 0
      modifies this, freq, buffer
      ensures ok ==> next < NUM_LEN && freq[next] > 0 && SpentAbove(freq[..], next)
      ensures ok ==>
        if filled && !Spent(old(freq[..])) then
          freq[..] == old(freq[..]) && buffer[..] == old(buffer[..]) && drawn == old(drawn)
        else
          && Counted(src, freq[..], old(drawn)) && buffer[..] == Drawn(src, old(drawn), MAX_LEN)
          && drawn == old(drawn) + MAX_LEN + LEN_PER_CHUNK
      ensures ok <==> (filled && !Spent(old(freq[..]))) || LengthsOk(src, old(drawn))
    {
      next := curLen;
      ghost var refilled, k: nat := false, 0;
      while freq[next] == 0
        invariant next < NUM_LEN
        invariant filled || refilled ==> SpentAbove(freq[..], next)
        invariant !filled && !refilled ==> next == 0
        invariant !refilled ==> freq[..] == old(freq[..]) && buffer[..] == old(buffer[..]) && drawn == old(drawn)
        invariant refilled ==> (filled ==> Spent(old(freq[..]))) && Refilled(freq, buffer, old(drawn)) && LengthsOk(src, old(drawn))
        invariant k < NUM_LEN && (refilled ==> k <= next && freq[k] > 0)
        decreases !refilled, next
      {
        if next == 0 {
          ok := Refill(freq, buffer);
          if !ok {
            return;
          }
          k := src.length(old(drawn) + MAX_LEN);
          FreqPositive(src, old(drawn) + MAX_LEN, LEN_PER_CHUNK);
          refilled := true;
          next := NUM_LEN;
        }
        next := next - 1;
      }
      ok := true;
    }

    ghost predicate Refilled(freq: array<nat>, buffer: array<byte>, from: nat)
      reads this, freq, buffer
    {
      && Counted(src, freq[..], from) && buffer[..] == Drawn(src, from, MAX_LEN)
      && drawn == from + MAX_LEN + LEN_PER_CHUNK
    }

    method Refill(freq: array<nat>, buffer: array<byte>) returns (ok: bool)
      requires freq.Length == NUM_LEN && buffer.Length == MAX_LEN
      modifies this, freq, buffer
      ensures ok <==> LengthsOk(src, old(drawn))
      ensures ok ==> Refilled(freq, buffer, old(drawn))
    {
      GenerateLiterals(buffer, 0, MAX_LEN);
      ok := GenerateLengths(freq, LEN_PER_CHUNK);
    }

    /** Fill exactly the first `size` bytes by the steps that the source's rules give for the
        draws, if and only if the rounds that this takes draw no length out of range. */
    method LZGenerateData(ptr: array<byte>, size: nat) returns (ok: bool, ghost steps: seq<Step>)
      requires size <= ptr.Length
      modifies this, ptr
      ensures ptr[size..] == old(ptr[size..])
      ensures Follows(src, steps, old(drawn), size) && RoundsOk(src, steps)
      ensures ok ==> ptr[..size] == Output(src, steps) && drawn == Position(steps, old(drawn))
      ensures ok <==> Fillable(src, old(drawn), size)
      ensures !ok ==> Stuck(src, steps, old(drawn), size)
      ensures InRange(src) ==> ok
    {
      var freq := new nat[NUM_LEN];
      var buffer := new byte[MAX_LEN];
      var curLen, i, lastWasMatch := 0, 0, false;
      freq[0] := 0;
      steps := [];
      while i < size
        invariant i <= size && ptr[size..] == old(ptr[size..])
        invariant At(src, freq[..], buffer[..], curLen, steps) && drawn == Position(steps, old(drawn))
        invariant Follows(src, steps, old(drawn), size) && ptr[..i] == Output(src, steps)
        invariant lastWasMatch == (steps != [] && steps[|steps| - 1].copy) && RoundsOk(src, steps)
        decreases size - i
      {
        ghost var round, st;
        ok, curLen, round := Choose(freq, buffer, curLen, steps != [], steps, old(drawn), size);
        if !ok {
          StuckFailsAll(src, steps, old(drawn), size);
          return;
        }
        i, lastWasMatch, st := Advance(ptr, freq, buffer, i, curLen, lastWasMatch, size, steps, old(drawn), round);
        FollowsAppend(src, steps, st, old(drawn), size);
        RoundsAppend(src, steps, st);
        steps := steps + [st];
      }
      ok := true;
    }

    /** One length is used up, by the step that follows. */
    method Advance(ptr: array<byte>, freq: array<nat>, buffer: array<byte>, i: nat, k: nat, lastWasMatch: bool, size: nat,
                   ghost steps: seq<Step>, ghost start: nat, ghost round: nat)
      returns (i': nat, isMatch: bool, ghost st: Step)
      requires freq.Length == NUM_LEN && buffer.Length == MAX_LEN && ptr != buffer && i < size <= ptr.Length
      requires k < NUM_LEN && freq[k] > 0 && SpentAbove(freq[..], k) && TableOk(src, freq[..], steps, round)
      requires buffer[..] == Drawn(src, round, MAX_LEN) && Greatest(src, steps, round, k)
      requires Begins(src, steps, start, round, drawn) && ptr[..i] == Output(src, steps)
      requires lastWasMatch == (steps != [] && steps[|steps| - 1].copy)
      modifies this, ptr, freq
      ensures ptr[size..] == old(ptr[size..])
      ensures Continues(src, steps, st, start, size) && isMatch == st.copy && st.round == round
      ensures At(src, freq[..], buffer[..], k, steps + [st]) && drawn == After(st)
      ensures i < i' <= size && ptr[..i'] == Output(src, steps) + BytesOf(src, st)
    {
      UseLength(freq, k);
      i', isMatch, st := DoStep(ptr, buffer[..], i, k, lastWasMatch, size, steps, start, round);
      AtNext(src, old(freq[..]), buffer[..], steps, st);
    }

    method UseLength(freq: array<nat>, k: nat)
      requires k < freq.Length && freq[k] > 0
      modifies freq
      ensures freq[..] == old(freq[..])[k := old(freq[k]) - 1]
    {
      freq[k] := freq[k] - 1;
    }

    /** A length is used, in the step that follows. */
    method DoStep(ptr: array<byte>, buffer: Buffer, i: nat, k: nat, lastWasMatch: bool, size: nat,
                  ghost steps: seq<Step>, ghost start: nat, ghost round: nat)
      returns (i': nat, isMatch: bool, ghost st: Step)
      requires i < size <= ptr.Length && k < NUM_LEN
      requires buffer == Drawn(src, round, MAX_LEN) && Greatest(src, steps, round, k)
      requires Begins(src, steps, start, round, drawn) && ptr[..i] == Output(src, steps)
      requires lastWasMatch == (steps != [] && steps[|steps| - 1].copy)
      modifies this, ptr
      ensures ptr[size..] == old(ptr[size..])
      ensures st.round == round && st.k == k && isMatch == st.copy && drawn == After(st)
      ensures Continues(src, steps, st, start, size)
      ensures i < i' <= size && ptr[..i'] == Output(src, steps) + BytesOf(src, st)
    {
      i', isMatch, st := Put(ptr, i, MIN_LEN + k, size, buffer, lastWasMatch, round, k);
      StepFollows(src, steps, st, start, size);
    }

    /** The next length, against the steps done so far. */
    method Choose(freq: array<nat>, buffer: array<byte>, curLen: nat, ghost filled: bool,
                  ghost steps: seq<Step>, ghost start: nat, ghost size: nat)
      returns (ok: bool, next: nat, ghost round: nat)
      requires freq.Length == NUM_LEN && buffer.Length == MAX_LEN
      requires At(src, freq[..], buffer[..], curLen, steps) && drawn == Position(steps, start)
      requires Follows(src, steps, start, size) && filled == (steps != []) && RoundsOk(src, steps)
      modifies this, freq, buffer
      ensures if ok then LengthsOk(src, round) else !SameRound(src, steps) && !LengthsOk(src, Position(steps, start))
      ensures ok ==>
        && next < NUM_LEN && freq[next] > 0 && SpentAbove(freq[..], next) && TableOk(src, freq[..], steps, round)
        && buffer[..] == Drawn(src, round, MAX_LEN) && Greatest(src, steps, round, next)
      ensures ok ==> Begins(src, steps, start, round, drawn)
    {
      ghost var before := freq[..];
      round := 0;
      ok, next := NextLength(freq, buffer, curLen, filled);
      if filled {
        RoundGoesOn(src, before, steps);
      }
      if ok {
        if filled && !Spent(before) {
          round := steps[|steps| - 1].round;
        } else {
          round := old(drawn);
          NewRound(src, freq[..], steps, start, size);
        }
        GreatestLeft(src, freq[..], steps, round, next);
      }
    }

    /** Flip the coin: literals, or a copy, which a single literal keeps apart from a copy
        before it. */
    method Put(ptr: array<byte>, i: nat, want: nat, size: nat, buffer: Buffer, lastWasMatch: bool, ghost round: nat, ghost k: nat)
      returns (i': nat, isMatch: bool, ghost st: Step)
      requires i < size <= ptr.Length && want == MIN_LEN + k <= MAX_LEN && buffer == Drawn(src, round, MAX_LEN)
      modifies this, ptr
      ensures st.round == round && st.k == k && st.flip == old(drawn) && st.copy == isMatch == !src.coin(old(drawn))
      ensures st.parted == (isMatch && lastWasMatch)
      ensures st.len == Min(want, size - i - if st.parted then 1 else 0)
      ensures i < i' == i + |BytesOf(src, st)| <= size && drawn == After(st)
      ensures ptr[..i'] == old(ptr[..i]) + BytesOf(src, st) && ptr[size..] == old(ptr[size..])
    {
      var flip := src.coin(drawn);
      drawn := drawn + 1;
      var len := if want > size - i then size - i else want;
      if flip {
        i' := PutLiterals(ptr, i, len, size);
        st := Step(round, k, old(drawn), false, false, len);
        return i', false, st;
      }
      i', st := PutMatch(ptr, i, len, size, buffer, lastWasMatch, round, k, old(drawn));
      isMatch := true;
    }

    method PutMatch(ptr: array<byte>, i: nat, want: nat, size: nat, buffer: Buffer, lastWasMatch: bool,
                    ghost round: nat, ghost k: nat, ghost flip: nat)
      returns (i': nat, ghost st: Step)
      requires 0 < want && i + want <= size <= ptr.Length && want <= MAX_LEN
      requires buffer == Drawn(src, round, MAX_LEN) && drawn == flip + 1
      modifies this, ptr
      ensures st == Step(round, k, flip, true, lastWasMatch, Min(want, size - i - if lastWasMatch then 1 else 0))
      ensures i < i' == i + |BytesOf(src, st)| <= size && drawn == After(st)
      ensures ptr[..i'] == old(ptr[..i]) + BytesOf(src, st) && ptr[size..] == old(ptr[size..])
    {
      var len := want;
      i' := i;
      if lastWasMatch {
        i' := PutLiterals(ptr, i, 1, size);
        if len > size - i' {
          len := size - i';
        }
      }
      st := Step(round, k, flip, true, lastWasMatch, len);
      ghost var lead := if lastWasMatch then Drawn(src, flip + 1, 1) else [];
      assert ptr[..i'] == old(ptr[..i]) + lead;
      DrawnPrefix(src, round, MAX_LEN, len);
      i' := PutCopy(ptr, i', buffer[..len], size);
      Concatenated(old(ptr[..i]), lead, Drawn(src, round, len));
    }

    method PutLiterals(ptr: array<byte>, i: nat, len: nat, size: nat) returns (i': nat)
      requires i + len <= size <= ptr.Length
      modifies this, ptr
      ensures i' == i + len && drawn == old(drawn) + len
      ensures ptr[..i'] == old(ptr[..i]) + Drawn(src, old(drawn), len) && ptr[size..] == old(ptr[size..])
    {
      GenerateLiterals(ptr, i, len);
      i' := i + len;
      SpliceParts(old(ptr[..]), i, Drawn(src, old(drawn), len), size);
    }

    method PutCopy(ptr: array<byte>, i: nat, data: Buffer, size: nat) returns (i': nat)
      requires i + |data| <= size <= ptr.Length
      modifies ptr
      ensures i' == i + |data|
      ensures ptr[..i'] == old(ptr[..i]) + data && ptr[size..] == old(ptr[size..])
    {
      CopyInto(ptr, i, data);
      i' := i + |data|;
      SpliceParts(old(ptr[..]), i, data, size);
    }
  }

  lemma Concatenated(a: Buffer, b: Buffer, c: Buffer)
    ensures a + b + c == a + (b + c)
  {
  }

  lemma SpliceParts(buf: Buffer, at: nat, data: Buffer, size: nat)
    requires at + |data| <= size <= |buf|
    ensures Splice(buf, at, data)[..at + |data|] == buf[..at] + data
    ensures Splice(buf, at, data)[size..] == buf[size..]
  {
  }

  /** Where the flip of the next step is: in the same round, or after a new round's draws. */
  ghost predicate Begins(src: Source, steps: seq<Step>, start: nat, round: nat, flip: nat) {
    var at := Position(steps, start);
    if SameRound(src, steps) then round == steps[|steps| - 1].round && flip == at
    else round == at && flip == at + MAX_LEN + LEN_PER_CHUNK
  }
}
