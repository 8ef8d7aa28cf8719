/** The constructor's arithmetic: `ceilToPow2`, the block layout for a requested size, and
    why masking with `size - 1` is wrapping around a block. */
module QueueLayout {
  import opened SpscQueue

  function Pow2(n: nat): (r: nat)
    ensures r >= 1
  {
    if n == 0 then 1 else 2 * Pow2(n - 1)
  }

  lemma {:induction false} Pow2Monotone(a: nat, b: nat)
    requires a <= b
    ensures Pow2(a) <= Pow2(b) && (a < b ==> 2 * Pow2(a) <= Pow2(b))
  {
    if a < b {
      Pow2Monotone(a, b - 1);
    }
  }

  // ----- bits of a natural number -----

  predicate Bit(x: nat, i: nat) {
    if i == 0 then x % 2 == 1 else Bit(x / 2, i - 1)
  }

  function Or(a: nat, b: nat): nat {
    if a == 0 && b == 0 then 0
    else 2 * Or(a / 2, b / 2) + if a % 2 == 1 || b % 2 == 1 then 1 else 0
  }

  function And(a: nat, b: nat): nat {
    if a == 0 || b == 0 then 0
    else 2 * And(a / 2, b / 2) + if a % 2 == 1 && b % 2 == 1 then 1 else 0
  }

  function ShiftRight(x: nat, n: nat): nat {
    if n == 0 then x else ShiftRight(x / 2, n - 1)
  }

  lemma {:induction false} OrBit(a: nat, b: nat, i: nat)
    ensures Bit(Or(a, b), i) == (Bit(a, i) || Bit(b, i))
  {
    assert Or(a, b) / 2 == Or(a / 2, b / 2);
    if i > 0 {
      OrBit(a / 2, b / 2, i - 1);
    }
  }

  lemma {:induction false} ShiftBit(x: nat, n: nat, i: nat)
    ensures Bit(ShiftRight(x, n), i) == Bit(x, i + n)
  {
    if n > 0 {
      ShiftBit(x / 2, n - 1, i);
    }
  }

  /** `x` has exactly the bits below `n`. */
  lemma {:induction false} AllOnes(x: nat, n: nat)
    requires forall i: nat :: Bit(x, i) <==> i < n
    ensures x == Pow2(n) - 1
    decreases n, x
  {
    assert Bit(x, 0) <==> 0 < n;
    forall i: nat ensures Bit(x / 2, i) <==> i + 1 < n {
      assert Bit(x, i + 1) == Bit(x / 2, i);
    }
    if n > 0 {
      AllOnes(x / 2, n - 1);
    } else if x > 0 {
      AllOnes(x / 2, 0);
    }
  }

  lemma {:induction false} NoHighBits(x: nat, n: nat, i: nat)
    requires x < Pow2(n) <= Pow2(i)
    ensures !Bit(x, i)
    decreases i
  {
    if i > 0 {
      if n == 0 {
        assert x == 0;
        NoHighBits(0, 0, i - 1);
      } else {
        NoHighBits(x / 2, n - 1, i - 1);
      }
    }
  }

  lemma {:induction false} TopBit(x: nat, n: nat)
    requires Pow2(n) <= x < Pow2(n + 1)
    ensures Bit(x, n)
  {
    if n > 0 {
      TopBit(x / 2, n - 1);
    }
  }

  // ----- ceilToPow2 -----

  /** The top `run` bits below `len` are set and nothing above is. */
  ghost predicate Smeared(x: nat, len: nat, run: nat) {
    forall i: nat :: (i >= len ==> !Bit(x, i)) && (i < len <= i + run ==> Bit(x, i))
  }

  lemma SmearStep(x: nat, len: nat, run: nat)
    requires Smeared(x, len, run)
    ensures Smeared(Or(x, ShiftRight(x, run)), len, 2 * run)
  {
    forall i: nat ensures (i >= len ==> !Bit(Or(x, ShiftRight(x, run)), i))
                       && (i < len <= i + 2 * run ==> Bit(Or(x, ShiftRight(x, run)), i)) {
      OrBit(x, ShiftRight(x, run), i);
      ShiftBit(x, run, i);
      assert Bit(x, i) || !Bit(x, i);
      assert Bit(x, i + run) || !Bit(x, i + run);
    }
  }

  /** Number of bits of `x`. */
  ghost function BitLength(x: nat): (n: nat)
    ensures x < Pow2(n) && (n > 0 ==> Pow2(n - 1) <= x)
  {
    if x == 0 then 0 else BitLength(x / 2) + 1
  }

  lemma SmearedAtFirst(x: nat)
    ensures Smeared(x, BitLength(x), 1)
  {
    var len := BitLength(x);
    forall i: nat ensures (i >= len ==> !Bit(x, i)) && (i < len <= i + 1 ==> Bit(x, i)) {
      if i >= len {
        Pow2Monotone(len, i);
        NoHighBits(x, len, i);
      } else if len == i + 1 {
        TopBit(x, i);
      }
    }
  }

  /** size_t is 64 bits wide. */
  const SIZE_BITS: nat := 64

  const SIZE_T: nat := Pow2(SIZE_BITS)

  ghost predicate IsPow2(p: nat) { exists n: nat :: p == Pow2(n) }

  /** `p` is the least power of two that is at least `x`. */
  ghost predicate LeastPow2(p: nat, x: nat) {
    IsPow2(p) && p >= x && forall n: nat :: Pow2(n) >= x ==> Pow2(n) >= p
  }

  lemma SmearedIsOnes(x: nat, len: nat)
    requires Smeared(x, len, 64) && len <= 64
    ensures x == Pow2(len) - 1
  {
    forall j: nat ensures Bit(x, j) <==> j < len { assert j >= len ==> !Bit(x, j); }
    AllOnes(x, len);
  }

  /** The bit trick: smear the top bit of `arg - 1` downwards, then add one.  The result is
      the least power of two at or above `arg`, unless that does not fit, when it is 0. */
  method CeilToPow2(arg: nat) returns (r: nat)
    requires arg < SIZE_T
    ensures arg == 0 ==> r == 0
    ensures 1 <= arg <= Pow2(SIZE_BITS - 1) ==> LeastPow2(r, arg)
    ensures Pow2(SIZE_BITS - 1) < arg ==> r == 0
  {
    var x: nat := if arg == 0 then SIZE_T - 1 else arg - 1;
    ghost var before, len := x, BitLength(x);
    SmearedAtFirst(x);
    SmearStep(x, len, 1);
    x := Or(x, ShiftRight(x, 1));
    SmearStep(x, len, 2);
    x := Or(x, ShiftRight(x, 2));
    SmearStep(x, len, 4);
    x := Or(x, ShiftRight(x, 4));
    var i := 1;
    while i < 8
      invariant i in {1, 2, 4, 8}
      invariant Smeared(x, len, 8 * i)
      decreases 8 - i
    {
      SmearStep(x, len, 8 * i);
      x := Or(x, ShiftRight(x, 8 * i));
      i := 2 * i;
    }
    BitLengthFits(before, len, SIZE_BITS);
    SmearedIsOnes(x, len);
    r := if x + 1 == SIZE_T then 0 else x + 1;
    LengthOfCeil(arg, before, len, SIZE_BITS);
  }

  lemma BitLengthFits(x: nat, len: nat, w: nat)
    requires x < Pow2(w) && (len > 0 ==> Pow2(len - 1) <= x)
    ensures len <= w
  {
    if len > w {
      Pow2Monotone(w, len - 1);
    }
  }

  lemma LengthOfCeil(arg: nat, x: nat, len: nat, w: nat)
    requires w >= 1 && arg < Pow2(w) && x == (if arg == 0 then Pow2(w) - 1 else arg - 1) && len == BitLength(x)
    ensures arg == 0 || arg > Pow2(w - 1) ==> Pow2(len) == Pow2(w)
    ensures 1 <= arg <= Pow2(w - 1) ==> LeastPow2(Pow2(len), arg) && Pow2(len) != Pow2(w)
  {
    BitLengthFits(x, len, w);
    if x >= Pow2(w - 1) {
      if len < w {
        Pow2Monotone(len, w - 1);
      }
    } else {
      BitLengthFits(x, len, w - 1);
      Pow2Monotone(len, w - 1);
      LengthIsLeast(arg, len);
    }
  }

  lemma LengthIsLeast(arg: nat, len: nat)
    requires arg >= 1 && len == BitLength(arg - 1)
    ensures LeastPow2(Pow2(len), arg)
  {
    forall n: nat | Pow2(n) >= arg
      ensures Pow2(n) >= Pow2(len)
    {
      if n < len {
        Pow2Monotone(n, len - 1);
      } else {
        Pow2Monotone(len, n);
      }
    }
  }

  // ----- masks -----

  lemma {:induction false} MaskIsMod(a: nat, k: nat)
    ensures And(a, Pow2(k) - 1) == a % Pow2(k)
  {
    if k > 0 {
      var half := Pow2(k - 1);
      MaskIsMod(a / 2, k - 1);
      assert (Pow2(k) - 1) / 2 == half - 1;
      assert a % (2 * half) == 2 * ((a / 2) % half) + a % 2 by {
        DoubleMod(a, half);
      }
    }
  }

  lemma DoubleMod(a: nat, half: nat)
    requires half >= 1
    ensures a % (2 * half) == 2 * ((a / 2) % half) + a % 2
  {
    var r := 2 * ((a / 2) % half) + a % 2;
    var c := (a / 2) / half;
    assert a / 2 == c * half + (a / 2) % half;
    assert a == c * (2 * half) + r;
    ModUnique(a, 2 * half, c, r);
  }

  lemma AtLeastOnce(k: nat, m: nat)
    requires k >= 1
    ensures k * m >= m
  {
  }

  lemma ModUnique(a: nat, m: nat, c: nat, r: nat)
    requires m >= 1 && a == c * m + r && r < m
    ensures a % m == r
  {
    var c', r' := a / m, a % m;
    assert a == c' * m + r';
    assert (c' - c) * m == c' * m - c * m && (c - c') * m == c * m - c' * m;
    if c' > c {
      AtLeastOnce(c' - c, m);
    } else if c' < c {
      AtLeastOnce(c - c', m);
    }
  }

  lemma MaskIsInc(i: nat, k: nat)
    requires i < Pow2(k)
    ensures And(i + 1, Pow2(k) - 1) == Inc(i, Pow2(k))
  {
    MaskIsMod(i + 1, k);
    if i + 1 == Pow2(k) {
      ModUnique(i + 1, Pow2(k), 1, 0);
    } else {
      ModUnique(i + 1, Pow2(k), 0, i + 1);
    }
  }

  lemma MaskIsDist(i: nat, j: nat, k: nat, w: nat)
    requires k < w && i < Pow2(k) <= Pow2(w) && j < Pow2(k)
    ensures And(if i <= j then j - i else j - i + Pow2(w), Pow2(k) - 1) == Dist(i, j, Pow2(k))
  {
    var size := Pow2(k);
    if i <= j {
      MaskIsMod(j - i, k);
      ModUnique(j - i, size, 0, j - i);
    } else {
      var c := PowerSplit(k, w);
      MaskIsMod(j - i + Pow2(w), k);
      assert (c - 1) * size == c * size - size;
      ModUnique(j - i + Pow2(w), size, c - 1, j - i + size);
    }
  }

  /** In a block of a power-of-two size, `(i + 1) & sizeMask` is `Inc` and
      `(j - i) & sizeMask`, with `j - i` taken modulo 2^w, is `Dist`. */
  lemma MaskIsWrap(i: nat, j: nat, k: nat, w: nat)
    requires k < w && i < Pow2(k) <= Pow2(w) && j < Pow2(k)
    ensures And(i + 1, Pow2(k) - 1) == Inc(i, Pow2(k))
    ensures And(if i <= j then j - i else j - i + Pow2(w), Pow2(k) - 1) == Dist(i, j, Pow2(k))
  {
    MaskIsInc(i, k);
    MaskIsDist(i, j, k, w);
  }

  lemma {:induction false} PowerSplit(k: nat, n: nat) returns (c: nat)
    requires k <= n
    ensures c >= 1 && Pow2(n) == c * Pow2(k)
  {
    if k == n {
      c := 1;
    } else {
      var d := PowerSplit(k, n - 1);
      c := 2 * d;
    }
  }

  // ----- the layout for a requested size -----

  datatype Layout = Layout(count: nat, size: nat)

  /** One block if it is at most twice the maximum, several maximal blocks otherwise. */
  function LayoutOf(requested: nat, ceil: nat, maxBlock: nat): (r: Layout)
    requires maxBlock >= 2
  {
    if ceil > maxBlock * 2 then Layout((requested + maxBlock * 2 - 3) / (maxBlock - 1), maxBlock)
    else Layout(1, ceil)
  }

  /** What the layout guarantees to hold at any time: with several blocks one may be half
      read, so one block does not count. */
  ghost predicate Holds(layout: Layout, n: nat) {
    if layout.count == 1 then layout.size - 1 >= n
    else layout.count >= 2 && (layout.count - 1) * (layout.size - 1) >= n
  }

  lemma MoreThanOnce(k: nat, m: nat)
    requires k * m > m
    ensures k >= 2
  {
  }

  /** One block has the least power of two above the requested size; several are of the maximal
      size, and as few as can hold the request with one of them left aside. */
  lemma LayoutIs(requested: nat, ceil: nat, maxBlock: nat)
    requires maxBlock >= 2 && LeastPow2(ceil, requested + 1)
    ensures var r := LayoutOf(requested, ceil, maxBlock);
      if ceil <= maxBlock * 2 then r.count == 1 && LeastPow2(r.size, requested + 1)
      else
        && r.size == maxBlock && r.count >= 2
        && (r.count - 2) * (maxBlock - 1) < requested <= (r.count - 1) * (maxBlock - 1)
  {
    if ceil > maxBlock * 2 {
      var d := maxBlock - 1;
      LayoutHolds(requested, ceil, maxBlock);
      var r := LayoutOf(requested, ceil, maxBlock);
      var total := requested + 2 * d - 1;
      assert total == r.count * d + total % d;
      assert (r.count - 1) * d == r.count * d - d && (r.count - 2) * d == r.count * d - 2 * d;
    }
  }

  /** Either layout holds the requested number of elements. */
  lemma LayoutHolds(requested: nat, ceil: nat, maxBlock: nat)
    requires maxBlock >= 2 && LeastPow2(ceil, requested + 1)
    ensures Holds(LayoutOf(requested, ceil, maxBlock), requested)
    ensures LayoutOf(requested, ceil, maxBlock).count >= 1
    ensures LayoutOf(requested, ceil, maxBlock).size >= 2 <==> requested >= 1
  {
    assert Pow2(0) == 1;
    if ceil > maxBlock * 2 {
      var d := maxBlock - 1;
      var total := requested + maxBlock * 2 - 3;
      var count := total / d;
      assert total == requested + 2 * d - 1;
      assert count * d > total - d by {
        assert total == count * d + total % d;
      }
      assert (count - 1) * d == count * d - d;
      MoreThanOnce(count, d);
    }
  }
}
