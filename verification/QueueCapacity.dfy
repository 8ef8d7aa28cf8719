/** The two loops of `ReaderWriterQueue` that run while nobody else touches the queue: the
    constructor, which links the initial blocks, and `max_capacity`, which walks them. */
module QueueCapacity {

  import opened SpscQueue
  import opened SpscProof
  import opened SpscRuns
  import opened QueueLayout

  function RawBlock<T>(size: nat, next: nat): Block<T> {
    Block(size, 0, 0, 0, 0, next, seq(size, _ => Raw))
  }

  /** Link `count` new blocks into a ring: each new block takes the place after the last one
      and points back to the first. */
  method LinkBlocks<T>(count: nat, size: nat) returns (blocks: seq<Block<T>>)
    requires count >= 1
    ensures |blocks| == count
    ensures forall i :: 0 <= i < count ==> blocks[i] == RawBlock(size, if i + 1 == count then 0 else i + 1)
  {
    blocks := [];
    for n := 0 to count
      invariant |blocks| == n
      invariant forall i :: 0 <= i < n ==> blocks[i] == RawBlock(size, if i + 1 == n then 0 else i + 1)
    {
      if n > 0 {
        blocks := blocks[n - 1 := blocks[n - 1].(next := n)];
      }
      blocks := blocks + [RawBlock(size, 0)];
    }
  }

  /** The constructor builds the queue that all runs start from. */
  method Construct<T>(requested: nat, maxBlock: nat, mayAlloc: bool) returns (q: Queue<T>, ceil: nat)
    requires requested + 1 <= Pow2(SIZE_BITS - 1) && maxBlock >= 2
    ensures LeastPow2(ceil, requested + 1)
    ensures q == Constructed<T>(requested, ceil, maxBlock, mayAlloc)
  {
    BelowWord(requested + 1);
    ceil := CeilToPow2(requested + 1);
    q := Build<T>(requested, ceil, maxBlock, mayAlloc);
  }

  method Build<T>(requested: nat, ceil: nat, maxBlock: nat, mayAlloc: bool) returns (q: Queue<T>)
    requires maxBlock >= 2 && LeastPow2(ceil, requested + 1)
    ensures q == Constructed<T>(requested, ceil, maxBlock, mayAlloc)
  {
    LayoutHolds(requested, ceil, maxBlock);
    var layout := LayoutOf(requested, ceil, maxBlock);
    var blocks := LinkBlocks<T>(layout.count, layout.size);
    q := Queue(blocks, 0, 0, layout.size, maxBlock, mayAlloc, PIdle, CIdle);
    SameAsEmpty(layout.count, layout.size, maxBlock, mayAlloc, q);
  }

  lemma BelowWord(n: nat)
    requires n <= Pow2(SIZE_BITS - 1)
    ensures n < SIZE_T
  {
    assert Pow2(SIZE_BITS) == 2 * Pow2(SIZE_BITS - 1);
  }

  lemma SameAsEmpty<T>(count: nat, size: nat, maxBlock: nat, mayAlloc: bool, q: Queue<T>)
    requires count >= 1 && q == Queue(q.blocks, 0, 0, size, maxBlock, mayAlloc, PIdle, CIdle) && |q.blocks| == count
    requires forall i :: 0 <= i < count ==> q.blocks[i] == RawBlock(size, if i + 1 == count then 0 else i + 1)
    ensures q == EmptyQueue<T>(count, size, maxBlock, mayAlloc)
  {
    assert q.blocks == EmptyQueue<T>(count, size, maxBlock, mayAlloc).blocks;
  }

  /** The slots of some blocks that can be in use at once. */
  function Capacity<T>(blocks: seq<Block<T>>, path: seq<nat>): int {
    if path == [] then 0 else Capacity(blocks, path[..|path| - 1]) + Get(blocks, path[|path| - 1]).size - 1
  }

  /** `max_capacity` counts every block of the ring once and comes back to the first. */
  method MaxCapacity<T>(q: Queue<T>, ghost sh: Shadow) returns (r: int)
    requires RingOk(q, sh)
    ensures r == Capacity(q.blocks, sh.ring)
  {
    var block := q.frontBlock;
    r := q.blocks[block].size - 1;
    assert Linked(q.blocks, sh, 0);
    block := q.blocks[block].next;
    ghost var n := 1;
    assert Capacity(q.blocks, sh.ring[..1]) == r by {
      assert sh.ring[..1][..0] == [];
    }
    while block != q.frontBlock
      invariant 1 <= n <= |sh.ring| && block == (if n == |sh.ring| then sh.ring[0] else sh.ring[n])
      invariant r == Capacity(q.blocks, sh.ring[..n])
      decreases |sh.ring| - n
    {
      r := r + q.blocks[block].size - 1;
      assert Linked(q.blocks, sh, n);
      block := q.blocks[block].next;
      assert sh.ring[..n + 1][..n] == sh.ring[..n];
      n := n + 1;
    }
    assert n == |sh.ring|;
    assert sh.ring[..n] == sh.ring;
  }

  lemma {:induction false} EqualBlocks<T>(blocks: seq<Block<T>>, path: seq<nat>, size: nat)
    requires forall i :: 0 <= i < |path| ==> Get(blocks, path[i]).size == size
    ensures Capacity(blocks, path) == |path| * (size - 1)
  {
    if path != [] {
      EqualBlocks(blocks, path[..|path| - 1], size);
      assert |path| * (size - 1) == (|path| - 1) * (size - 1) + size - 1;
    }
  }

  /** A new queue reports at least the capacity that was asked for. */
  lemma NewQueueHasCapacity<T>(requested: nat, ceil: nat, maxBlock: nat, mayAlloc: bool)
    requires maxBlock >= 2 && LeastPow2(ceil, requested + 1)
    ensures var q := Constructed<T>(requested, ceil, maxBlock, mayAlloc);
      Capacity(q.blocks, StartShadow(|q.blocks|).ring) >= requested
  {
    var layout := LayoutOf(requested, ceil, maxBlock);
    LayoutHolds(requested, ceil, maxBlock);
    var q := Constructed<T>(requested, ceil, maxBlock, mayAlloc);
    EqualBlocks(q.blocks, StartShadow(|q.blocks|).ring, layout.size);
    if layout.count > 1 {
      OneMore(layout.count, layout.size - 1);
    }
  }

  lemma OneMore(count: nat, m: int)
    requires count >= 2 && (count - 1) * m >= 0
    ensures count * m >= (count - 1) * m
  {
    assert m < 0 ==> (count - 1) * m < 0;
    assert count * m == (count - 1) * m + m;
  }
}
