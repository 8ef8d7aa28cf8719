/** The index arithmetic of the queue.  The source masks with `size - 1`, which wraps around a
    block only if its size is a power of two; the machine of module SpscQueue wraps.  In every
    run, blocks allocated on the way included, the two are the same. */
module QueueMasks {
  import opened SpscQueue
  import opened SpscProof
  import opened SpscRuns
  import opened QueueLayout

  /** A power of two that fits `size_t`. */
  ghost predicate MaskSize(n: nat) { IsPow2(n) && n <= Pow2(SIZE_BITS - 1) }

  ghost predicate MaskSizes<T>(q: Queue<T>) {
    && MaskSize(q.maxBlock) && MaskSize(q.largest)
    && (forall id :: 0 <= id < |q.blocks| ==> MaskSize(q.blocks[id].size))
    && (q.p.PLink? ==> MaskSize(q.p.made.size))
  }

  // ----- sizes are powers of two -----

  /** Below the maximum the largest size is doubled, which does not exceed it. */
  lemma DoubledFits(a: nat, b: nat)
    requires MaskSize(a) && MaskSize(b) && a < b
    ensures MaskSize(2 * a) && 2 * a <= b
  {
    var i: nat :| a == Pow2(i);
    var j: nat :| b == Pow2(j);
    if j <= i {
      Pow2Monotone(j, i);
    } else {
      Pow2Monotone(i, j);
    }
    assert 2 * a == Pow2(i + 1);
  }

  lemma NewBlockIsMask<T>(q: Queue<T>)
    requires MaskSizes(q)
    ensures MaskSize(NewBlockSize(q))
  {
    if q.largest < q.maxBlock {
      DoubledFits(q.largest, q.maxBlock);
    }
  }

  lemma ProducerKeepsLimits<T>(q: Queue<T>, pm: ProducerMove<T>)
    ensures var q' := ProducerStep(q, pm).q;
      q'.maxBlock == q.maxBlock && (q'.largest == q.largest || q'.largest == NewBlockSize(q))
  {
  }

  lemma MadeSize<T>(q: Queue<T>, pm: ProducerMove<T>)
    requires ProducerStep(q, pm).q.p.PLink?
    ensures ProducerStep(q, pm).q.p.made.size == NewBlockSize(q)
  {
    assert q.p.PAlloc?;
  }

  lemma MaskProducer<T>(q: Queue<T>, pm: ProducerMove<T>)
    requires MaskSizes(q)
    ensures MaskSizes(ProducerStep(q, pm).q)
  {
    NewBlockIsMask(q);
    ProducerKeepsLimits(q, pm);
    if ProducerStep(q, pm).q.p.PLink? {
      MadeSize(q, pm);
    }
    if !q.p.PLink? {
      SameSizes(q, pm);
    }
  }

  lemma ConsumerKeepsMax<T>(q: Queue<T>, cm: ConsumerMove)
    ensures ConsumerStep(q, cm).q.maxBlock == q.maxBlock
  {
  }

  lemma MaskConsumer<T>(q: Queue<T>, cm: ConsumerMove)
    requires MaskSizes(q)
    ensures MaskSizes(ConsumerStep(q, cm).q)
  {
    SameSizesConsumer(q, cm);
    ConsumerKeepsMax(q, cm);
  }

  lemma {:induction false} RunMaskSizes<T>(q0: Queue<T>, moves: seq<Move<T>>)
    requires MaskSizes(q0)
    ensures MaskSizes(Exec(q0, moves).q)
  {
    if moves != [] {
      RunMaskSizes(q0, moves[..|moves| - 1]);
      var prior := Exec(q0, moves[..|moves| - 1]).q;
      match moves[|moves| - 1] {
        case ByProducer(pm) => MaskProducer(prior, pm);
        case ByConsumer(cm) => MaskConsumer(prior, cm);
      }
    }
  }

  lemma CeilFits(ceil: nat, x: nat, k: nat)
    requires LeastPow2(ceil, x) && x <= Pow2(k)
    ensures ceil <= Pow2(k)
  {
  }

  lemma ConstructedMaskSizes<T>(requested: nat, ceil: nat, maxBlock: nat, mayAlloc: bool)
    requires maxBlock >= 2 && MaskSize(maxBlock) && LeastPow2(ceil, requested + 1) && requested + 1 <= Pow2(SIZE_BITS - 1)
    ensures MaskSizes(Constructed<T>(requested, ceil, maxBlock, mayAlloc))
  {
    LayoutIs(requested, ceil, maxBlock);
    CeilFits(ceil, requested + 1, SIZE_BITS - 1);
  }

  // ----- how allocated blocks grow -----

  /** The size of the `j`-th block allocated after blocks of `size` slots: doubled each time, up
      to the maximum. */
  function GrownSize(size: nat, j: nat, maxBlock: nat): nat {
    if size >= maxBlock then size else if size * Pow2(j) >= maxBlock then maxBlock else size * Pow2(j)
  }

  ghost predicate Grown<T>(q: Queue<T>, layout: Layout) {
    var made := |q.blocks| - layout.count;
    && made >= 0
    && q.largest == GrownSize(layout.size, if q.p.PLink? then made + 1 else made, q.maxBlock)
    && (q.p.PLink? ==> q.p.made.size == q.largest)
    && (forall id :: 0 <= id < layout.count ==> q.blocks[id].size == layout.size)
    && (forall id :: layout.count <= id < |q.blocks| ==>
          q.blocks[id].size == GrownSize(layout.size, id - layout.count + 1, q.maxBlock))
  }

  lemma GrownNext(size: nat, j: nat, maxBlock: nat)
    requires MaskSize(size) && MaskSize(maxBlock)
    ensures var now := GrownSize(size, j, maxBlock);
      GrownSize(size, j + 1, maxBlock) == if now >= maxBlock then now else 2 * now
  {
    assert size * Pow2(j + 1) == 2 * (size * Pow2(j));
    if size < maxBlock && size * Pow2(j) < maxBlock {
      var i: nat :| size == Pow2(i);
      ProductOfPowers(i, j);
      Pow2Below(i + j, maxBlock);
    }
  }

  lemma {:induction false} ProductOfPowers(i: nat, j: nat)
    ensures Pow2(i) * Pow2(j) == Pow2(i + j)
  {
    if j > 0 {
      ProductOfPowers(i, j - 1);
      assert Pow2(i) * (2 * Pow2(j - 1)) == 2 * (Pow2(i) * Pow2(j - 1));
    }
  }

  lemma Pow2Below(i: nat, b: nat)
    requires IsPow2(b) && Pow2(i) < b
    ensures 2 * Pow2(i) <= b
  {
    var j: nat :| b == Pow2(j);
    if j <= i {
      Pow2Monotone(j, i);
    } else {
      Pow2Monotone(i, j);
    }
  }

  lemma LinkGrows<T>(q: Queue<T>, pm: ProducerMove<T>, layout: Layout)
    requires Grown(q, layout) && q.p.PLink?
    ensures Grown(ProducerStep(q, pm).q, layout)
  {
    var q' := ProducerStep(q, pm).q;
    assert |q'.blocks| == |q.blocks| + 1 && q'.blocks[|q.blocks|] == q.p.made;
    assert forall id :: 0 <= id < |q.blocks| ==> q'.blocks[id].size == q.blocks[id].size;
  }

  lemma ProducerGrows<T>(q: Queue<T>, pm: ProducerMove<T>, layout: Layout)
    requires Grown(q, layout) && MaskSize(layout.size) && MaskSize(q.maxBlock)
    ensures Grown(ProducerStep(q, pm).q, layout)
  {
    if q.p.PLink? {
      LinkGrows(q, pm, layout);
    } else {
      GrownNext(layout.size, |q.blocks| - layout.count, q.maxBlock);
      SameSizes(q, pm);
      ProducerKeepsLimits(q, pm);
      LargestWhen(q, pm);
    }
  }

  lemma LargestWhen<T>(q: Queue<T>, pm: ProducerMove<T>)
    requires !q.p.PLink?
    ensures var q' := ProducerStep(q, pm).q;
      if q'.p.PLink? then q'.largest == q'.p.made.size == NewBlockSize(q) else q'.largest == q.largest
  {
  }

  /** In every run, the `j`-th allocated block has twice the slots of the one before it, until
      the maximum is reached. */
  lemma {:induction false} BlocksDouble<T>(q0: Queue<T>, moves: seq<Move<T>>, layout: Layout)
    requires Grown(q0, layout) && MaskSize(layout.size) && MaskSize(q0.maxBlock)
    ensures Grown(Exec(q0, moves).q, layout) && Exec(q0, moves).q.maxBlock == q0.maxBlock
  {
    if moves != [] {
      BlocksDouble(q0, moves[..|moves| - 1], layout);
      var prior := Exec(q0, moves[..|moves| - 1]).q;
      match moves[|moves| - 1] {
        case ByProducer(pm) =>
          ProducerGrows(prior, pm, layout);
          ProducerKeepsLimits(prior, pm);
        case ByConsumer(cm) => ConsumerGrows(prior, cm, layout);
      }
    }
  }

  lemma ConsumerGrows<T>(q: Queue<T>, cm: ConsumerMove, layout: Layout)
    requires Grown(q, layout)
    ensures Grown(ConsumerStep(q, cm).q, layout) && ConsumerStep(q, cm).q.maxBlock == q.maxBlock
  {
    SameSizesConsumer(q, cm);
    ConsumerKeepsMax(q, cm);
  }

  lemma AllocatedSizes<T>(requested: nat, ceil: nat, maxBlock: nat, mayAlloc: bool, moves: seq<Move<T>>)
    requires maxBlock >= 2 && MaskSize(maxBlock) && LeastPow2(ceil, requested + 1) && requested + 1 <= Pow2(SIZE_BITS - 1)
    ensures Grown(Exec(Constructed<T>(requested, ceil, maxBlock, mayAlloc), moves).q, LayoutOf(requested, ceil, maxBlock))
  {
    var layout := LayoutOf(requested, ceil, maxBlock);
    LayoutIs(requested, ceil, maxBlock);
    CeilFits(ceil, requested + 1, SIZE_BITS - 1);
    assert layout.size * Pow2(0) == layout.size;
    BlocksDouble(Constructed<T>(requested, ceil, maxBlock, mayAlloc), moves, layout);
  }

  // ----- masking is wrapping -----

  /** `(i + 1) & sizeMask`, and `(j - i) & sizeMask` with the difference taken modulo 2^64. */
  function MaskedInc(i: nat, size: nat): nat
    requires size >= 1
  {
    And(i + 1, size - 1)
  }

  function MaskedDist(i: nat, j: nat, size: nat, word: nat): nat
    requires size >= 1 && i <= j + word
  {
    And(if i <= j then j - i else j - i + word, size - 1)
  }

  ghost predicate MasksAgree(size: nat) {
    size >= 1 && forall i: nat, j: nat :: i < size && j < size ==> MaskAgrees(i, j, size, SIZE_T)
  }

  ghost predicate MaskAgrees(i: nat, j: nat, size: nat, word: nat)
    requires size >= 1
  {
    i <= j + word && MaskedInc(i, size) == Inc(i, size) && MaskedDist(i, j, size, word) == Dist(i, j, size)
  }

  lemma MaskSizeAgrees(size: nat)
    requires MaskSize(size)
    ensures MasksAgree(size)
  {
    var k: nat :| size == Pow2(k);
    ExponentBelow(k, SIZE_BITS);
    forall i: nat, j: nat | i < size && j < size
      ensures MaskAgrees(i, j, size, SIZE_T)
    {
      AgreesAt(i, j, k, SIZE_BITS);
    }
  }

  lemma ExponentBelow(k: nat, w: nat)
    requires w >= 1 && Pow2(k) <= Pow2(w - 1)
    ensures k < w
  {
    if k >= w {
      Pow2Monotone(w - 1, k);
    }
  }

  lemma AgreesAt(i: nat, j: nat, k: nat, w: nat)
    requires k < w && i < Pow2(k) && j < Pow2(k)
    ensures MaskAgrees(i, j, Pow2(k), Pow2(w))
  {
    Pow2Monotone(k, w);
    MaskIsWrap(i, j, k, w);
  }

  /** The indices of a block are within it, so every masked sum and difference of them is what
      the machine computes. */
  ghost predicate BlockMasked<T>(b: Block<T>) {
    && MaskSize(b.size) && MasksAgree(b.size)
    && b.front < b.size && b.tail < b.size && b.localFront < b.size && b.localTail < b.size
  }

  /** The index that a thread is about to advance, and the block that it belongs to. */
  datatype Use = NoUse | Advance(index: nat, block: nat)

  function ProducerUse<T>(q: Queue<T>): Use {
    match q.p
    case PLoadTail(_, _, tb, _) => Advance(Blk(q, tb).tail, tb)
    case PLoadFront(_, _, tb, t) => Advance(t, tb)
    case PStoreTail(_, tb, t) => Advance(t, tb)
    case PStoreNextTail(_, nb, nt) => Advance(nt, nb)
    case _ => NoUse
  }

  function ConsumerUse<T>(q: Queue<T>): Use {
    match q.c
    case CStoreFront(fb, f, _) => Advance(f, fb)
    case _ => NoUse
  }

  ghost predicate UseMasked<T>(q: Queue<T>, use: Use) {
    use.Advance? ==>
      && use.block < |q.blocks| && q.blocks[use.block].size >= 1
      && MaskedInc(use.index, q.blocks[use.block].size) == Inc(use.index, q.blocks[use.block].size)
  }

  lemma UsesInRange<T>(q: Queue<T>, sh: Shadow)
    requires Inv(q, sh)
    ensures forall use :: use == ProducerUse(q) || use == ConsumerUse(q) ==>
      use.Advance? ==> use.block < |q.blocks| && use.index < q.blocks[use.block].size
  {
    assert Fine(q, q.tailBlock) && Fine(q, q.frontBlock);
    if q.p.PStoreNextTail? {
      assert Fine(q, q.p.nb);
    }
  }

  /** Main result.  In every run of a constructed queue every block, allocated ones included,
      has a power of two as its size, so that masking is wrapping: for the indices of every
      block, and for the local copies that the threads are about to use. */
  lemma EveryIndexIsMasked<T>(requested: nat, ceil: nat, maxBlock: nat, mayAlloc: bool, moves: seq<Move<T>>)
    requires maxBlock >= 2 && MaskSize(maxBlock) && LeastPow2(ceil, requested + 1) && requested + 1 <= Pow2(SIZE_BITS - 1)
    requires requested >= 1 || !mayAlloc
    ensures var q := Exec(Constructed<T>(requested, ceil, maxBlock, mayAlloc), moves).q;
      && (forall id :: 0 <= id < |q.blocks| ==> BlockMasked(q.blocks[id]))
      && UseMasked(q, ProducerUse(q)) && UseMasked(q, ConsumerUse(q))
  {
    var q0 := Constructed<T>(requested, ceil, maxBlock, mayAlloc);
    ConstructedMaskSizes<T>(requested, ceil, maxBlock, mayAlloc);
    RunMaskSizes(q0, moves);
    var sh0 := ConstructedInv<T>(requested, ceil, maxBlock, mayAlloc);
    var sh := RunIsFifo(q0, sh0, moves);
    AllMasked(Exec(q0, moves).q, sh);
  }

  lemma AllMasked<T>(q: Queue<T>, sh: Shadow)
    requires Inv(q, sh) && MaskSizes(q)
    ensures forall id :: 0 <= id < |q.blocks| ==> BlockMasked(q.blocks[id])
    ensures UseMasked(q, ProducerUse(q)) && UseMasked(q, ConsumerUse(q))
  {
    forall id | 0 <= id < |q.blocks|
      ensures BlockMasked(q.blocks[id])
    {
      assert Fine(q, id);
      MaskSizeAgrees(q.blocks[id].size);
    }
    UsesInRange(q, sh);
    UsedInRange(q, ProducerUse(q));
    UsedInRange(q, ConsumerUse(q));
  }

  lemma UsedInRange<T>(q: Queue<T>, use: Use)
    requires use.Advance? ==> use.block < |q.blocks| && use.index < q.blocks[use.block].size && BlockMasked(q.blocks[use.block])
    ensures UseMasked(q, use)
  {
    if use.Advance? {
      assert MaskAgrees(use.index, use.index, q.blocks[use.block].size, SIZE_T);
    }
  }
}
