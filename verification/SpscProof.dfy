/** The queue refines a FIFO sequence.  The invariant relates the concrete blocks to a
    `Shadow`: the order of the blocks around the ring, starting at the consumer's block,
    and the position of the producer's block in it. */
module SpscProof {
  import opened SpscQueue

  datatype Shadow = Shadow(ring: seq<nat>, tp: nat)

  // ----- one block -----

  ghost function Norm<T>(s: Slot<T>): Slot<T> {
    if s.Destroyed? then Live(s.value) else s
  }

  ghost function Count<T>(b: Block<T>): nat {
    Dist(b.front, b.tail, b.size)
  }

  ghost function SlotAt<T>(b: Block<T>, i: nat): Slot<T> {
    if i < |b.data| then Norm(b.data[i]) else Raw
  }

  /** What a block holds, oldest first.  An element that the consumer has moved out but
      whose `front` it has not advanced yet still counts. */
  ghost function Stored<T>(b: Block<T>): (r: seq<Slot<T>>)
    ensures |r| == Count(b) && forall i :: 0 <= i < Count(b) ==> r[i] == SlotAt(b, Wrap(b.front + i, b.size))
  {
    seq(Count(b), (i: nat) => SlotAt(b, Wrap(b.front + i, b.size)))
  }

  /** `hole`: the consumer is between destroying the front element and advancing `front`.
      `extra`: the producer is between constructing at `tail` and advancing `tail`. */
  ghost predicate BlockOk<T>(b: Block<T>, hole: bool, extra: bool) {
    && b.size >= 1 && |b.data| == b.size
    && b.front < b.size && b.tail < b.size && b.localTail < b.size && b.localFront < b.size
    && Dist(b.localFront, b.front, b.size) + Count(b) == Dist(b.localFront, b.tail, b.size)
    && Dist(b.front, b.localTail, b.size) + Dist(b.localTail, b.tail, b.size) == Count(b)
    && (forall s :: 0 <= s < b.size ==> LiveRight(b, s, hole, extra))
    && (hole ==> Count(b) > 0 && b.data[b.front].Destroyed?)
  }

  /** Slot `s` holds a live object exactly when it lies in `front .. tail`, up to the two
      half-finished operations. */
  ghost predicate LiveRight<T>(b: Block<T>, s: nat, hole: bool, extra: bool)
    requires s < |b.data|
  {
    b.data[s].Live? <==> (Dist(b.front, s, b.size) < Count(b) && !(hole && s == b.front)) || (extra && s == b.tail)
  }

  // ----- the whole queue -----

  ghost predicate Hole<T>(q: Queue<T>, id: nat) {
    q.c.CStoreFront? && q.c.fb == id
  }

  ghost predicate Extra<T>(q: Queue<T>, id: nat) {
    (q.p.PStoreTail? && q.p.tb == id) || (q.p.PStoreNextTail? && q.p.nb == id)
  }

  ghost function After(sh: Shadow, i: nat): nat
    requires i < |sh.ring|
  {
    if i + 1 == |sh.ring| then sh.ring[0] else sh.ring[i + 1]
  }

  ghost predicate Linked<T>(blocks: seq<Block<T>>, sh: Shadow, i: nat)
    requires i < |sh.ring|
  {
    Get(blocks, sh.ring[i]).next == After(sh, i)
  }

  ghost predicate RingOk<T>(q: Queue<T>, sh: Shadow) {
    && |sh.ring| == |q.blocks| && sh.tp < |sh.ring|
    && (forall i :: 0 <= i < |sh.ring| ==> sh.ring[i] < |q.blocks|)
    && (forall i, j :: 0 <= i < j < |sh.ring| ==> sh.ring[i] != sh.ring[j])
    && sh.ring[0] == q.frontBlock && sh.ring[sh.tp] == q.tailBlock
    && (forall i :: 0 <= i < |sh.ring| ==> Linked(q.blocks, sh, i))
  }

  /** Blocks strictly between the two threads are full, blocks behind the producer are
      empty, and the producer's block is empty only if the consumer is in it too. */
  ghost predicate ShapeAt<T>(q: Queue<T>, sh: Shadow, i: nat)
    requires RingOk(q, sh) && i < |sh.ring|
  {
    var b := q.blocks[sh.ring[i]];
    && (0 < i < sh.tp ==> Full(b))
    && (0 < i == sh.tp ==> b.front != b.tail)
    && (i > sh.tp ==> b.front == b.tail || (q.p.PStoreTailBlock? && i == sh.tp + 1))
  }

  ghost predicate ShapeOk<T>(q: Queue<T>, sh: Shadow)
    requires RingOk(q, sh)
  {
    forall i :: 0 <= i < |sh.ring| ==> ShapeAt(q, sh, i)
  }

  ghost predicate SizesOk<T>(q: Queue<T>) {
    && q.maxBlock >= 2 && q.largest >= 1
    && ((|q.blocks| == 1 && !q.mayAlloc) || forall id :: 0 <= id < |q.blocks| ==> q.blocks[id].size >= 2)
  }

  ghost predicate Leaving<T>(q: Queue<T>, sh: Shadow, tb: nat)
    requires RingOk(q, sh)
  {
    tb == q.tailBlock && (sh.tp == 0 || Full(q.blocks[q.tailBlock]))
  }

  ghost predicate Moving<T>(q: Queue<T>, sh: Shadow, nb: nat)
    requires RingOk(q, sh)
  {
    sh.tp + 1 < |sh.ring| && nb == sh.ring[sh.tp + 1] && Leaving(q, sh, q.tailBlock)
  }

  ghost predicate ProducerOk<T>(q: Queue<T>, sh: Shadow)
    requires RingOk(q, sh)
  {
    match q.p
    case PIdle => true
    case PLoadTailBlock(e, alloc) => alloc ==> q.mayAlloc
    case PLoadTail(e, alloc, tb, lf) => (alloc ==> q.mayAlloc) && tb == q.tailBlock && lf == q.blocks[tb].localFront
    case PLoadFront(e, alloc, tb, t) =>
      (alloc ==> q.mayAlloc) && tb == q.tailBlock && t == q.blocks[tb].tail
    case PWriteSlot(e, tb, t) =>
      tb == q.tailBlock && t == q.blocks[tb].tail && Inc(t, q.blocks[tb].size) != q.blocks[tb].localFront
    case PStoreTail(e, tb, t) =>
      && tb == q.tailBlock && t == q.blocks[tb].tail && Inc(t, q.blocks[tb].size) != q.blocks[tb].localFront
      && t < |q.blocks[tb].data| && q.blocks[tb].data[t] == Live(e)
    case PLoadNext(e, alloc, tb, sawFull) =>
      (alloc ==> q.mayAlloc) && Leaving(q, sh, tb) && (sawFull || sh.tp + 1 != |sh.ring|)
    case PLoadFrontBlock(e, alloc, tb, nx, sawFull) =>
      && (alloc ==> q.mayAlloc) && Leaving(q, sh, tb) && nx == q.blocks[tb].next
      && (sawFull || sh.tp + 1 != |sh.ring|)
    case PLoadNextAgain(e, tb) => Leaving(q, sh, tb) && sh.tp + 1 < |sh.ring|
    case PLoadNextFront(e, nb) => Moving(q, sh, nb)
    case PLoadNextTail(e, nb, nf) => Moving(q, sh, nb) && nf == q.blocks[nb].front
    case PWriteNextSlot(e, nb, nt) => Moving(q, sh, nb) && nt == q.blocks[nb].tail == q.blocks[nb].localFront
    case PStoreNextTail(e, nb, nt) =>
      && Moving(q, sh, nb) && nt == q.blocks[nb].tail == q.blocks[nb].localFront
      && nt < |q.blocks[nb].data| && q.blocks[nb].data[nt] == Live(e)
    case PStoreTailBlock(e, nb) => Moving(q, sh, nb) && Stored(q.blocks[nb]) == [Live(e)]
    case PAlloc(e, tb) => q.mayAlloc && Leaving(q, sh, tb)
    case PLink(e, tb, made) =>
      && q.mayAlloc && Leaving(q, sh, tb)
      && made.size >= 2 && made == FreshBlock(made.size, q.blocks[tb].next, e)
  }

  ghost predicate ConsumerOk<T>(q: Queue<T>, sh: Shadow)
    requires RingOk(q, sh)
  {
    var b := q.blocks[q.frontBlock];
    match q.c
    case CIdle => true
    case CLoadFrontBlock(peek) => true
    case CLoadFront(peek, fb, lt) => fb == q.frontBlock && lt == b.localTail
    case CLoadTail(peek, fb, f) => fb == q.frontBlock && f == b.front
    case CReadSlot(peek, fb, f) => fb == q.frontBlock && f == b.front && f != b.localTail
    case CStoreFront(fb, f, v) =>
      fb == q.frontBlock && f == b.front && f != b.localTail && f < |b.data| && b.data[f] == Destroyed(v)
    case CLoadTailBlock(peek, fb, sawEmpty) => fb == q.frontBlock && (sawEmpty || sh.tp > 0)
    case CReloadFrontBlock(peek) => sh.tp > 0
    case CReloadTail(peek, fb) => fb == q.frontBlock && sh.tp > 0
    case CReloadFront(peek, fb, t) => fb == q.frontBlock && sh.tp > 0 && t == b.localTail == b.tail
    case CLoadNext(peek, fb) => fb == q.frontBlock && sh.tp > 0 && b.front == b.tail
    case CLoadNextFront(peek, nb) => Advancing(q, sh, nb)
    case CLoadNextTail(peek, nb, nf) => Advancing(q, sh, nb) && nf == q.blocks[nb].front
    case CStoreFrontBlock(nb, nf) =>
      Advancing(q, sh, nb) && nf == q.blocks[nb].front && nf != q.blocks[nb].localTail
  }

  ghost predicate Advancing<T>(q: Queue<T>, sh: Shadow, nb: nat)
    requires RingOk(q, sh)
  {
    sh.tp > 0 && nb == sh.ring[1] && q.blocks[q.frontBlock].front == q.blocks[q.frontBlock].tail
  }

  ghost predicate Fine<T>(q: Queue<T>, id: nat)
    requires id < |q.blocks|
  {
    BlockOk(q.blocks[id], Hole(q, id), Extra(q, id))
  }

  ghost predicate BlocksOk<T>(q: Queue<T>) {
    forall id :: 0 <= id < |q.blocks| ==> Fine(q, id)
  }

  ghost predicate Inv<T>(q: Queue<T>, sh: Shadow) {
    RingOk(q, sh) && BlocksOk(q) && ShapeOk(q, sh) && SizesOk(q) && ProducerOk(q, sh) && ConsumerOk(q, sh)
  }

  // ----- the abstract contents -----

  ghost function Flatten<X>(parts: seq<seq<X>>): seq<X> {
    if parts == [] then [] else parts[0] + Flatten(parts[1..])
  }

  lemma {:induction false} FlattenSplit<X>(p1: seq<seq<X>>, p2: seq<seq<X>>)
    ensures Flatten(p1 + p2) == Flatten(p1) + Flatten(p2)
  {
    if p1 == [] {
      assert p1 + p2 == p2;
    } else {
      FlattenSplit(p1[1..], p2);
      assert (p1 + p2)[0] == p1[0] && (p1 + p2)[1..] == p1[1..] + p2;
      Joined(p1[0], Flatten(p1[1..]), Flatten(p2));
    }
  }

  lemma Joined<X>(a: seq<X>, b: seq<X>, c: seq<X>)
    ensures a + (b + c) == a + b + c
  {
  }

  ghost function Parts<T>(blocks: seq<Block<T>>, path: seq<nat>): (r: seq<seq<Slot<T>>>)
    ensures |r| == |path| && forall i :: 0 <= i < |path| ==> r[i] == Stored(Get(blocks, path[i]))
  {
    seq(|path|, i requires 0 <= i < |path| => Stored(Get(blocks, path[i])))
  }

  /** The elements in the queue, oldest first: those of the blocks from the consumer's to
      the producer's. */
  ghost function Abs<T>(q: Queue<T>, sh: Shadow): seq<Slot<T>>
    requires sh.tp < |sh.ring|
  {
    Flatten(Parts(q.blocks, sh.ring[..sh.tp + 1]))
  }

  lemma AbsLast<T>(q: Queue<T>, sh: Shadow)
    requires RingOk(q, sh)
    ensures Abs(q, sh) == Flatten(Parts(q.blocks, sh.ring[..sh.tp])) + Stored(q.blocks[q.tailBlock])
  {
    var last := [Stored(q.blocks[q.tailBlock])];
    assert Parts(q.blocks, sh.ring[..sh.tp + 1]) == Parts(q.blocks, sh.ring[..sh.tp]) + last;
    FlattenSplit(Parts(q.blocks, sh.ring[..sh.tp]), last);
    assert Flatten(last) == last[0];
  }

  lemma AbsFirst<T>(q: Queue<T>, sh: Shadow)
    requires RingOk(q, sh)
    ensures Abs(q, sh) == Stored(q.blocks[q.frontBlock]) + Flatten(Parts(q.blocks, sh.ring[1..sh.tp + 1]))
  {
    assert Parts(q.blocks, sh.ring[..sh.tp + 1])[1..] == Parts(q.blocks, sh.ring[1..sh.tp + 1]);
  }

  // ----- one block, one access -----

  lemma BlockWrite<T>(b: Block<T>, hole: bool, e: T)
    requires BlockOk(b, hole, false) && Inc(b.tail, b.size) != b.localFront
    ensures !b.data[b.tail].Live?
    ensures var b' := b.(data := b.data[b.tail := Live(e)]);
            BlockOk(b', hole, true) && Stored(b') == Stored(b)
  {
    var b' := b.(data := b.data[b.tail := Live(e)]);
    assert LiveRight(b, b.tail, hole, false);
    forall s | 0 <= s < b.size ensures LiveRight(b', s, hole, true) {
      assert LiveRight(b, s, hole, false);
    }
  }

  lemma BlockPublish<T>(b: Block<T>, hole: bool, e: T)
    requires BlockOk(b, hole, true) && Inc(b.tail, b.size) != b.localFront && b.data[b.tail] == Live(e)
    ensures var b' := b.(tail := Inc(b.tail, b.size));
            BlockOk(b', hole, false) && Stored(b') == Stored(b) + [Live(e)]
  {
    var b' := b.(tail := Inc(b.tail, b.size));
    assert Count(b') == Count(b) + 1;
    forall s | 0 <= s < b.size ensures LiveRight(b', s, hole, false) {
      assert LiveRight(b, s, hole, true);
    }
  }

  /** Refreshing the producer's copy of `front`, or the consumer's copy of `tail`. */
  lemma BlockSync<T>(b: Block<T>, hole: bool, extra: bool)
    requires BlockOk(b, hole, extra)
    ensures BlockOk(b.(localFront := b.front), hole, extra) && Stored(b.(localFront := b.front)) == Stored(b)
    ensures BlockOk(b.(localTail := b.tail), hole, extra) && Stored(b.(localTail := b.tail)) == Stored(b)
  {
    forall k | 0 <= k < b.size
      ensures LiveRight(b.(localFront := b.front), k, hole, extra) && LiveRight(b.(localTail := b.tail), k, hole, extra)
    {
      assert LiveRight(b, k, hole, extra);
    }
  }

  lemma BlockTake<T>(b: Block<T>, extra: bool)
    requires BlockOk(b, false, extra) && b.front != b.localTail
    ensures b.data[b.front].Live? && Count(b) > 0 && Stored(b)[0] == b.data[b.front]
    ensures var b' := b.(data := b.data[b.front := Destroyed(b.data[b.front].value)]);
            BlockOk(b', true, extra) && Stored(b') == Stored(b)
  {
    assert LiveRight(b, b.front, false, extra);
    var b' := b.(data := b.data[b.front := Destroyed(b.data[b.front].value)]);
    forall s | 0 <= s < b.size ensures LiveRight(b', s, true, extra) {
      assert LiveRight(b, s, false, extra);
    }
  }

  lemma BlockRelease<T>(b: Block<T>, extra: bool, v: T)
    requires BlockOk(b, true, extra) && b.front != b.localTail && b.data[b.front] == Destroyed(v)
    ensures BlockOk(b.(front := Inc(b.front, b.size)), false, extra)
  {
    var b' := b.(front := Inc(b.front, b.size));
    assert Count(b) == Count(b') + 1;
    forall s | 0 <= s < b.size ensures LiveRight(b', s, false, extra) {
      assert LiveRight(b, s, true, extra);
    }
  }

  lemma StoredRelease<T>(b: Block<T>, v: T)
    requires b.front < b.size && b.tail < b.size == |b.data| && Count(b) > 0 && b.data[b.front] == Destroyed(v)
    ensures Stored(b) == [Live(v)] + Stored(b.(front := Inc(b.front, b.size)))
  {
    var b' := b.(front := Inc(b.front, b.size));
    assert Count(b) == Count(b') + 1;
    forall i | 0 <= i < Count(b') ensures Stored(b)[i + 1] == Stored(b')[i] {
      assert Wrap(b.front + (i + 1), b.size) == Wrap(b'.front + i, b.size);
    }
  }

  // ----- steps -----

  /** What a step does to the FIFO sequence. */
  ghost predicate FifoStep<T>(before: seq<Slot<T>>, ev: Event<T>, after: seq<Slot<T>>) {
    match ev
    case Enqueued(v) => after == before + [Live(v)]
    case Dequeued(v) => before == [Live(v)] + after
    case Peeked(v) => after == before && |before| > 0 && before[0] == Live(v)
    case Rejected(sawFull) => after == before && sawFull
    case FoundEmpty(sawEmpty) => after == before && sawEmpty
    case Fault => false
    case _ => after == before
  }

  ghost predicate Kept<T>(q: Queue<T>, sh: Shadow, s: Step<T>, sh': Shadow)
    requires sh.tp < |sh.ring|
  {
    Inv(s.q, sh') && FifoStep(Abs(q, sh), s.ev, Abs(s.q, sh'))
  }

  ghost function Rewrite<T>(q: Queue<T>, id: nat, b: Block<T>, p: Producer<T>, c: Consumer<T>): Queue<T>
    requires id < |q.blocks|
  {
    q.(blocks := q.blocks[id := b], p := p, c := c)
  }

  lemma RewriteRing<T>(q: Queue<T>, sh: Shadow, id: nat, b: Block<T>, p: Producer<T>, c: Consumer<T>)
    requires RingOk(q, sh) && id < |q.blocks| && b.next == q.blocks[id].next
    ensures RingOk(Rewrite(q, id, b, p, c), sh)
  {
    forall i | 0 <= i < |sh.ring| ensures Linked(Rewrite(q, id, b, p, c).blocks, sh, i) {
      assert Linked(q.blocks, sh, i);
    }
  }

  /** Rewriting one block in place, leaving its links and size alone. */
  lemma RewriteFine<T>(q: Queue<T>, id: nat, b: Block<T>, p: Producer<T>, c: Consumer<T>)
    requires BlocksOk(q) && SizesOk(q) && id < |q.blocks| && b.size == q.blocks[id].size
    requires BlockOk(b, Hole(q.(c := c), id), Extra(q.(p := p), id))
    requires forall j :: 0 <= j < |q.blocks| && j != id ==>
               Hole(q.(c := c), j) == Hole(q, j) && Extra(q.(p := p), j) == Extra(q, j)
    ensures BlocksOk(Rewrite(q, id, b, p, c)) && SizesOk(Rewrite(q, id, b, p, c))
  {
    var q' := Rewrite(q, id, b, p, c);
    forall j | 0 <= j < |q'.blocks| ensures Fine(q', j) {
      if j != id {
        assert Fine(q, j);
      }
    }
  }

  lemma AbsFrame<T>(q: Queue<T>, q': Queue<T>, sh: Shadow)
    requires RingOk(q, sh) && RingOk(q', sh)
    requires forall i :: 0 <= i <= sh.tp ==> Stored(q'.blocks[sh.ring[i]]) == Stored(q.blocks[sh.ring[i]])
    ensures Abs(q', sh) == Abs(q, sh)
  {
    assert Parts(q.blocks, sh.ring[..sh.tp + 1]) == Parts(q'.blocks, sh.ring[..sh.tp + 1]);
  }

  /** The shadow indices are not part of the contents. */
  lemma AbsSync<T>(q: Queue<T>, sh: Shadow, id: nat, b: Block<T>)
    requires RingOk(q, sh) && id < |q.blocks| && RingOk(Rewrite(q, id, b, q.p, q.c), sh)
    requires b == q.blocks[id].(localFront := b.localFront, localTail := b.localTail)
    ensures Abs(Rewrite(q, id, b, q.p, q.c), sh) == Abs(q, sh)
  {
    assert Stored(b) == Stored(q.blocks[id]);
    AbsFrame(q, Rewrite(q, id, b, q.p, q.c), sh);
  }

  // ----- the producer -----

  lemma AbsAppend<T>(q: Queue<T>, sh: Shadow, b: Block<T>, p: Producer<T>, e: T)
    requires RingOk(q, sh) && Stored(b) == Stored(q.blocks[q.tailBlock]) + [Live(e)]
    requires RingOk(Rewrite(q, q.tailBlock, b, p, q.c), sh)
    ensures Abs(Rewrite(q, q.tailBlock, b, p, q.c), sh) == Abs(q, sh) + [Live(e)]
  {
    var q' := Rewrite(q, q.tailBlock, b, p, q.c);
    AbsLast(q, sh);
    AbsLast(q', sh);
    assert Parts(q.blocks, sh.ring[..sh.tp]) == Parts(q'.blocks, sh.ring[..sh.tp]);
  }

  /** Steps that change nothing but the producer's locals. */
  lemma ProducerLocal<T>(q: Queue<T>, sh: Shadow, p: Producer<T>)
    requires Inv(q, sh)
    requires !q.p.PStoreTail? && !q.p.PStoreNextTail? && !q.p.PStoreTailBlock?
    requires !p.PStoreTail? && !p.PStoreNextTail? && !p.PStoreTailBlock?
    requires ProducerOk(q.(p := p), sh)
    ensures Inv(q.(p := p), sh) && Abs(q.(p := p), sh) == Abs(q, sh)
  {
    var q' := q.(p := p);
    assert RingOk(q', sh);
    forall j | 0 <= j < |q'.blocks| ensures Fine(q', j) {
      assert Fine(q, j);
    }
    forall i | 0 <= i < |sh.ring| ensures ShapeAt(q', sh, i) {
      assert ShapeAt(q, sh, i);
    }
  }

  ghost predicate SameForConsumer<T>(a: Block<T>, b: Block<T>) {
    b.next == a.next && b.size == a.size && b.front == a.front && b.localTail == a.localTail && |b.data| == |a.data|
  }

  lemma ShapeAfterProducer<T>(q: Queue<T>, sh: Shadow, i: nat, b: Block<T>, p: Producer<T>)
    requires RingOk(q, sh) && ShapeOk(q, sh) && !q.p.PStoreTailBlock?
    requires i < |sh.ring| && sh.tp <= i <= sh.tp + 1
    requires if i == sh.tp then sh.tp > 0 ==> b.front != b.tail else b.front == b.tail || p.PStoreTailBlock?
    requires RingOk(Rewrite(q, sh.ring[i], b, p, q.c), sh)
    ensures ShapeOk(Rewrite(q, sh.ring[i], b, p, q.c), sh)
  {
    var q' := Rewrite(q, sh.ring[i], b, p, q.c);
    forall j | 0 <= j < |sh.ring| ensures ShapeAt(q', sh, j) {
      assert ShapeAt(q, sh, j);
    }
  }

  lemma ConsumerAfterProducer<T>(q: Queue<T>, sh: Shadow, i: nat, b: Block<T>, p: Producer<T>)
    requires RingOk(q, sh) && ConsumerOk(q, sh)
    requires i < |sh.ring| && sh.tp <= i <= sh.tp + 1 && SameForConsumer(q.blocks[sh.ring[i]], b)
    requires Hole(q, sh.ring[i]) ==> b.front < |b.data| && b.data[b.front] == q.blocks[sh.ring[i]].data[b.front]
    requires RingOk(Rewrite(q, sh.ring[i], b, p, q.c), sh)
    ensures ConsumerOk(Rewrite(q, sh.ring[i], b, p, q.c), sh)
  {
    var q' := Rewrite(q, sh.ring[i], b, p, q.c);
    assert sh.tp > 0 ==> q'.blocks[sh.ring[0]] == q.blocks[sh.ring[0]];
  }

  /** The producer rewrites its block or the free block after it; the consumer does not notice. */
  lemma ProducerRewrites<T>(q: Queue<T>, sh: Shadow, i: nat, b: Block<T>, p: Producer<T>)
    requires Inv(q, sh) && !q.p.PStoreTailBlock?
    requires i < |sh.ring| && sh.tp <= i <= sh.tp + 1 && SameForConsumer(q.blocks[sh.ring[i]], b)
    requires BlockOk(b, Hole(q, sh.ring[i]), Extra(q.(p := p), sh.ring[i]))
    requires forall j :: 0 <= j < |q.blocks| && j != sh.ring[i] ==> Extra(q.(p := p), j) == Extra(q, j)
    requires if i == sh.tp then sh.tp > 0 ==> b.front != b.tail else b.front == b.tail || p.PStoreTailBlock?
    requires Hole(q, sh.ring[i]) ==> b.data[b.front] == q.blocks[sh.ring[i]].data[b.front]
    ensures var q' := Rewrite(q, sh.ring[i], b, p, q.c);
            RingOk(q', sh) && BlocksOk(q') && ShapeOk(q', sh) && SizesOk(q') && ConsumerOk(q', sh)
  {
    RewriteRing(q, sh, sh.ring[i], b, p, q.c);
    RewriteFine(q, sh.ring[i], b, p, q.c);
    ShapeAfterProducer(q, sh, i, b, p);
    ConsumerAfterProducer(q, sh, i, b, p);
  }

  lemma StartStep<T>(q: Queue<T>, sh: Shadow, mv: ProducerMove<T>)
    requires Inv(q, sh) && (q.p.PIdle? || q.p.PLoadTailBlock? || q.p.PLoadTail?)
    ensures Kept(q, sh, ProducerStep(q, mv), sh)
  {
    var s := ProducerStep(q, mv);
    assert s.q == q.(p := s.q.p);
    ProducerLocal(q, sh, s.q.p);
  }

  lemma LookAheadStep<T>(q: Queue<T>, sh: Shadow, mv: ProducerMove<T>)
    requires Inv(q, sh) && (q.p.PLoadNext? || q.p.PLoadFrontBlock? || q.p.PLoadNextAgain?)
    ensures Kept(q, sh, ProducerStep(q, mv), sh)
  {
    var s := ProducerStep(q, mv);
    assert s.q == q.(p := s.q.p);
    assert Linked(q.blocks, sh, sh.tp);
    ProducerLocal(q, sh, s.q.p);
  }

  lemma LocalStep<T>(q: Queue<T>, sh: Shadow, mv: ProducerMove<T>)
    requires Inv(q, sh)
    requires q.p.PIdle? || q.p.PLoadTailBlock? || q.p.PLoadTail? || q.p.PLoadNext? || q.p.PLoadFrontBlock? || q.p.PLoadNextAgain?
    ensures Kept(q, sh, ProducerStep(q, mv), sh)
  {
    if q.p.PIdle? || q.p.PLoadTailBlock? || q.p.PLoadTail? {
      StartStep(q, sh, mv);
    } else {
      LookAheadStep(q, sh, mv);
    }
  }

  /** Refreshing `localFront` in the producer's block or in the free block after it. */
  lemma SyncFront<T>(q: Queue<T>, sh: Shadow, i: nat)
    requires Inv(q, sh) && i < |sh.ring|
    requires (q.p.PLoadFront? && i == sh.tp) || ((q.p.PLoadNextFront? || q.p.PLoadNextTail?) && i == sh.tp + 1)
    ensures var b := q.blocks[sh.ring[i]];
            Inv(Rewrite(q, sh.ring[i], b.(localFront := b.front), q.p, q.c), sh)
  {
    var b := q.blocks[sh.ring[i]];
    assert Fine(q, sh.ring[i]) && ShapeAt(q, sh, i);
    BlockSync(b, Hole(q, sh.ring[i]), false);
    ProducerRewrites(q, sh, i, b.(localFront := b.front), q.p);
  }

  lemma LoadFrontStep<T>(q: Queue<T>, sh: Shadow, mv: ProducerMove<T>)
    requires Inv(q, sh) && q.p.PLoadFront?
    ensures Kept(q, sh, ProducerStep(q, mv), sh)
  {
    var s := ProducerStep(q, mv);
    var b := q.blocks[q.tailBlock];
    SyncFront(q, sh, sh.tp);
    AbsSync(q, sh, q.tailBlock, b.(localFront := b.front));
    var q1 := Rewrite(q, q.tailBlock, b.(localFront := b.front), q.p, q.c);
    assert s.q == q1.(p := s.q.p);
    assert Linked(q.blocks, sh, sh.tp);
    assert RingOk(s.q, sh);
    ProducerLocal(q1, sh, s.q.p);
  }

  lemma LoadNextFrontStep<T>(q: Queue<T>, sh: Shadow, mv: ProducerMove<T>)
    requires Inv(q, sh) && q.p.PLoadNextFront?
    ensures Kept(q, sh, ProducerStep(q, mv), sh)
  {
    var b := q.blocks[q.p.nb];
    NextFrontIs(q, mv);
    SyncFront(q, sh, sh.tp + 1);
    AbsSync(q, sh, q.p.nb, b.(localFront := b.front));
    var q1 := Rewrite(q, q.p.nb, b.(localFront := b.front), q.p, q.c);
    ProducerLocal(q1, sh, PLoadNextTail(q.p.e, q.p.nb, b.front));
  }

  lemma NextFrontIs<T>(q: Queue<T>, mv: ProducerMove<T>)
    requires q.p.PLoadNextFront? && q.p.nb < |q.blocks|
    ensures var b := q.blocks[q.p.nb];
      ProducerStep(q, mv) == Step(Rewrite(q, q.p.nb, b.(localFront := b.front), q.p, q.c).(p := PLoadNextTail(q.p.e, q.p.nb, b.front)), Tau)
  {
  }

  lemma WriteIs<T>(q: Queue<T>, mv: ProducerMove<T>)
    requires q.p.PWriteSlot? && q.p.tb < |q.blocks|
    requires var b := q.blocks[q.p.tb]; q.p.t == b.tail < |b.data| && !b.data[b.tail].Live?
    ensures var b := q.blocks[q.p.tb];
      ProducerStep(q, mv) == Step(Rewrite(q, q.p.tb, b.(data := b.data[b.tail := Live(q.p.e)]), PStoreTail(q.p.e, q.p.tb, b.tail), q.c), Tau)
  {
  }

  lemma WriteNextIs<T>(q: Queue<T>, mv: ProducerMove<T>)
    requires q.p.PWriteNextSlot? && q.p.nb < |q.blocks|
    requires var b := q.blocks[q.p.nb]; q.p.nt == b.tail < |b.data| && !b.data[b.tail].Live?
    ensures var b := q.blocks[q.p.nb];
      ProducerStep(q, mv) == Step(Rewrite(q, q.p.nb, b.(data := b.data[b.tail := Live(q.p.e)]), PStoreNextTail(q.p.e, q.p.nb, b.tail), q.c), Tau)
  {
  }

  lemma StoreNextIs<T>(q: Queue<T>, mv: ProducerMove<T>)
    requires q.p.PStoreNextTail? && q.p.nb < |q.blocks| && q.p.nt == q.blocks[q.p.nb].tail
    ensures var b := q.blocks[q.p.nb];
      ProducerStep(q, mv) == Step(Rewrite(q, q.p.nb, b.(tail := Inc(b.tail, b.size)), PStoreTailBlock(q.p.e, q.p.nb), q.c), Tau)
  {
  }

  lemma LoadNextTailStep<T>(q: Queue<T>, sh: Shadow, mv: ProducerMove<T>)
    requires Inv(q, sh) && q.p.PLoadNextTail?
    ensures Kept(q, sh, ProducerStep(q, mv), sh)
  {
    var b := q.blocks[q.p.nb];
    assert ShapeAt(q, sh, sh.tp + 1);
    NextTailIs(q, mv);
    var q1 := Rewrite(q, q.p.nb, b.(localFront := b.front), q.p, q.c);
    SyncFront(q, sh, sh.tp + 1);
    AbsSync(q, sh, q.p.nb, b.(localFront := b.front));
    ProducerLocal(q1, sh, PWriteNextSlot(q.p.e, q.p.nb, b.tail));
  }

  lemma NextTailIs<T>(q: Queue<T>, mv: ProducerMove<T>)
    requires q.p.PLoadNextTail? && q.p.nb < |q.blocks|
    requires var b := q.blocks[q.p.nb]; b.tail == b.front == q.p.nf
    ensures var b := q.blocks[q.p.nb];
      ProducerStep(q, mv) == Step(Rewrite(q, q.p.nb, b.(localFront := b.front), q.p, q.c).(p := PWriteNextSlot(q.p.e, q.p.nb, b.tail)), Tau)
  {
  }

  lemma WriteSlotStep<T>(q: Queue<T>, sh: Shadow, mv: ProducerMove<T>)
    requires Inv(q, sh) && q.p.PWriteSlot?
    ensures Kept(q, sh, ProducerStep(q, mv), sh)
  {
    var s := ProducerStep(q, mv);
    var b := q.blocks[q.tailBlock];
    assert Fine(q, q.tailBlock) && ShapeAt(q, sh, sh.tp);
    BlockWrite(b, Hole(q, q.tailBlock), q.p.e);
    WriteIs(q, mv);
    ProducerRewrites(q, sh, sh.tp, b.(data := b.data[b.tail := Live(q.p.e)]), s.q.p);
    AbsFrame(q, s.q, sh);
  }

  lemma StoreTailStep<T>(q: Queue<T>, sh: Shadow, mv: ProducerMove<T>)
    requires Inv(q, sh) && q.p.PStoreTail?
    ensures Kept(q, sh, ProducerStep(q, mv), sh)
  {
    var b := q.blocks[q.tailBlock];
    assert Fine(q, q.tailBlock) && ShapeAt(q, sh, sh.tp);
    BlockPublish(b, Hole(q, q.tailBlock), q.p.e);
    ProducerRewrites(q, sh, sh.tp, b.(tail := Inc(b.tail, b.size)), PIdle);
    AbsAppend(q, sh, b.(tail := Inc(b.tail, b.size)), PIdle, q.p.e);
  }

  lemma WriteNextSlotStep<T>(q: Queue<T>, sh: Shadow, mv: ProducerMove<T>)
    requires Inv(q, sh) && q.p.PWriteNextSlot?
    ensures Kept(q, sh, ProducerStep(q, mv), sh)
  {
    var s := ProducerStep(q, mv);
    var b := q.blocks[q.p.nb];
    assert Fine(q, q.p.nb) && ShapeAt(q, sh, sh.tp + 1);
    BlockWrite(b, Hole(q, q.p.nb), q.p.e);
    WriteNextIs(q, mv);
    ProducerRewrites(q, sh, sh.tp + 1, b.(data := b.data[b.tail := Live(q.p.e)]), s.q.p);
    AbsFrame(q, s.q, sh);
  }

  lemma StoreNextTailStep<T>(q: Queue<T>, sh: Shadow, mv: ProducerMove<T>)
    requires Inv(q, sh) && q.p.PStoreNextTail?
    ensures Kept(q, sh, ProducerStep(q, mv), sh)
  {
    var s := ProducerStep(q, mv);
    var b := q.blocks[q.p.nb];
    assert Fine(q, q.p.nb) && ShapeAt(q, sh, sh.tp + 1);
    BlockPublish(b, Hole(q, q.p.nb), q.p.e);
    StoreNextIs(q, mv);
    ProducerRewrites(q, sh, sh.tp + 1, b.(tail := Inc(b.tail, b.size)), s.q.p);
    AbsFrame(q, s.q, sh);
  }

  /** Publishing the block that was filled: it joins the blocks the consumer will visit. */
  lemma StoreTailBlockStep<T>(q: Queue<T>, sh: Shadow, mv: ProducerMove<T>)
    requires Inv(q, sh) && q.p.PStoreTailBlock?
    ensures Kept(q, sh, ProducerStep(q, mv), sh.(tp := sh.tp + 1))
  {
    var s := ProducerStep(q, mv);
    var sh' := sh.(tp := sh.tp + 1);
    assert RingOk(s.q, sh') by {
      forall i | 0 <= i < |sh'.ring| ensures Linked(s.q.blocks, sh', i) {
        assert Linked(q.blocks, sh, i);
      }
    }
    forall j | 0 <= j < |s.q.blocks| ensures Fine(s.q, j) {
      assert Fine(q, j);
    }
    forall i | 0 <= i < |sh.ring| ensures ShapeAt(s.q, sh', i) {
      assert ShapeAt(q, sh, i);
    }
    AbsLast(s.q, sh');
  }

  /** The ring after a new block was linked in behind the producer's. */
  ghost function Inserted(sh: Shadow, id: nat): (r: Shadow)
    requires sh.tp < |sh.ring|
    ensures |r.ring| == |sh.ring| + 1 && r.tp == sh.tp && r.ring[sh.tp + 1] == id
    ensures forall i :: 0 <= i <= sh.tp ==> r.ring[i] == sh.ring[i]
    ensures forall i :: sh.tp + 1 < i < |r.ring| ==> r.ring[i] == sh.ring[i - 1]
  {
    Shadow(sh.ring[..sh.tp + 1] + [id] + sh.ring[sh.tp + 1..], sh.tp)
  }

  ghost predicate LinkedIn<T>(q: Queue<T>, q': Queue<T>, made: Block<T>)
    requires q.tailBlock < |q.blocks|
  {
    && made.next == q.blocks[q.tailBlock].next
    && q'.blocks == q.blocks[q.tailBlock := q.blocks[q.tailBlock].(next := |q.blocks|)] + [made]
    && q'.frontBlock == q.frontBlock && q'.tailBlock == q.tailBlock && q'.c == q.c
  }

  lemma InsertedLinked<T>(q: Queue<T>, sh: Shadow, q': Queue<T>, made: Block<T>, i: nat)
    requires RingOk(q, sh) && LinkedIn(q, q', made) && i <= |sh.ring|
    ensures Linked(q'.blocks, Inserted(sh, |q.blocks|), i)
  {
    if i < sh.tp {
      assert Linked(q.blocks, sh, i);
    } else if i == sh.tp + 1 {
      assert Linked(q.blocks, sh, sh.tp);
    } else if i > sh.tp + 1 {
      assert Linked(q.blocks, sh, i - 1);
    }
  }

  lemma InsertedRing<T>(q: Queue<T>, sh: Shadow, q': Queue<T>, made: Block<T>)
    requires RingOk(q, sh) && LinkedIn(q, q', made)
    ensures RingOk(q', Inserted(sh, |q.blocks|))
  {
    var sh' := Inserted(sh, |q.blocks|);
    forall i | 0 <= i < |sh'.ring| ensures Linked(q'.blocks, sh', i) {
      InsertedLinked(q, sh, q', made, i);
    }
  }

  lemma FreshBlockOk<T>(size: nat, next: nat, e: T)
    requires size >= 2
    ensures BlockOk(FreshBlock(size, next, e), false, false) && Stored(FreshBlock(size, next, e)) == [Live(e)]
  {
    var b := FreshBlock(size, next, e);
    forall s | 0 <= s < b.size ensures LiveRight(b, s, false, false) {
    }
  }

  lemma LinkFine<T>(q: Queue<T>, q': Queue<T>)
    requires BlocksOk(q) && SizesOk(q) && q.p.PLink? && q.tailBlock < |q.blocks| && LinkedIn(q, q', q.p.made)
    requires q.mayAlloc && q'.mayAlloc && q'.maxBlock == q.maxBlock && q'.largest == q.largest && q'.p.PStoreTailBlock?
    requires q.p.made.size >= 2 && q.p.made == FreshBlock(q.p.made.size, q.p.made.next, q.p.e)
    requires Hole(q, |q.blocks|) == false
    ensures BlocksOk(q') && SizesOk(q')
  {
    FreshBlockOk(q.p.made.size, q.p.made.next, q.p.e);
    forall j | 0 <= j < |q'.blocks| ensures Fine(q', j) {
      if j < |q.blocks| {
        assert Fine(q, j);
        assert forall k :: 0 <= k < q.blocks[j].size ==>
          LiveRight(q.blocks[j], k, Hole(q, j), Extra(q, j)) == LiveRight(q'.blocks[j], k, Hole(q', j), Extra(q', j));
      }
    }
  }

  lemma LinkShape<T>(q: Queue<T>, sh: Shadow, q': Queue<T>)
    requires RingOk(q, sh) && ShapeOk(q, sh) && q.p.PLink? && LinkedIn(q, q', q.p.made) && q'.p.PStoreTailBlock?
    requires RingOk(q', Inserted(sh, |q.blocks|))
    ensures ShapeOk(q', Inserted(sh, |q.blocks|))
  {
    var sh' := Inserted(sh, |q.blocks|);
    forall i | 0 <= i < |sh'.ring| ensures ShapeAt(q', sh', i) {
      if i != sh.tp + 1 {
        assert ShapeAt(q, sh, if i <= sh.tp then i else i - 1);
      }
    }
  }

  lemma LinkConsumer<T>(q: Queue<T>, sh: Shadow, q': Queue<T>)
    requires RingOk(q, sh) && ConsumerOk(q, sh) && q.p.PLink? && LinkedIn(q, q', q.p.made)
    requires RingOk(q', Inserted(sh, |q.blocks|))
    ensures ConsumerOk(q', Inserted(sh, |q.blocks|))
  {
    assert forall j :: 0 <= j < |q.blocks| ==> q'.blocks[j] == q.blocks[j].(next := q'.blocks[j].next);
  }

  lemma LinkFifo<T>(q: Queue<T>, sh: Shadow, q': Queue<T>)
    requires RingOk(q, sh) && q.p.PLink? && LinkedIn(q, q', q.p.made)
    ensures Abs(q', Inserted(sh, |q.blocks|)) == Abs(q, sh)
  {
    var sh' := Inserted(sh, |q.blocks|);
    forall i | 0 <= i <= sh.tp ensures Stored(Get(q'.blocks, sh'.ring[i])) == Stored(Get(q.blocks, sh.ring[i])) {
      assert Get(q'.blocks, sh.ring[i]).(next := 0) == Get(q.blocks, sh.ring[i]).(next := 0);
    }
    assert Parts(q'.blocks, sh'.ring[..sh.tp + 1]) == Parts(q.blocks, sh.ring[..sh.tp + 1]);
  }

  lemma LinkStep<T>(q: Queue<T>, sh: Shadow, mv: ProducerMove<T>)
    requires Inv(q, sh) && q.p.PLink?
    ensures Kept(q, sh, ProducerStep(q, mv), Inserted(sh, |q.blocks|))
  {
    var q' := ProducerStep(q, mv).q;
    InsertedRing(q, sh, q', q.p.made);
    LinkFine(q, q');
    LinkShape(q, sh, q');
    LinkConsumer(q, sh, q');
    LinkFifo(q, sh, q');
    FreshBlockOk(q.p.made.size, q.p.made.next, q.p.e);
  }

  /** `enqueue` asks for memory; nothing shared changes. */
  lemma AllocStep<T>(q: Queue<T>, sh: Shadow, mv: ProducerMove<T>)
    requires Inv(q, sh) && q.p.PAlloc?
    ensures Kept(q, sh, ProducerStep(q, mv), sh)
  {
    var s := ProducerStep(q, mv);
    ProducerLocal(q, sh, s.q.p);
    var q1 := q.(p := s.q.p);
    assert s.q == q1.(largest := s.q.largest);
    forall j | 0 <= j < |s.q.blocks| ensures Fine(s.q, j) {
      assert Fine(q1, j);
    }
    forall i | 0 <= i < |sh.ring| ensures ShapeAt(s.q, sh, i) {
      assert ShapeAt(q1, sh, i);
    }
  }

  ghost function ShadowAfterProducer<T>(q: Queue<T>, sh: Shadow): Shadow
    requires sh.tp < |sh.ring|
  {
    if q.p.PStoreTailBlock? then sh.(tp := sh.tp + 1)
    else if q.p.PLink? then Inserted(sh, |q.blocks|)
    else sh
  }

  lemma MoveOnKeeps<T>(q: Queue<T>, sh: Shadow, mv: ProducerMove<T>)
    requires Inv(q, sh)
    requires q.p.PLoadNextFront? || q.p.PLoadNextTail? || q.p.PWriteNextSlot? || q.p.PStoreNextTail?
    ensures Kept(q, sh, ProducerStep(q, mv), sh)
  {
    match q.p {
      case PLoadNextFront(_, _) => LoadNextFrontStep(q, sh, mv);
      case PLoadNextTail(_, _, _) => LoadNextTailStep(q, sh, mv);
      case PWriteNextSlot(_, _, _) => WriteNextSlotStep(q, sh, mv);
      case PStoreNextTail(_, _, _) => StoreNextTailStep(q, sh, mv);
    }
  }

  /** Every producer step keeps the invariant and does to the FIFO what its event says. */
  lemma ProducerKeeps<T>(q: Queue<T>, sh: Shadow, mv: ProducerMove<T>)
    requires Inv(q, sh)
    ensures Kept(q, sh, ProducerStep(q, mv), ShadowAfterProducer(q, sh))
  {
    if q.p.PLoadNextFront? || q.p.PLoadNextTail? || q.p.PWriteNextSlot? || q.p.PStoreNextTail? {
      MoveOnKeeps(q, sh, mv);
    } else if q.p.PLoadFront? || q.p.PWriteSlot? || q.p.PStoreTail? {
      InBlockKeeps(q, sh, mv);
    } else if q.p.PStoreTailBlock? || q.p.PAlloc? || q.p.PLink? {
      NewTailKeeps(q, sh, mv);
    } else {
      LocalStep(q, sh, mv);
    }
  }

  /** The producer changes the ring or its tail block. */
  lemma NewTailKeeps<T>(q: Queue<T>, sh: Shadow, mv: ProducerMove<T>)
    requires Inv(q, sh) && (q.p.PStoreTailBlock? || q.p.PAlloc? || q.p.PLink?)
    ensures Kept(q, sh, ProducerStep(q, mv), ShadowAfterProducer(q, sh))
  {
    match q.p {
      case PStoreTailBlock(_, _) => StoreTailBlockStep(q, sh, mv);
      case PAlloc(_, _) => AllocStep(q, sh, mv);
      case PLink(_, _, _) => LinkStep(q, sh, mv);
    }
  }

  /** The producer stays in its block. */
  lemma InBlockKeeps<T>(q: Queue<T>, sh: Shadow, mv: ProducerMove<T>)
    requires Inv(q, sh) && (q.p.PLoadFront? || q.p.PWriteSlot? || q.p.PStoreTail?)
    ensures Kept(q, sh, ProducerStep(q, mv), ShadowAfterProducer(q, sh))
  {
    match q.p {
      case PLoadFront(_, _, _, _) => LoadFrontStep(q, sh, mv);
      case PWriteSlot(_, _, _) => WriteSlotStep(q, sh, mv);
      case PStoreTail(_, _, _) => StoreTailStep(q, sh, mv);
    }
  }

  // ----- the consumer -----

  /** Steps that change nothing but the consumer's locals. */
  lemma ConsumerLocal<T>(q: Queue<T>, sh: Shadow, c: Consumer<T>)
    requires Inv(q, sh) && !q.c.CStoreFront? && !c.CStoreFront? && ConsumerOk(q.(c := c), sh)
    ensures Inv(q.(c := c), sh) && Abs(q.(c := c), sh) == Abs(q, sh)
  {
    var q' := q.(c := c);
    assert RingOk(q', sh);
    forall j | 0 <= j < |q'.blocks| ensures Fine(q', j) {
      assert Fine(q, j);
    }
    forall i | 0 <= i < |sh.ring| ensures ShapeAt(q', sh, i) {
      assert ShapeAt(q, sh, i);
    }
  }

  ghost predicate SameForProducer<T>(a: Block<T>, b: Block<T>) {
    b.next == a.next && b.size == a.size && b.tail == a.tail && b.localFront == a.localFront && |b.data| == |a.data|
  }

  lemma ShapeAfterConsumer<T>(q: Queue<T>, sh: Shadow, i: nat, b: Block<T>, c: Consumer<T>)
    requires RingOk(q, sh) && ShapeOk(q, sh) && i <= sh.tp && i <= 1
    requires SameForProducer(q.blocks[sh.ring[i]], b) && (i == 0 || b.front == q.blocks[sh.ring[i]].front)
    requires RingOk(Rewrite(q, sh.ring[i], b, q.p, c), sh)
    ensures ShapeOk(Rewrite(q, sh.ring[i], b, q.p, c), sh)
  {
    var q' := Rewrite(q, sh.ring[i], b, q.p, c);
    forall j | 0 <= j < |sh.ring| ensures ShapeAt(q', sh, j) {
      assert ShapeAt(q, sh, j);
    }
  }

  lemma ProducerAfterConsumer<T>(q: Queue<T>, sh: Shadow, i: nat, b: Block<T>, c: Consumer<T>)
    requires RingOk(q, sh) && ProducerOk(q, sh) && i <= sh.tp && i <= 1
    requires SameForProducer(q.blocks[sh.ring[i]], b) && (i == 0 || b.front == q.blocks[sh.ring[i]].front)
    requires q.p.PStoreTail? && q.p.tb == sh.ring[i] ==> b.data[b.tail] == q.blocks[sh.ring[i]].data[b.tail]
    requires RingOk(Rewrite(q, sh.ring[i], b, q.p, c), sh)
    ensures ProducerOk(Rewrite(q, sh.ring[i], b, q.p, c), sh)
  {
    var q' := Rewrite(q, sh.ring[i], b, q.p, c);
    assert forall j :: sh.tp < j < |sh.ring| ==> q'.blocks[sh.ring[j]] == q.blocks[sh.ring[j]];
    assert sh.tp > i ==> q'.blocks[sh.ring[sh.tp]] == q.blocks[sh.ring[sh.tp]];
  }

  /** The consumer rewrites its block or the next full one; the producer does not notice. */
  lemma ConsumerRewrites<T>(q: Queue<T>, sh: Shadow, i: nat, b: Block<T>, c: Consumer<T>)
    requires Inv(q, sh) && i <= sh.tp && i <= 1
    requires SameForProducer(q.blocks[sh.ring[i]], b) && (i == 0 || b.front == q.blocks[sh.ring[i]].front)
    requires BlockOk(b, Hole(q.(c := c), sh.ring[i]), Extra(q, sh.ring[i]))
    requires forall j :: 0 <= j < |q.blocks| && j != sh.ring[i] ==> Hole(q.(c := c), j) == Hole(q, j)
    requires q.p.PStoreTail? && q.p.tb == sh.ring[i] ==> b.data[b.tail] == q.blocks[sh.ring[i]].data[b.tail]
    ensures var q' := Rewrite(q, sh.ring[i], b, q.p, c);
            RingOk(q', sh) && BlocksOk(q') && ShapeOk(q', sh) && SizesOk(q') && ProducerOk(q', sh)
  {
    RewriteRing(q, sh, sh.ring[i], b, q.p, c);
    RewriteFine(q, sh.ring[i], b, q.p, c);
    ShapeAfterConsumer(q, sh, i, b, c);
    ProducerAfterConsumer(q, sh, i, b, c);
  }

  lemma ConsumerLocalStep<T>(q: Queue<T>, sh: Shadow, mv: ConsumerMove)
    requires Inv(q, sh)
    requires q.c.CIdle? || q.c.CLoadFrontBlock? || q.c.CLoadFront? || q.c.CLoadTailBlock? || q.c.CReloadFrontBlock?
             || q.c.CReloadFront? || q.c.CLoadNext? || q.c.CLoadNextFront?
    ensures Kept(q, sh, ConsumerStep(q, mv), sh)
  {
    var s := ConsumerStep(q, mv);
    assert s.q == q.(c := s.q.c);
    assert RingOk(s.q, sh);
    assert Linked(q.blocks, sh, 0);
    ConsumerLocal(q, sh, s.q.c);
  }

  /** Refreshing `localTail` in the consumer's block or in the next full one. */
  lemma SyncTail<T>(q: Queue<T>, sh: Shadow, i: nat)
    requires Inv(q, sh) && i <= sh.tp
    requires ((q.c.CLoadTail? || q.c.CReloadTail?) && i == 0) || (q.c.CLoadNextTail? && i == 1)
    ensures var b := q.blocks[sh.ring[i]];
            Inv(Rewrite(q, sh.ring[i], b.(localTail := b.tail), q.p, q.c), sh)
  {
    var b := q.blocks[sh.ring[i]];
    assert Fine(q, sh.ring[i]);
    BlockSync(b, false, Extra(q, sh.ring[i]));
    ConsumerRewrites(q, sh, i, b.(localTail := b.tail), q.c);
  }

  lemma LoadTailStep<T>(q: Queue<T>, sh: Shadow, mv: ConsumerMove)
    requires Inv(q, sh) && q.c.CLoadTail?
    ensures Kept(q, sh, ConsumerStep(q, mv), sh)
  {
    var s := ConsumerStep(q, mv);
    var b := q.blocks[q.frontBlock];
    SyncTail(q, sh, 0);
    AbsSync(q, sh, q.frontBlock, b.(localTail := b.tail));
    var q1 := Rewrite(q, q.frontBlock, b.(localTail := b.tail), q.p, q.c);
    assert s.q == q1.(c := s.q.c);
    assert RingOk(s.q, sh);
    ConsumerLocal(q1, sh, s.q.c);
  }

  lemma ReloadTailStep<T>(q: Queue<T>, sh: Shadow, mv: ConsumerMove)
    requires Inv(q, sh) && q.c.CReloadTail?
    ensures Kept(q, sh, ConsumerStep(q, mv), sh)
  {
    var b := q.blocks[q.frontBlock];
    SyncTail(q, sh, 0);
    AbsSync(q, sh, q.frontBlock, b.(localTail := b.tail));
    var q1 := Rewrite(q, q.frontBlock, b.(localTail := b.tail), q.p, q.c);
    ConsumerLocal(q1, sh, CReloadFront(q.c.peek, q.c.fb, b.tail));
  }

  lemma PeekStep<T>(q: Queue<T>, sh: Shadow, mv: ConsumerMove)
    requires Inv(q, sh) && q.c.CReadSlot? && q.c.peek
    ensures Kept(q, sh, ConsumerStep(q, mv), sh)
  {
    var b := q.blocks[q.frontBlock];
    assert Fine(q, q.frontBlock);
    BlockTake(b, Extra(q, q.frontBlock));
    AbsFirst(q, sh);
    ConsumerLocal(q, sh, CIdle);
  }

  lemma ReadSlotStep<T>(q: Queue<T>, sh: Shadow, mv: ConsumerMove)
    requires Inv(q, sh) && q.c.CReadSlot? && !q.c.peek
    ensures Kept(q, sh, ConsumerStep(q, mv), sh)
  {
    var s := ConsumerStep(q, mv);
    var b := q.blocks[q.frontBlock];
    assert Fine(q, q.frontBlock);
    BlockTake(b, Extra(q, q.frontBlock));
    ConsumerRewrites(q, sh, 0, b.(data := b.data[b.front := Destroyed(b.data[b.front].value)]), s.q.c);
    AbsFrame(q, s.q, sh);
  }

  lemma AbsDrop<T>(q: Queue<T>, sh: Shadow, b: Block<T>, c: Consumer<T>, v: T)
    requires RingOk(q, sh) && Stored(q.blocks[q.frontBlock]) == [Live(v)] + Stored(b)
    ensures Abs(q, sh) == [Live(v)] + Abs(Rewrite(q, q.frontBlock, b, q.p, c), sh)
  {
    var path := sh.ring[..sh.tp + 1];
    PartsFirst(q.blocks, path);
    PartsFirst(q.blocks[q.frontBlock := b], path);
    assert path[1..] == sh.ring[1..sh.tp + 1];
    RestElsewhere(q, sh);
    PartsElsewhere(q.blocks, path[1..], q.frontBlock, b);
    Joined([Live(v)], Stored(b), Flatten(Parts(q.blocks, path[1..])));
  }

  lemma PartsFirst<T>(blocks: seq<Block<T>>, path: seq<nat>)
    requires path != []
    ensures Flatten(Parts(blocks, path)) == Stored(Get(blocks, path[0])) + Flatten(Parts(blocks, path[1..]))
  {
    assert Parts(blocks, path)[1..] == Parts(blocks, path[1..]);
  }

  lemma RestElsewhere<T>(q: Queue<T>, sh: Shadow)
    requires RingOk(q, sh)
    ensures var rest := sh.ring[1..sh.tp + 1]; forall i :: 0 <= i < |rest| ==> rest[i] != q.frontBlock
  {
    var rest := sh.ring[1..sh.tp + 1];
    forall i | 0 <= i < |rest| ensures rest[i] != q.frontBlock { assert rest[i] == sh.ring[i + 1]; }
  }

  lemma PartsElsewhere<T>(blocks: seq<Block<T>>, path: seq<nat>, id: nat, b: Block<T>)
    requires id < |blocks| && forall i :: 0 <= i < |path| ==> path[i] != id
    ensures Parts(blocks[id := b], path) == Parts(blocks, path)
  {
  }

  lemma StoreFrontStep<T>(q: Queue<T>, sh: Shadow, mv: ConsumerMove)
    requires Inv(q, sh) && q.c.CStoreFront?
    ensures Kept(q, sh, ConsumerStep(q, mv), sh)
  {
    var b := q.blocks[q.frontBlock];
    assert Fine(q, q.frontBlock);
    BlockRelease(b, Extra(q, q.frontBlock), q.c.v);
    StoredRelease(b, q.c.v);
    ConsumerRewrites(q, sh, 0, b.(front := Inc(b.front, b.size)), CIdle);
    AbsDrop(q, sh, b.(front := Inc(b.front, b.size)), CIdle, q.c.v);
  }

  /** The consumer is about to leave an empty block: the next one holds the oldest element. */
  lemma NextIsOldest<T>(q: Queue<T>, sh: Shadow, nb: nat)
    requires Inv(q, sh) && Advancing(q, sh, nb)
    ensures q.blocks[nb].front != q.blocks[nb].tail && q.blocks[nb].front < |q.blocks[nb].data|
    ensures q.blocks[nb].data[q.blocks[nb].front].Live?
    ensures |Abs(q, sh)| > 0 && Abs(q, sh)[0] == q.blocks[nb].data[q.blocks[nb].front]
  {
    var b := q.blocks[nb];
    assert ShapeAt(q, sh, 1) && Fine(q, nb);
    assert LiveRight(b, b.front, Hole(q, nb), Extra(q, nb));
    AbsFirst(q, sh);
    assert Stored(q.blocks[q.frontBlock]) == [];
    assert sh.ring[1..sh.tp + 1][0] == nb;
    assert Parts(q.blocks, sh.ring[1..sh.tp + 1])[0] == Stored(b);
    assert Stored(b)[0] == b.data[b.front];
  }

  lemma LoadNextTailByConsumer<T>(q: Queue<T>, sh: Shadow, mv: ConsumerMove)
    requires Inv(q, sh) && q.c.CLoadNextTail?
    ensures Kept(q, sh, ConsumerStep(q, mv), sh)
  {
    var b := q.blocks[q.c.nb];
    NextIsOldest(q, sh, q.c.nb);
    if q.c.peek {
      ConsumerLocal(q, sh, CIdle);
    } else {
      SyncTail(q, sh, 1);
      AbsSync(q, sh, q.c.nb, b.(localTail := b.tail));
      var q1 := Rewrite(q, q.c.nb, b.(localTail := b.tail), q.p, q.c);
      ConsumerLocal(q1, sh, CStoreFrontBlock(q.c.nb, q.c.nf));
    }
  }

  /** The ring as seen from the block after the consumer's. */
  ghost function Rotated(sh: Shadow): (r: Shadow)
    requires 0 < sh.tp < |sh.ring|
    ensures |r.ring| == |sh.ring| && r.tp == sh.tp - 1 && r.ring[|sh.ring| - 1] == sh.ring[0]
    ensures forall i :: 0 <= i < |sh.ring| - 1 ==> r.ring[i] == sh.ring[i + 1]
  {
    Shadow(sh.ring[1..] + [sh.ring[0]], sh.tp - 1)
  }

  lemma RotatedRing<T>(q: Queue<T>, sh: Shadow, q': Queue<T>)
    requires RingOk(q, sh) && sh.tp > 0
    requires q' == q.(frontBlock := sh.ring[1], c := q'.c)
    ensures RingOk(q', Rotated(sh))
  {
    var sh' := Rotated(sh);
    forall i | 0 <= i < |sh'.ring| ensures Linked(q'.blocks, sh', i) {
      assert Linked(q.blocks, sh, if i + 1 == |sh.ring| then 0 else i + 1);
    }
  }

  lemma StoreFrontBlockStep<T>(q: Queue<T>, sh: Shadow, mv: ConsumerMove)
    requires Inv(q, sh) && q.c.CStoreFrontBlock?
    ensures Kept(q, sh, ConsumerStep(q, mv), Rotated(sh))
  {
    var q' := ConsumerStep(q, mv).q;
    var sh' := Rotated(sh);
    RotatedRing(q, sh, q');
    forall j | 0 <= j < |q'.blocks| ensures Fine(q', j) {
      assert Fine(q, j);
    }
    forall i | 0 <= i < |sh'.ring| ensures ShapeAt(q', sh', i) {
      assert ShapeAt(q, sh, if i + 1 == |sh.ring| then 0 else i + 1);
    }
    RotatedAbs(q, sh, q');
  }

  lemma RotatedAbs<T>(q: Queue<T>, sh: Shadow, q': Queue<T>)
    requires RingOk(q, sh) && sh.tp > 0 && Stored(q.blocks[q.frontBlock]) == []
    requires q'.blocks == q.blocks
    ensures Abs(q', Rotated(sh)) == Abs(q, sh)
  {
    AbsFirst(q, sh);
    assert Rotated(sh).ring[..Rotated(sh).tp + 1] == sh.ring[1..sh.tp + 1];
  }

  ghost function ShadowAfterConsumer<T>(q: Queue<T>, sh: Shadow): Shadow
    requires sh.tp < |sh.ring|
  {
    if q.c.CStoreFrontBlock? && sh.tp > 0 then Rotated(sh) else sh
  }

  /** Every consumer step keeps the invariant and does to the FIFO what its event says. */
  lemma ConsumerKeeps<T>(q: Queue<T>, sh: Shadow, mv: ConsumerMove)
    requires Inv(q, sh)
    ensures Kept(q, sh, ConsumerStep(q, mv), ShadowAfterConsumer(q, sh))
  {
    match q.c {
      case CLoadTail(_, _, _) => LoadTailStep(q, sh, mv);
      case CReloadTail(_, _) => ReloadTailStep(q, sh, mv);
      case CReadSlot(peek, _, _) => if peek { PeekStep(q, sh, mv); } else { ReadSlotStep(q, sh, mv); }
      case CStoreFront(_, _, _) => StoreFrontStep(q, sh, mv);
      case CLoadNextTail(_, _, _) => LoadNextTailByConsumer(q, sh, mv);
      case CStoreFrontBlock(_, _) => StoreFrontBlockStep(q, sh, mv);
      case _ => ConsumerLocalStep(q, sh, mv);
    }
  }
}
