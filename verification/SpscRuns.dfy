/** What every run of the queue guarantees, from the constructor on. */
module SpscRuns {
  import opened SpscQueue
  import opened SpscProof
  import opened QueueLayout

  ghost function LiveSeq<T>(vs: seq<T>): (r: seq<Slot<T>>)
    ensures |r| == |vs| && forall i :: 0 <= i < |vs| ==> r[i] == Live(vs[i])
  {
    seq(|vs|, i requires 0 <= i < |vs| => Live(vs[i]))
  }

  /** An event no caller may complain about: no failed assertion, no read of an unwritten
      slot, no overwrite of a live one, and a refusal only if it was justified. */
  ghost predicate EventOk<T>(ev: Event<T>) {
    !ev.Fault? && (ev.Rejected? ==> ev.sawFull) && (ev.FoundEmpty? ==> ev.sawEmpty)
  }

  /** The events up to now agree with a FIFO queue whose content is `rest`: nothing lost,
      duplicated or reordered, and every `peek` saw the next value to be dequeued. */
  ghost predicate FifoHistory<T>(events: seq<Event<T>>, rest: seq<Slot<T>>) {
    && LiveSeq(EnqueuedOf(events)) == LiveSeq(DequeuedOf(events)) + rest
    && forall i :: 0 <= i < |events| ==> EventOk(events[i]) && PeekOk(events, i)
  }

  ghost predicate PeekOk<T>(events: seq<Event<T>>, i: nat)
    requires i < |events|
  {
    events[i].Peeked? ==>
      var taken := |DequeuedOf(events[..i])|;
      taken < |EnqueuedOf(events[..i])| && EnqueuedOf(events[..i])[taken] == events[i].v
  }

  lemma HistoryStep<T>(events: seq<Event<T>>, rest: seq<Slot<T>>, ev: Event<T>, rest': seq<Slot<T>>)
    requires FifoHistory(events, rest) && FifoStep(rest, ev, rest')
    ensures FifoHistory(events + [ev], rest')
  {
    var events' := events + [ev];
    assert events'[..|events|] == events;
    var enq, deq := EnqueuedOf(events), DequeuedOf(events);
    forall i | 0 <= i < |events'| ensures EventOk(events'[i]) && PeekOk(events', i) {
      assert events'[..i] == events[..i];
      if i < |events| {
        assert PeekOk(events, i);
      } else if ev.Peeked? {
        assert LiveSeq(enq)[|deq|] == rest[0];
      }
    }
    if ev.Enqueued? {
      assert LiveSeq(enq + [ev.v]) == LiveSeq(enq) + [Live(ev.v)];
    } else if ev.Dequeued? {
      assert LiveSeq(deq + [ev.v]) == LiveSeq(deq) + [Live(ev.v)];
    }
  }

  /** The refinement, over all interleavings: from any empty queue that satisfies the
      invariant, the events of every run are those of a FIFO queue. */
  lemma {:induction false} RunIsFifo<T>(q0: Queue<T>, sh0: Shadow, moves: seq<Move<T>>) returns (sh: Shadow)
    requires Inv(q0, sh0) && Abs(q0, sh0) == []
    ensures var t := Exec(q0, moves); Inv(t.q, sh) && FifoHistory(t.events, Abs(t.q, sh))
  {
    if moves == [] {
      sh := sh0;
    } else {
      var prior := Exec(q0, moves[..|moves| - 1]);
      var shp := RunIsFifo(q0, sh0, moves[..|moves| - 1]);
      var mv := moves[|moves| - 1];
      match mv {
        case ByProducer(pm) =>
          ProducerKeeps(prior.q, shp, pm);
          sh := ShadowAfterProducer(prior.q, shp);
        case ByConsumer(cm) =>
          ConsumerKeeps(prior.q, shp, cm);
          sh := ShadowAfterConsumer(prior.q, shp);
      }
      var s := QueueStep(prior.q, mv);
      HistoryStep(prior.events, Abs(prior.q, shp), s.ev, Abs(s.q, sh));
    }
  }

  // ----- the constructor -----

  ghost function StartShadow(count: nat): (sh: Shadow)
    ensures |sh.ring| == count && sh.tp == 0 && forall i :: 0 <= i < count ==> sh.ring[i] == i
  {
    Shadow(seq(count, i => i), 0)
  }

  lemma EmptyQueueInv<T>(count: nat, size: nat, maxBlock: nat, mayAlloc: bool)
    requires count >= 1 && size >= 1 && maxBlock >= 2
    requires size >= 2 || (count == 1 && !mayAlloc)
    ensures Inv(EmptyQueue<T>(count, size, maxBlock, mayAlloc), StartShadow(count))
    ensures Abs(EmptyQueue<T>(count, size, maxBlock, mayAlloc), StartShadow(count)) == []
  {
    var q := EmptyQueue<T>(count, size, maxBlock, mayAlloc);
    var sh := StartShadow(count);
    forall i | 0 <= i < count ensures Linked(q.blocks, sh, i) {
    }
    assert RingOk(q, sh);
    forall j | 0 <= j < |q.blocks| ensures Fine(q, j) {
      forall s | 0 <= s < size ensures LiveRight(q.blocks[j], s, false, false) {
      }
    }
    forall i | 0 <= i < count ensures ShapeAt(q, sh, i) {
    }
    AbsFirst(q, sh);
    assert sh.ring[1..1] == [];
  }

  /** The queue that the constructor builds for a requested size; `ceil` is what
      `ceilToPow2(requested + 1)` returns. */
  ghost function Constructed<T>(requested: nat, ceil: nat, maxBlock: nat, mayAlloc: bool): Queue<T>
    requires maxBlock >= 2 && LeastPow2(ceil, requested + 1)
  {
    LayoutHolds(requested, ceil, maxBlock);
    var layout := LayoutOf(requested, ceil, maxBlock);
    EmptyQueue(layout.count, layout.size, maxBlock, mayAlloc)
  }

  lemma ConstructedInv<T>(requested: nat, ceil: nat, maxBlock: nat, mayAlloc: bool) returns (sh: Shadow)
    requires maxBlock >= 2 && LeastPow2(ceil, requested + 1) && (requested >= 1 || !mayAlloc)
    ensures var q := Constructed<T>(requested, ceil, maxBlock, mayAlloc); Inv(q, sh) && Abs(q, sh) == []
  {
    var layout := LayoutOf(requested, ceil, maxBlock);
    LayoutHolds(requested, ceil, maxBlock);
    EmptyQueueInv<T>(layout.count, layout.size, maxBlock, mayAlloc);
    sh := StartShadow(layout.count);
  }

  /** Main result on the queue.  In every interleaving of one producer and one consumer, the
      dequeued values are a prefix of the enqueued ones, no assertion fails, no slot is
      overwritten or read unwritten, and `false` is returned only with good reason. */
  lemma QueueIsFifo<T>(requested: nat, ceil: nat, maxBlock: nat, mayAlloc: bool, moves: seq<Move<T>>)
    requires maxBlock >= 2 && LeastPow2(ceil, requested + 1) && (requested >= 1 || !mayAlloc)
    ensures var events := Exec(Constructed<T>(requested, ceil, maxBlock, mayAlloc), moves).events;
            && DequeuedOf(events) <= EnqueuedOf(events)
            && (forall i :: 0 <= i < |events| ==> EventOk(events[i]) && PeekOk(events, i))
  {
    var sh0 := ConstructedInv<T>(requested, ceil, maxBlock, mayAlloc);
    var q0 := Constructed<T>(requested, ceil, maxBlock, mayAlloc);
    var sh := RunIsFifo(q0, sh0, moves);
    var t := Exec(q0, moves);
    var enq, deq := EnqueuedOf(t.events), DequeuedOf(t.events);
    forall i | 0 <= i < |deq| ensures enq[i] == deq[i] {
      assert LiveSeq(enq)[i] == LiveSeq(deq)[i];
    }
  }

  // ----- when `false` is returned -----

  lemma {:induction false} ExecPrefix<T>(q0: Queue<T>, moves: seq<Move<T>>, k: nat)
    requires k <= |moves|
    ensures |Exec(q0, moves).events| == |moves|
    ensures Exec(q0, moves[..k]).events == Exec(q0, moves).events[..k]
  {
    if moves != [] {
      var shorter := moves[..|moves| - 1];
      if k < |moves| {
        ExecPrefix(q0, shorter, k);
        assert shorter[..k] == moves[..k];
      } else {
        ExecPrefix(q0, shorter, |shorter|);
        assert moves[..k] == moves;
      }
    }
  }

  /** The states a run goes through. */
  ghost function States<T>(q0: Queue<T>, moves: seq<Move<T>>): (r: seq<Queue<T>>)
    ensures |r| == |moves| + 1 && r[|moves|] == Exec(q0, moves).q
    ensures moves != [] ==> r[..|moves|] == States(q0, moves[..|moves| - 1])
  {
    if moves == [] then [q0] else States(q0, moves[..|moves| - 1]) + [Exec(q0, moves).q]
  }

  ghost predicate StepsTo<T>(states: seq<Queue<T>>, moves: seq<Move<T>>, k: nat)
    requires k < |moves| < |states|
  {
    states[k + 1] == QueueStep(states[k], moves[k]).q
  }

  ghost predicate IsRun<T>(states: seq<Queue<T>>, moves: seq<Move<T>>) {
    |states| == |moves| + 1 && forall k :: 0 <= k < |moves| ==> StepsTo(states, moves, k)
  }

  lemma StatesAreARun<T>(q0: Queue<T>, moves: seq<Move<T>>)
    ensures IsRun(States(q0, moves), moves) && States(q0, moves)[0] == q0
  {
    FirstState(q0, moves);
    forall k | 0 <= k < |moves| ensures StepsTo(States(q0, moves), moves, k) { StateStep(q0, moves, k); }
  }

  lemma {:induction false} FirstState<T>(q0: Queue<T>, moves: seq<Move<T>>)
    ensures States(q0, moves)[0] == q0
  {
    if moves != [] {
      FirstState(q0, moves[..|moves| - 1]);
      assert States(q0, moves)[..|moves|][0] == States(q0, moves)[0];
    }
  }

  lemma StateStep<T>(q0: Queue<T>, moves: seq<Move<T>>, k: nat)
    requires k < |moves|
    ensures StepsTo(States(q0, moves), moves, k)
  {
    StatesPrefix(q0, moves, k);
    StatesPrefix(q0, moves, k + 1);
    LastState(q0, moves[..k + 1]);
    assert moves[..k + 1][..k] == moves[..k];
  }

  lemma LastState<T>(q0: Queue<T>, moves: seq<Move<T>>)
    requires moves != []
    ensures var n := |moves| - 1; Exec(q0, moves).q == QueueStep(Exec(q0, moves[..n]).q, moves[n]).q
  {
  }

  lemma {:induction false} StatesPrefix<T>(q0: Queue<T>, moves: seq<Move<T>>, k: nat)
    requires k <= |moves|
    ensures States(q0, moves)[k] == Exec(q0, moves[..k]).q
  {
    if k < |moves| {
      StatesPrefix(q0, moves[..|moves| - 1], k);
      assert moves[..|moves| - 1][..k] == moves[..k];
    } else {
      assert moves[..k] == moves;
    }
  }

  ghost predicate Remembers<T>(p: Producer<T>) { (p.PLoadNext? || p.PLoadFrontBlock?) && p.sawFull }

  lemma SawFullStep<T>(q: Queue<T>, mv: Move<T>)
    requires Remembers(QueueStep(q, mv).q.p)
    ensures Remembers(q.p) || (q.p.PLoadFront? && NoRoom(q))
  {
  }

  lemma SawEmptyStep<T>(q: Queue<T>, mv: Move<T>)
    requires var c := QueueStep(q, mv).q.c; c.CLoadTailBlock? && c.sawEmpty
    ensures (q.c.CLoadTailBlock? && q.c.sawEmpty) || (q.c.CLoadTail? && NoElement(q))
  {
  }

  /** The history variable `sawFull` tells the truth: the queue had no room at step `k`,
      and the producer has been inside this call ever since. */
  lemma {:induction false} SawFullHappened<T>(states: seq<Queue<T>>, moves: seq<Move<T>>, n: nat) returns (k: nat)
    requires IsRun(states, moves) && n <= |moves| && states[0].p.PIdle? && Remembers(states[n].p)
    ensures k <= n && NoRoom(states[k]) && forall j :: k <= j <= n ==> !states[j].p.PIdle?
  {
    assert StepsTo(states, moves, n - 1);
    SawFullStep(states[n - 1], moves[n - 1]);
    if Remembers(states[n - 1].p) {
      k := SawFullHappened(states, moves, n - 1);
    } else {
      k := n - 1;
    }
  }

  /** The history variable `sawEmpty` tells the truth. */
  lemma {:induction false} SawEmptyHappened<T>(states: seq<Queue<T>>, moves: seq<Move<T>>, n: nat) returns (k: nat)
    requires IsRun(states, moves) && n <= |moves| && states[0].c.CIdle?
    requires states[n].c.CLoadTailBlock? && states[n].c.sawEmpty
    ensures k <= n && NoElement(states[k]) && forall j :: k <= j <= n ==> !states[j].c.CIdle?
  {
    assert StepsTo(states, moves, n - 1);
    SawEmptyStep(states[n - 1], moves[n - 1]);
    if states[n - 1].c.CLoadTailBlock? {
      k := SawEmptyHappened(states, moves, n - 1);
    } else {
      k := n - 1;
    }
  }

  /** Blocks are never removed and never smaller than at the start. */
  ghost predicate AtLeast<T>(q: Queue<T>, layout: Layout) {
    && |q.blocks| >= layout.count && q.largest >= layout.size
    && (forall j :: 0 <= j < |q.blocks| ==> q.blocks[j].size >= layout.size)
    && (q.p.PLink? ==> q.p.made.size >= layout.size)
  }

  lemma SameSizes<T>(q: Queue<T>, pm: ProducerMove<T>)
    requires !q.p.PLink?
    ensures var q' := ProducerStep(q, pm).q;
            |q'.blocks| == |q.blocks| && forall j :: 0 <= j < |q.blocks| ==> q'.blocks[j].size == q.blocks[j].size
  {
  }

  lemma AtLeastProducer<T>(q: Queue<T>, pm: ProducerMove<T>, layout: Layout)
    requires AtLeast(q, layout)
    ensures AtLeast(ProducerStep(q, pm).q, layout)
  {
    if !q.p.PLink? {
      SameSizes(q, pm);
    }
  }

  lemma AtLeastConsumer<T>(q: Queue<T>, cm: ConsumerMove, layout: Layout)
    requires AtLeast(q, layout)
    ensures AtLeast(ConsumerStep(q, cm).q, layout)
  {
    SameSizesConsumer(q, cm);
  }

  ghost predicate SizesKept<T>(q: Queue<T>, q': Queue<T>) {
    |q'.blocks| == |q.blocks| && forall j :: 0 <= j < |q.blocks| ==> q'.blocks[j].size == q.blocks[j].size
  }

  lemma PutKeepsSizes<T>(q: Queue<T>, id: nat, b: Block<T>)
    requires b.size == Blk(q, id).size
    ensures SizesKept(q, Put(q, id, b))
  {
  }

  lemma SameSizesConsumer<T>(q: Queue<T>, cm: ConsumerMove)
    ensures var q' := ConsumerStep(q, cm).q; q'.p == q.p && q'.largest == q.largest && SizesKept(q, q')
  {
    match q.c {
      case CLoadTail(_, fb, _) => PutKeepsSizes(q, fb, Blk(q, fb).(localTail := Blk(q, fb).tail));
      case CReloadTail(_, fb) => PutKeepsSizes(q, fb, Blk(q, fb).(localTail := Blk(q, fb).tail));
      case CLoadNextTail(_, nb, _) => PutKeepsSizes(q, nb, Blk(q, nb).(localTail := Blk(q, nb).tail));
      case CReadSlot(_, fb, f) =>
        var b := Blk(q, fb);
        if f < |b.data| && b.data[f].Live? {
          PutKeepsSizes(q, fb, b.(data := b.data[f := Destroyed(b.data[f].value)]));
        }
      case CStoreFront(fb, f, _) => PutKeepsSizes(q, fb, Blk(q, fb).(front := Inc(f, Blk(q, fb).size)));
      case _ =>
    }
  }

  lemma {:induction false} RunAtLeast<T>(q0: Queue<T>, moves: seq<Move<T>>, layout: Layout)
    requires AtLeast(q0, layout)
    ensures AtLeast(Exec(q0, moves).q, layout)
  {
    if moves != [] {
      RunAtLeast(q0, moves[..|moves| - 1], layout);
      var prior := Exec(q0, moves[..|moves| - 1]).q;
      match moves[|moves| - 1] {
        case ByProducer(pm) => AtLeastProducer(prior, pm, layout);
        case ByConsumer(cm) => AtLeastConsumer(prior, cm, layout);
      }
    }
  }

  lemma {:induction false} FlattenAtLeast<X>(parts: seq<seq<X>>, m: nat)
    requires forall i :: 0 <= i < |parts| ==> |parts[i]| >= m
    ensures |Flatten(parts)| >= |parts| * m
  {
    if parts != [] {
      FlattenAtLeast(parts[1..], m);
      assert |parts| * m == m + |parts[1..]| * m;
    }
  }

  lemma FullParts<T>(q: Queue<T>, sh: Shadow, layout: Layout)
    requires Inv(q, sh) && NoRoom(q) && AtLeast(q, layout)
    ensures var parts := Parts(q.blocks, sh.ring[1..sh.tp + 1]);
      forall i :: 0 <= i < |parts| ==> |parts[i]| >= layout.size - 1
  {
    var parts := Parts(q.blocks, sh.ring[1..sh.tp + 1]);
    assert Linked(q.blocks, sh, sh.tp);
    forall i | 0 <= i < |parts|
      ensures |parts[i]| >= layout.size - 1
    {
      assert ShapeAt(q, sh, i + 1) && Fine(q, sh.ring[i + 1]);
    }
  }

  /** A queue without room holds as many elements as its layout promises. */
  lemma NoRoomMeansLoaded<T>(q: Queue<T>, sh: Shadow, layout: Layout, n: nat)
    requires Inv(q, sh) && NoRoom(q) && AtLeast(q, layout) && Holds(layout, n)
    ensures |Abs(q, sh)| >= n
  {
    assert Linked(q.blocks, sh, sh.tp);
    assert sh.tp + 1 == |sh.ring|;
    AbsFirst(q, sh);
    if |sh.ring| == 1 {
      assert Fine(q, q.tailBlock);
      assert |Stored(q.blocks[q.tailBlock])| >= layout.size - 1;
    } else {
      var parts := Parts(q.blocks, sh.ring[1..sh.tp + 1]);
      FullParts(q, sh, layout);
      FlattenAtLeast(parts, layout.size - 1);
      assert |parts| == |sh.ring| - 1;
      MulMonotone(|sh.ring| - 1, layout.count - 1, layout.size - 1);
      AtLeastOnce(|sh.ring| - 1, layout.size - 1);
    }
  }

  lemma MulMonotone(a: int, b: int, m: nat)
    requires a >= b
    ensures a * m >= b * m
  {
  }

  lemma EventAt<T>(q0: Queue<T>, moves: seq<Move<T>>, i: nat)
    requires i < |moves|
    ensures |Exec(q0, moves).events| == |moves|
    ensures Exec(q0, moves).events[i] == QueueStep(States(q0, moves)[i], moves[i]).ev
  {
    ExecPrefix(q0, moves, i + 1);
    StatesPrefix(q0, moves, i);
    LastEvent(q0, moves[..i + 1]);
    assert moves[..i + 1][..i] == moves[..i];
    assert Exec(q0, moves).events[..i + 1][i] == Exec(q0, moves).events[i];
  }

  lemma LastEvent<T>(q0: Queue<T>, moves: seq<Move<T>>)
    requires moves != []
    ensures var n := |moves| - 1;
      |Exec(q0, moves).events| == |moves| && Exec(q0, moves).events[n] == QueueStep(Exec(q0, moves[..n]).q, moves[n]).ev
  {
    ExecPrefix(q0, moves[..|moves| - 1], 0);
  }

  ghost function InFlight<T>(events: seq<Event<T>>): int {
    |EnqueuedOf(events)| - |DequeuedOf(events)|
  }

  /** `try_enqueue` returns false only if, at some instant of that very call, the queue held
      at least as many elements as were requested from the constructor. */
  lemma RejectionJustified<T>(requested: nat, ceil: nat, maxBlock: nat, mayAlloc: bool, moves: seq<Move<T>>, i: nat)
      returns (k: nat)
    requires maxBlock >= 2 && LeastPow2(ceil, requested + 1) && (requested >= 1 || !mayAlloc) && i < |moves|
    requires var events := Exec(Constructed<T>(requested, ceil, maxBlock, mayAlloc), moves).events;
             i < |events| && events[i].Rejected?
    ensures var q0 := Constructed<T>(requested, ceil, maxBlock, mayAlloc);
            k <= i && InFlight(Exec(q0, moves[..k]).events) >= requested
            && forall j :: k <= j <= i ==> !States(q0, moves)[j].p.PIdle?
  {
    var q0 := Constructed<T>(requested, ceil, maxBlock, mayAlloc);
    QueueIsFifo<T>(requested, ceil, maxBlock, mayAlloc, moves);
    EventAt(q0, moves, i);
    StatesAreARun(q0, moves);
    RejectedFrom(States(q0, moves)[i], moves[i]);
    k := SawFullHappened(States(q0, moves), moves, i);
    StatesPrefix(q0, moves, k);
    LoadedAt<T>(requested, ceil, maxBlock, mayAlloc, moves[..k]);
  }

  lemma RejectedFrom<T>(q: Queue<T>, mv: Move<T>)
    requires QueueStep(q, mv).ev.Rejected?
    ensures q.p.PLoadFrontBlock? && q.p.sawFull == QueueStep(q, mv).ev.sawFull
  {
  }

  lemma LoadedAt<T>(requested: nat, ceil: nat, maxBlock: nat, mayAlloc: bool, moves: seq<Move<T>>)
    requires maxBlock >= 2 && LeastPow2(ceil, requested + 1) && (requested >= 1 || !mayAlloc)
    requires NoRoom(Exec(Constructed<T>(requested, ceil, maxBlock, mayAlloc), moves).q)
    ensures InFlight(Exec(Constructed<T>(requested, ceil, maxBlock, mayAlloc), moves).events) >= requested
  {
    var q0 := Constructed<T>(requested, ceil, maxBlock, mayAlloc);
    var layout := LayoutOf(requested, ceil, maxBlock);
    LayoutHolds(requested, ceil, maxBlock);
    var sh0 := ConstructedInv<T>(requested, ceil, maxBlock, mayAlloc);
    var sh := RunIsFifo(q0, sh0, moves);
    RunAtLeast(q0, moves, layout);
    NoRoomMeansLoaded(Exec(q0, moves).q, sh, layout, requested);
  }

  /** `try_dequeue` returns false only if the queue was empty at some instant of that call. */
  lemma EmptyJustified<T>(requested: nat, ceil: nat, maxBlock: nat, mayAlloc: bool, moves: seq<Move<T>>, i: nat)
      returns (k: nat)
    requires maxBlock >= 2 && LeastPow2(ceil, requested + 1) && (requested >= 1 || !mayAlloc) && i < |moves|
    requires var events := Exec(Constructed<T>(requested, ceil, maxBlock, mayAlloc), moves).events;
             i < |events| && events[i].FoundEmpty?
    ensures var q0 := Constructed<T>(requested, ceil, maxBlock, mayAlloc);
            k <= i && InFlight(Exec(q0, moves[..k]).events) == 0
            && forall j :: k <= j <= i ==> !States(q0, moves)[j].c.CIdle?
  {
    var q0 := Constructed<T>(requested, ceil, maxBlock, mayAlloc);
    QueueIsFifo<T>(requested, ceil, maxBlock, mayAlloc, moves);
    EventAt(q0, moves, i);
    StatesAreARun(q0, moves);
    EmptyFrom(States(q0, moves)[i], moves[i]);
    k := SawEmptyHappened(States(q0, moves), moves, i);
    StatesPrefix(q0, moves, k);
    var sh0 := ConstructedInv<T>(requested, ceil, maxBlock, mayAlloc);
    var sh := RunIsFifo(q0, sh0, moves[..k]);
    NoElementMeansEmpty(Exec(q0, moves[..k]).q, sh);
  }

  lemma EmptyFrom<T>(q: Queue<T>, mv: Move<T>)
    requires QueueStep(q, mv).ev.FoundEmpty?
    ensures q.c.CLoadTailBlock? && q.c.sawEmpty == QueueStep(q, mv).ev.sawEmpty
  {
  }

  lemma NoElementMeansEmpty<T>(q: Queue<T>, sh: Shadow)
    requires Inv(q, sh) && NoElement(q)
    ensures Abs(q, sh) == []
  {
    AbsFirst(q, sh);
    assert sh.tp == 0;
    assert sh.ring[1..1] == [];
  }
}
