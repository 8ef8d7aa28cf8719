/** The single-producer/single-consumer `ReaderWriterQueue`: a ring of ring buffers
    ("blocks").  One step of the machine is one access to memory that both threads see,
    under sequential consistency.  Loads of a variable that only the loading thread
    writes and that is not atomic (the shadow indices) are part of the neighbouring step.

    A pointer to a block is an index into `blocks`.  A slot remembers whether it holds a
    constructed object, so that reading an unwritten slot and constructing over a live
    object are visible as a `Fault`; a failing `assert` is a `Fault` too. */
module SpscQueue {

  datatype Slot<T> = Raw | Live(value: T) | Destroyed(value: T)

  /** `localTail` is the consumer's copy of `tail`, `localFront` the producer's copy of `front`. */
  datatype Block<T> = Block(
    size: nat, front: nat, localTail: nat, tail: nat, localFront: nat, next: nat, data: seq<Slot<T>>)

  /** Where the producer is in `inner_enqueue`; the fields are its locals.  `sawFull` is a
      history variable: the queue had no room when `front` was read in this call. */
  datatype Producer<T> =
    | PIdle
    | PLoadTailBlock(e: T, alloc: bool)
    | PLoadTail(e: T, alloc: bool, tb: nat, lf: nat)
    | PLoadFront(e: T, alloc: bool, tb: nat, t: nat)
    | PWriteSlot(e: T, tb: nat, t: nat)
    | PStoreTail(e: T, tb: nat, t: nat)
    | PLoadNext(e: T, alloc: bool, tb: nat, sawFull: bool)
    | PLoadFrontBlock(e: T, alloc: bool, tb: nat, nx: nat, sawFull: bool)
    | PLoadNextAgain(e: T, tb: nat)
    | PLoadNextFront(e: T, nb: nat)
    | PLoadNextTail(e: T, nb: nat, nf: nat)
    | PWriteNextSlot(e: T, nb: nat, nt: nat)
    | PStoreNextTail(e: T, nb: nat, nt: nat)
    | PStoreTailBlock(e: T, nb: nat)
    | PAlloc(e: T, tb: nat)
    | PLink(e: T, tb: nat, made: Block<T>)

  /** Where the consumer is in `try_dequeue` (or `peek`).  `sawEmpty` is a history variable:
      the queue was empty when `tail` was first read in this call. */
  datatype Consumer<T> =
    | CIdle
    | CLoadFrontBlock(peek: bool)
    | CLoadFront(peek: bool, fb: nat, lt: nat)
    | CLoadTail(peek: bool, fb: nat, f: nat)
    | CReadSlot(peek: bool, fb: nat, f: nat)
    | CStoreFront(fb: nat, f: nat, v: T)
    | CLoadTailBlock(peek: bool, fb: nat, sawEmpty: bool)
    | CReloadFrontBlock(peek: bool)
    | CReloadTail(peek: bool, fb: nat)
    | CReloadFront(peek: bool, fb: nat, t: nat)
    | CLoadNext(peek: bool, fb: nat)
    | CLoadNextFront(peek: bool, nb: nat)
    | CLoadNextTail(peek: bool, nb: nat, nf: nat)
    | CStoreFrontBlock(nb: nat, nf: nat)

  /** `maxBlock` is MAX_BLOCK_SIZE; `mayAlloc` says whether the producer ever calls
      `enqueue` (which may allocate) or only `try_enqueue`. */
  datatype Queue<T> = Queue(
    blocks: seq<Block<T>>, frontBlock: nat, tailBlock: nat, largest: nat,
    maxBlock: nat, mayAlloc: bool, p: Producer<T>, c: Consumer<T>)

  datatype Event<T> =
    | Tau
    | Enqueued(v: T)
    | Rejected(sawFull: bool)
    | OutOfMemory
    | Dequeued(v: T)
    | Peeked(v: T)
    | FoundEmpty(sawEmpty: bool)
    | Fault

  datatype Step<T> = Step(q: Queue<T>, ev: Event<T>)

  datatype ProducerMove<T> = Begin(e: T, alloc: bool) | Continue(memoryLeft: bool)
  datatype ConsumerMove = Call(peek: bool) | Proceed
  datatype Move<T> = ByProducer(pm: ProducerMove<T>) | ByConsumer(cm: ConsumerMove)

  // ----- index arithmetic inside one block -----

  /** `(i + 1) & sizeMask` for a power-of-two size (see QueueLayout.MaskIsWrap). */
  function Inc(i: nat, size: nat): nat {
    if i + 1 == size then 0 else i + 1
  }

  /** `(b - a) & sizeMask`: how far `b` is ahead of `a` on the circle. */
  function Dist(a: nat, b: nat, size: nat): nat {
    if a <= b then b - a else if a <= b + size then b + size - a else 0
  }

  function Wrap(i: nat, size: nat): nat {
    if i >= size then i - size else i
  }

  // ----- memory -----

  function Get<T>(blocks: seq<Block<T>>, id: nat): Block<T> {
    if id < |blocks| then blocks[id] else Block(1, 0, 0, 0, 0, 0, [])
  }

  function Blk<T>(q: Queue<T>, id: nat): Block<T> {
    Get(q.blocks, id)
  }

  function Put<T>(q: Queue<T>, id: nat, b: Block<T>): Queue<T> {
    if id < |q.blocks| then q.(blocks := q.blocks[id := b]) else q
  }

  function Crash<T>(q: Queue<T>): Step<T> { Step(q, Fault) }

  function PTo<T>(q: Queue<T>, p: Producer<T>): Step<T> { Step(q.(p := p), Tau) }

  function CTo<T>(q: Queue<T>, c: Consumer<T>): Step<T> { Step(q.(c := c), Tau) }

  predicate Full<T>(b: Block<T>) { Inc(b.tail, b.size) == b.front }

  /** The producer cannot enqueue without allocating: the tail block is full and the block
      after it is the one the consumer reads. */
  predicate NoRoom<T>(q: Queue<T>) {
    Full(Blk(q, q.tailBlock)) && Blk(q, q.tailBlock).next == q.frontBlock
  }

  /** The consumer has nothing to read: its block is empty and is also the tail block. */
  predicate NoElement<T>(q: Queue<T>) {
    Blk(q, q.frontBlock).front == Blk(q, q.frontBlock).tail && q.tailBlock == q.frontBlock
  }

  // ----- the producer: inner_enqueue -----

  function NewBlockSize<T>(q: Queue<T>): nat {
    if q.largest >= q.maxBlock then q.largest else q.largest * 2
  }

  /** A fresh block that already holds its first element. */
  function FreshBlock<T>(size: nat, next: nat, e: T): Block<T> {
    Block(size, 0, 1, 1, 0, next, seq(size, i => if i == 0 then Live(e) else Raw))
  }

  function ProducerStep<T>(q: Queue<T>, mv: ProducerMove<T>): Step<T> {
    match q.p
    case PIdle =>
      if mv.Begin? && (mv.alloc ==> q.mayAlloc) then PTo(q, PLoadTailBlock(mv.e, mv.alloc)) else Step(q, Tau)
    case PLoadTailBlock(e, alloc) =>
      PTo(q, PLoadTail(e, alloc, q.tailBlock, Blk(q, q.tailBlock).localFront))
    case PLoadTail(e, alloc, tb, lf) =>
      var b := Blk(q, tb);
      if Inc(b.tail, b.size) != lf then PTo(q, PWriteSlot(e, tb, b.tail))
      else PTo(q, PLoadFront(e, alloc, tb, b.tail))
    case PLoadFront(e, alloc, tb, t) =>
      var b := Blk(q, tb);
      var q' := Put(q, tb, b.(localFront := b.front));
      if Inc(t, b.size) != b.front then PTo(q', PWriteSlot(e, tb, t))
      else PTo(q', PLoadNext(e, alloc, tb, NoRoom(q)))
    case PWriteSlot(e, tb, t) =>
      var b := Blk(q, tb);
      if t >= |b.data| || b.data[t].Live? then Crash(q)
      else PTo(Put(q, tb, b.(data := b.data[t := Live(e)])), PStoreTail(e, tb, t))
    case PStoreTail(e, tb, t) =>
      var b := Blk(q, tb);
      Step(Put(q, tb, b.(tail := Inc(t, b.size))).(p := PIdle), Enqueued(e))
    case PLoadNext(e, alloc, tb, sawFull) =>
      PTo(q, PLoadFrontBlock(e, alloc, tb, Blk(q, tb).next, sawFull))
    case PLoadFrontBlock(e, alloc, tb, nx, sawFull) =>
      if nx != q.frontBlock then PTo(q, PLoadNextAgain(e, tb))
      else if alloc then PTo(q, PAlloc(e, tb))
      else Step(q.(p := PIdle), Rejected(sawFull))
    case PLoadNextAgain(e, tb) =>
      PTo(q, PLoadNextFront(e, Blk(q, tb).next))
    case PLoadNextFront(e, nb) =>
      var b := Blk(q, nb);
      PTo(Put(q, nb, b.(localFront := b.front)), PLoadNextTail(e, nb, b.front))
    case PLoadNextTail(e, nb, nf) =>
      var b := Blk(q, nb);
      if nf != b.tail then Crash(q)
      else PTo(Put(q, nb, b.(localFront := nf)), PWriteNextSlot(e, nb, b.tail))
    case PWriteNextSlot(e, nb, nt) =>
      var b := Blk(q, nb);
      if nt >= |b.data| || b.data[nt].Live? then Crash(q)
      else PTo(Put(q, nb, b.(data := b.data[nt := Live(e)])), PStoreNextTail(e, nb, nt))
    case PStoreNextTail(e, nb, nt) =>
      var b := Blk(q, nb);
      PTo(Put(q, nb, b.(tail := Inc(nt, b.size))), PStoreTailBlock(e, nb))
    case PStoreTailBlock(e, nb) =>
      Step(q.(tailBlock := nb, p := PIdle), Enqueued(e))
    case PAlloc(e, tb) =>
      if mv.Continue? && !mv.memoryLeft then Step(q.(p := PIdle), OutOfMemory)
      else PTo(q.(largest := NewBlockSize(q)), PLink(e, tb, FreshBlock(NewBlockSize(q), Blk(q, tb).next, e)))
    case PLink(e, tb, made) =>
      var id := |q.blocks|;
      var q' := Put(q, tb, Blk(q, tb).(next := id));
      PTo(q'.(blocks := q'.blocks + [made]), PStoreTailBlock(e, id))
  }

  // ----- the consumer: try_dequeue, pop (which drops the value) and peek -----

  function ConsumerStep<T>(q: Queue<T>, mv: ConsumerMove): Step<T> {
    match q.c
    case CIdle =>
      if mv.Call? then CTo(q, CLoadFrontBlock(mv.peek)) else Step(q, Tau)
    case CLoadFrontBlock(peek) =>
      CTo(q, CLoadFront(peek, q.frontBlock, Blk(q, q.frontBlock).localTail))
    case CLoadFront(peek, fb, lt) =>
      var f := Blk(q, fb).front;
      if f != lt then CTo(q, CReadSlot(peek, fb, f)) else CTo(q, CLoadTail(peek, fb, f))
    case CLoadTail(peek, fb, f) =>
      var b := Blk(q, fb);
      var q' := Put(q, fb, b.(localTail := b.tail));
      if f != b.tail then CTo(q', CReadSlot(peek, fb, f))
      else CTo(q', CLoadTailBlock(peek, fb, NoElement(q)))
    case CReadSlot(peek, fb, f) =>
      var b := Blk(q, fb);
      if f >= |b.data| || !b.data[f].Live? then Crash(q)
      else if peek then Step(q.(c := CIdle), Peeked(b.data[f].value))
      else CTo(Put(q, fb, b.(data := b.data[f := Destroyed(b.data[f].value)])), CStoreFront(fb, f, b.data[f].value))
    case CStoreFront(fb, f, v) =>
      var b := Blk(q, fb);
      Step(Put(q, fb, b.(front := Inc(f, b.size))).(c := CIdle), Dequeued(v))
    case CLoadTailBlock(peek, fb, sawEmpty) =>
      if fb != q.tailBlock then CTo(q, CReloadFrontBlock(peek))
      else Step(q.(c := CIdle), FoundEmpty(sawEmpty))
    case CReloadFrontBlock(peek) =>
      CTo(q, CReloadTail(peek, q.frontBlock))
    case CReloadTail(peek, fb) =>
      var b := Blk(q, fb);
      CTo(Put(q, fb, b.(localTail := b.tail)), CReloadFront(peek, fb, b.tail))
    case CReloadFront(peek, fb, t) =>
      var f := Blk(q, fb).front;
      if f != t then CTo(q, CReadSlot(peek, fb, f)) else CTo(q, CLoadNext(peek, fb))
    case CLoadNext(peek, fb) =>
      CTo(q, CLoadNextFront(peek, Blk(q, fb).next))
    case CLoadNextFront(peek, nb) =>
      CTo(q, CLoadNextTail(peek, nb, Blk(q, nb).front))
    case CLoadNextTail(peek, nb, nf) =>
      var b := Blk(q, nb);
      if nf == b.tail then Crash(q)
      else if peek then
        if nf >= |b.data| || !b.data[nf].Live? then Crash(q)
        else Step(q.(c := CIdle), Peeked(b.data[nf].value))
      else CTo(Put(q, nb, b.(localTail := b.tail)), CStoreFrontBlock(nb, nf))
    case CStoreFrontBlock(nb, nf) =>
      CTo(q.(frontBlock := nb), CReadSlot(false, nb, nf))
  }

  function QueueStep<T>(q: Queue<T>, mv: Move<T>): Step<T> {
    match mv
    case ByProducer(pm) => ProducerStep(q, pm)
    case ByConsumer(cm) => ConsumerStep(q, cm)
  }

  // ----- runs -----

  datatype Trace<T> = Trace(q: Queue<T>, events: seq<Event<T>>)

  /** The state and the events after any interleaving of steps of the two threads. */
  function Exec<T>(q: Queue<T>, moves: seq<Move<T>>): Trace<T> {
    if moves == [] then Trace(q, [])
    else
      var before := Exec(q, moves[..|moves| - 1]);
      var s := QueueStep(before.q, moves[|moves| - 1]);
      Trace(s.q, before.events + [s.ev])
  }

  function EnqueuedOf<T>(events: seq<Event<T>>): seq<T> {
    if events == [] then []
    else
      var ev := events[|events| - 1];
      EnqueuedOf(events[..|events| - 1]) + (if ev.Enqueued? then [ev.v] else [])
  }

  function DequeuedOf<T>(events: seq<Event<T>>): seq<T> {
    if events == [] then []
    else
      var ev := events[|events| - 1];
      DequeuedOf(events[..|events| - 1]) + (if ev.Dequeued? then [ev.v] else [])
  }

  /** An empty queue of `count` blocks of `size` slots, as the constructor links them. */
  function EmptyQueue<T>(count: nat, size: nat, maxBlock: nat, mayAlloc: bool): Queue<T>
    requires count >= 1
  {
    Queue(seq(count, (i: nat) => Block(size, 0, 0, 0, 0, if i + 1 == count then 0 else i + 1, seq(size, _ => Raw))),
          0, 0, size, maxBlock, mayAlloc, PIdle, CIdle)
  }
}
