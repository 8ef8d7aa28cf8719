/** `BlockingReaderWriterQueue`: every enqueue is followed by `signal`, every dequeue is
    preceded by a successful wait.  The inner dequeue is asserted to succeed.  A peek takes no
    token, and may find nothing. */
module BlockingQueue {
  import opened SpscQueue
  import opened SpscProof
  import opened SpscRuns
  import Semaphore

  datatype ProducerPhase = Ready | Enqueuing | Signalling
  datatype ConsumerPhase = Waiting | Dequeuing | Peeking

  datatype Blocking<T> = Blocking(q: Queue<T>, sem: Semaphore.Sema, pp: ProducerPhase, cp: ConsumerPhase)

  datatype Outcome<T> = Outcome(b: Blocking<T>, ok: bool)

  /** One step of the inner enqueue; when it has succeeded, `signal` follows. */
  function AfterEnqueue<T>(b: Blocking<T>, r: Step<T>): Outcome<T> {
    var b' := b.(q := r.q);
    if r.ev.Enqueued? then Outcome(b'.(sem := b.sem.(s := Semaphore.SSignal(1)), pp := Signalling), true)
    else Outcome(b'.(pp := if r.q.p.PIdle? then Ready else Enqueuing), !r.ev.Fault?)
  }

  function ProducerTurn<T>(b: Blocking<T>, mv: ProducerMove<T>): Outcome<T> {
    if b.pp.Signalling? then
      var r := Semaphore.SignallerStep(b.sem, Semaphore.Continue);
      Outcome(b.(sem := r.m, pp := if r.m.s.SIdle? then Ready else Signalling), r.ev != Semaphore.AssertFailed)
    else AfterEnqueue(b, ProducerStep(b.q, mv))
  }

  /** One step of the inner `try_dequeue`, which must not find the queue empty. */
  function AfterDequeue<T>(b: Blocking<T>, r: Step<T>): Outcome<T> {
    Outcome(b.(q := r.q, cp := if r.ev.Dequeued? then Waiting else Dequeuing), !r.ev.Fault? && !r.ev.FoundEmpty?)
  }

  /** One step of the inner `peek`. */
  function AfterPeek<T>(b: Blocking<T>, r: Step<T>): Outcome<T> {
    Outcome(b.(q := r.q, cp := if r.q.c.CIdle? then Waiting else Peeking), !r.ev.Fault?)
  }

  /** What the consumer does next: the semaphore's move, or a call of `peek`. */
  datatype Consuming = Take(wm: Semaphore.WaiterMove) | Peek

  /** `try_dequeue`, `pop`, `wait_dequeue` and `wait_dequeue_timed` differ only in how they wait. */
  function ConsumerTurn<T>(b: Blocking<T>, mv: Consuming): Outcome<T> {
    match b.cp
    case Dequeuing => AfterDequeue(b, ConsumerStep(b.q, Proceed))
    case Peeking => AfterPeek(b, ConsumerStep(b.q, Proceed))
    case Waiting =>
      match mv
      case Take(wm) => WaiterTurn(b, wm)
      case Peek =>
        if b.sem.w.WIdle? then Outcome(b.(q := b.q.(c := CLoadFrontBlock(true)), cp := Peeking), true)
        else Outcome(b, true)
  }

  function WaiterTurn<T>(b: Blocking<T>, wm: Semaphore.WaiterMove): Outcome<T> {
    var r := Semaphore.WaiterStep(b.sem, wm);
    if r.ev == Semaphore.Won then
      Outcome(b.(sem := r.m, q := b.q.(c := CLoadFrontBlock(false)), cp := Dequeuing), true)
    else Outcome(b.(sem := r.m), true)
  }

  datatype Move<T> = ProducerGo(pm: ProducerMove<T>) | ConsumerGo(cm: Consuming)

  function Turn<T>(b: Blocking<T>, mv: Move<T>): Outcome<T> {
    match mv
    case ProducerGo(pm) => ProducerTurn(b, pm)
    case ConsumerGo(cm) => ConsumerTurn(b, cm)
  }

  /** `ok` as long as no assertion has failed. */
  function Run<T>(b: Blocking<T>, moves: seq<Move<T>>): Outcome<T> {
    if moves == [] then Outcome(b, true)
    else
      var o := Run(b, moves[..|moves| - 1]);
      var o' := Turn(o.b, moves[|moves| - 1]);
      Outcome(o'.b, o.ok && o'.ok)
  }

  // ----- invariant -----

  ghost function Pending<T>(b: Blocking<T>): int {
    if b.pp.Signalling? && b.sem.s.SSignal? then 1 else 0
  }

  /** Elements and signals correspond: what was enqueued but not signalled yet, and what was
      won but not dequeued yet, makes up the difference. */
  ghost predicate Balanced<T>(b: Blocking<T>, length: nat) {
    && length == b.sem.signals - b.sem.wins + Pending(b) + (if b.cp.Dequeuing? then 1 else 0)
    && (b.pp.Signalling? <==> !b.sem.s.SIdle?) && (b.sem.s.SSignal? ==> b.sem.s.count == 1)
    && (b.pp.Enqueuing? <==> !b.q.p.PIdle?)
    && (b.cp.Waiting? <==> b.q.c.CIdle?) && (b.cp.Waiting? || b.sem.w.WIdle?)
    && (b.cp.Dequeuing? && b.q.c.CLoadTailBlock? ==> !b.q.c.sawEmpty)
    && (b.cp.Peeking? <==> Peeks(b.q.c))
  }

  ghost predicate Peeks<T>(c: Consumer<T>) {
    match c
    case CLoadFrontBlock(peek) => peek
    case CLoadFront(peek, _, _) => peek
    case CLoadTail(peek, _, _) => peek
    case CReadSlot(peek, _, _) => peek
    case CLoadTailBlock(peek, _, _) => peek
    case CReloadFrontBlock(peek) => peek
    case CReloadTail(peek, _) => peek
    case CReloadFront(peek, _, _) => peek
    case CLoadNext(peek, _) => peek
    case CLoadNextFront(peek, _) => peek
    case CLoadNextTail(peek, _, _) => peek
    case _ => false
  }

  ghost predicate BlockingInv<T>(b: Blocking<T>, sh: Shadow) {
    Inv(b.q, sh) && Semaphore.Inv(b.sem) && Balanced(b, |Abs(b.q, sh)|)
  }

  lemma ProducerShape<T>(q: Queue<T>, mv: ProducerMove<T>)
    ensures var r := ProducerStep(q, mv);
            && r.q.c == q.c && !r.ev.Dequeued? && (r.ev.Enqueued? ==> r.q.p.PIdle?)
  {
  }

  lemma ConsumerShape<T>(q: Queue<T>)
    requires !Peeks(q.c) && !q.c.CIdle?
    ensures var r := ConsumerStep(q, Proceed);
            && r.q.p == q.p && !r.ev.Enqueued? && !Peeks(r.q.c)
            && (r.ev.Dequeued? || r.ev.FoundEmpty? <==> r.q.c.CIdle?)
            && (r.q.c.CLoadTailBlock? ==> r.q.c.sawEmpty == NoElement(q))
            && (r.ev.FoundEmpty? ==> q.c.CLoadTailBlock? && r.ev.sawEmpty == q.c.sawEmpty)
  {
  }

  lemma SignalKeeps<T>(b: Blocking<T>, length: nat)
    requires Semaphore.Inv(b.sem) && Balanced(b, length) && b.pp.Signalling?
    ensures var o := ProducerTurn(b, Continue(true)); o.ok && Semaphore.Inv(o.b.sem) && Balanced(o.b, length)
  {
    Semaphore.StepKeeps(b.sem, Semaphore.BySignaller(Semaphore.Continue));
  }

  lemma PeekShape<T>(q: Queue<T>)
    requires Peeks(q.c)
    ensures var r := ConsumerStep(q, Proceed);
            && r.q.p == q.p && !r.ev.Enqueued? && !r.ev.Dequeued? && (Peeks(r.q.c) <==> !r.q.c.CIdle?)
  {
  }

  lemma WaitKeeps<T>(b: Blocking<T>, length: nat, mv: Semaphore.WaiterMove)
    requires Semaphore.Inv(b.sem) && Balanced(b, length) && b.cp.Waiting?
    ensures var o := WaiterTurn(b, mv); o.ok && Semaphore.Inv(o.b.sem) && Balanced(o.b, length)
  {
    Semaphore.StepKeeps(b.sem, Semaphore.ByWaiter(mv));
  }

  lemma EnqueueBalance<T>(b: Blocking<T>, length: nat, r: Step<T>, length': nat)
    requires Semaphore.Inv(b.sem) && Balanced(b, length) && !b.pp.Signalling?
    requires !r.ev.Fault? && r.q.c == b.q.c && (r.ev.Enqueued? ==> r.q.p.PIdle?)
    requires length' == length + (if r.ev.Enqueued? then 1 else 0)
    ensures var o := AfterEnqueue(b, r); o.ok && Semaphore.Inv(o.b.sem) && Balanced(o.b, length')
  {
  }

  lemma ProducerTurnKeeps<T>(b: Blocking<T>, sh: Shadow, mv: ProducerMove<T>) returns (sh': Shadow)
    requires BlockingInv(b, sh)
    ensures var o := ProducerTurn(b, mv); o.ok && BlockingInv(o.b, sh')
  {
    sh' := sh;
    if b.pp.Signalling? {
      SignalKeeps(b, |Abs(b.q, sh)|);
    } else {
      ProducerShape(b.q, mv);
      ProducerKeeps(b.q, sh, mv);
      sh' := ShadowAfterProducer(b.q, sh);
      var r := ProducerStep(b.q, mv);
      EnqueueBalance(b, |Abs(b.q, sh)|, r, |Abs(r.q, sh')|);
    }
  }

  lemma DequeueBalance<T>(b: Blocking<T>, length: nat, r: Step<T>, length': nat)
    requires Balanced(b, length) && b.cp.Dequeuing? && !r.ev.Fault? && !r.ev.FoundEmpty?
    requires r.q.p == b.q.p && !Peeks(r.q.c) && (r.ev.Dequeued? <==> r.q.c.CIdle?)
    requires r.q.c.CLoadTailBlock? ==> !r.q.c.sawEmpty
    requires length == length' + (if r.ev.Dequeued? then 1 else 0)
    ensures var o := AfterDequeue(b, r); o.ok && Balanced(o.b, length')
  {
  }

  /** A won wait guarantees an element for the whole of the inner dequeue. */
  lemma NotEmptyWhileDequeuing<T>(b: Blocking<T>, sh: Shadow)
    requires BlockingInv(b, sh) && b.cp.Dequeuing?
    ensures |Abs(b.q, sh)| > 0 && !NoElement(b.q)
  {
    if NoElement(b.q) {
      NoElementMeansEmpty(b.q, sh);
    }
  }

  /** A step of a peek leaves the elements and the semaphore as they are, and what it shows is
      the oldest element. */
  lemma PeekIsHarmless<T>(b: Blocking<T>, sh: Shadow, mv: Consuming) returns (sh': Shadow)
    requires BlockingInv(b, sh) && b.cp.Peeking?
    ensures var o, r := ConsumerTurn(b, mv), ConsumerStep(b.q, Proceed);
      && o.ok && BlockingInv(o.b, sh') && o.b.sem == b.sem && o.b.pp == b.pp
      && Abs(o.b.q, sh') == Abs(b.q, sh)
      && (r.ev.Peeked? ==> |Abs(b.q, sh)| > 0 && Abs(b.q, sh)[0] == Live(r.ev.v))
  {
    PeekShape(b.q);
    ConsumerKeeps(b.q, sh, Proceed);
    sh' := ShadowAfterConsumer(b.q, sh);
  }

  lemma DequeueKeeps<T>(b: Blocking<T>, sh: Shadow, mv: Consuming) returns (sh': Shadow)
    requires BlockingInv(b, sh) && b.cp.Dequeuing?
    ensures var o := ConsumerTurn(b, mv); o.ok && BlockingInv(o.b, sh')
  {
    NotEmptyWhileDequeuing(b, sh);
    ConsumerShape(b.q);
    ConsumerKeeps(b.q, sh, Proceed);
    sh' := ShadowAfterConsumer(b.q, sh);
    var r := ConsumerStep(b.q, Proceed);
    DequeueBalance(b, |Abs(b.q, sh)|, r, |Abs(r.q, sh')|);
  }

  lemma ConsumerTurnKeeps<T>(b: Blocking<T>, sh: Shadow, mv: Consuming) returns (sh': Shadow)
    requires BlockingInv(b, sh)
    ensures var o := ConsumerTurn(b, mv); o.ok && BlockingInv(o.b, sh')
  {
    sh' := sh;
    if b.cp.Dequeuing? {
      sh' := DequeueKeeps(b, sh, mv);
    } else if b.cp.Peeking? {
      sh' := PeekIsHarmless(b, sh, mv);
    } else if mv.Take? {
      WaitKeeps(b, |Abs(b.q, sh)|, mv.wm);
      ConsumerLocal(b.q, sh, CLoadFrontBlock(false));
    } else {
      ConsumerLocal(b.q, sh, CLoadFrontBlock(true));
    }
  }

  /** Main result.  In every interleaving, with peeks at any time, the inner dequeue after a successful wait succeeds:
      no assertion of the queue, the semaphore or the blocking queue ever fails. */
  lemma {:induction false} InnerDequeueSucceeds<T>(b0: Blocking<T>, sh0: Shadow, moves: seq<Move<T>>) returns (sh: Shadow)
    requires b0 == Blocking(b0.q, Semaphore.New(0), Ready, Waiting)
    requires Inv(b0.q, sh0) && Abs(b0.q, sh0) == [] && b0.q.p.PIdle? && b0.q.c.CIdle?
    ensures Run(b0, moves).ok && BlockingInv(Run(b0, moves).b, sh)
  {
    sh := sh0;
    if moves != [] {
      var n := |moves| - 1;
      sh := InnerDequeueSucceeds(b0, sh0, moves[..n]);
      match moves[n] {
        case ProducerGo(pm) => sh := ProducerTurnKeeps(Run(b0, moves[..n]).b, sh, pm);
        case ConsumerGo(cm) => sh := ConsumerTurnKeeps(Run(b0, moves[..n]).b, sh, cm);
      }
    }
  }
}
