/** Every call on the queue returns after a bounded number of the caller's own steps, whatever
    the other thread does, and returns false only for the reasons the source names. */
module QueueProgress {
  import opened SpscQueue
  import opened SpscProof
  import opened SpscRuns
  import opened QueueLayout

  /** How many steps the producer has left at most. */
  function ProducerLeft<T>(p: Producer<T>): nat {
    match p
    case PIdle => 0
    case PLoadTailBlock(_, _) => 11
    case PLoadTail(_, _, _, _) => 10
    case PLoadFront(_, _, _, _) => 9
    case PLoadNext(_, _, _, _) => 8
    case PLoadFrontBlock(_, _, _, _, _) => 7
    case PLoadNextAgain(_, _) => 6
    case PLoadNextFront(_, _) => 5
    case PLoadNextTail(_, _, _) => 4
    case PWriteNextSlot(_, _, _) => 3
    case PAlloc(_, _) => 3
    case PStoreNextTail(_, _, _) => 2
    case PLink(_, _, _) => 2
    case PWriteSlot(_, _, _) => 2
    case PStoreTailBlock(_, _) => 1
    case PStoreTail(_, _, _) => 1
  }

  function ConsumerLeft<T>(c: Consumer<T>): nat {
    match c
    case CIdle => 0
    case CLoadFrontBlock(_) => 13
    case CLoadFront(_, _, _) => 12
    case CLoadTail(_, _, _) => 11
    case CLoadTailBlock(_, _, _) => 10
    case CReloadFrontBlock(_) => 9
    case CReloadTail(_, _) => 8
    case CReloadFront(_, _, _) => 7
    case CLoadNext(_, _) => 6
    case CLoadNextFront(_, _) => 5
    case CLoadNextTail(_, _, _) => 4
    case CStoreFrontBlock(_, _) => 3
    case CReadSlot(_, _, _) => 2
    case CStoreFront(_, _, _) => 1
  }

  lemma ProducerAdvances<T>(q: Queue<T>, pm: ProducerMove<T>)
    requires !q.p.PIdle? && !ProducerStep(q, pm).ev.Fault?
    ensures ProducerLeft(ProducerStep(q, pm).q.p) < ProducerLeft(q.p)
  {
  }

  lemma ConsumerAdvances<T>(q: Queue<T>, cm: ConsumerMove)
    requires !q.c.CIdle? && !ConsumerStep(q, cm).ev.Fault?
    ensures ConsumerLeft(ConsumerStep(q, cm).q.c) < ConsumerLeft(q.c)
  {
  }

  /** A call returns with an event: `enqueue` and `dequeue` do not return silently. */
  lemma EnqueueReturns<T>(q: Queue<T>, pm: ProducerMove<T>)
    ensures var r := ProducerStep(q, pm);
      !q.p.PIdle? && r.q.p.PIdle? <==> r.ev.Enqueued? || r.ev.Rejected? || r.ev.OutOfMemory?
  {
  }

  lemma DequeueReturns<T>(q: Queue<T>, cm: ConsumerMove)
    ensures var r := ConsumerStep(q, cm);
      !q.c.CIdle? && r.q.c.CIdle? <==> r.ev.Dequeued? || r.ev.Peeked? || r.ev.FoundEmpty?
  {
  }

  function Turns<T>(moves: seq<Move<T>>, producer: bool): nat {
    if moves == [] then 0
    else Turns(moves[..|moves| - 1], producer) + if moves[|moves| - 1].ByProducer? == producer then 1 else 0
  }

  /** The producer is inside a call from state `i` to state `j`. */
  ghost predicate Enqueuing<T>(states: seq<Queue<T>>, i: nat, j: nat)
    requires i <= j < |states|
  {
    forall k :: i <= k <= j ==> !states[k].p.PIdle?
  }

  ghost predicate Dequeuing<T>(states: seq<Queue<T>>, i: nat, j: nat)
    requires i <= j < |states|
  {
    forall k :: i <= k <= j ==> !states[k].c.CIdle?
  }

  ghost predicate NoFaults<T>(states: seq<Queue<T>>, moves: seq<Move<T>>)
    requires IsRun(states, moves)
  {
    forall k :: 0 <= k < |moves| ==> NoFault(states, moves, k)
  }

  ghost predicate NoFault<T>(states: seq<Queue<T>>, moves: seq<Move<T>>, k: nat)
    requires k < |moves| && k < |states|
  {
    !QueueStep(states[k], moves[k]).ev.Fault?
  }

  lemma OtherThread<T>(q: Queue<T>, mv: Move<T>)
    ensures mv.ByProducer? ==> QueueStep(q, mv).q.c == q.c
    ensures mv.ByConsumer? ==> QueueStep(q, mv).q.p == q.p
  {
  }

  lemma {:induction false} EnqueueSteps<T>(states: seq<Queue<T>>, moves: seq<Move<T>>, i: nat, j: nat)
    requires IsRun(states, moves) && NoFaults(states, moves) && i <= j <= |moves| && Enqueuing(states, i, j)
    ensures Turns(moves[i..j], true) + ProducerLeft(states[j].p) <= ProducerLeft(states[i].p)
  {
    if i < j {
      EnqueueSteps(states, moves, i, j - 1);
      assert StepsTo(states, moves, j - 1) && NoFault(states, moves, j - 1);
      assert moves[i..j][..j - 1 - i] == moves[i..j - 1];
      OtherThread(states[j - 1], moves[j - 1]);
      if moves[j - 1].ByProducer? {
        ProducerAdvances(states[j - 1], moves[j - 1].pm);
      }
    }
  }

  lemma {:induction false} DequeueSteps<T>(states: seq<Queue<T>>, moves: seq<Move<T>>, i: nat, j: nat)
    requires IsRun(states, moves) && NoFaults(states, moves) && i <= j <= |moves| && Dequeuing(states, i, j)
    ensures Turns(moves[i..j], false) + ConsumerLeft(states[j].c) <= ConsumerLeft(states[i].c)
  {
    if i < j {
      DequeueSteps(states, moves, i, j - 1);
      assert StepsTo(states, moves, j - 1) && NoFault(states, moves, j - 1);
      assert moves[i..j][..j - 1 - i] == moves[i..j - 1];
      OtherThread(states[j - 1], moves[j - 1]);
      if moves[j - 1].ByConsumer? {
        ConsumerAdvances(states[j - 1], moves[j - 1].cm);
      }
    }
  }

  /** Main result: the queue is wait-free.  In every run of a constructed queue, a thread that
      has been inside one call all the time has taken fewer than 11 steps of that enqueue, or
      13 of that dequeue or peek. */
  lemma WaitFree<T>(requested: nat, ceil: nat, maxBlock: nat, mayAlloc: bool, moves: seq<Move<T>>, i: nat, j: nat)
    requires maxBlock >= 2 && LeastPow2(ceil, requested + 1) && (requested >= 1 || !mayAlloc) && i <= j <= |moves|
    ensures var states := States(Constructed<T>(requested, ceil, maxBlock, mayAlloc), moves);
      && (Enqueuing(states, i, j) ==> Turns(moves[i..j], true) < 11)
      && (Dequeuing(states, i, j) ==> Turns(moves[i..j], false) < 13)
  {
    var q0 := Constructed<T>(requested, ceil, maxBlock, mayAlloc);
    var states := States(q0, moves);
    StatesAreARun(q0, moves);
    NeverFaults<T>(requested, ceil, maxBlock, mayAlloc, moves);
    WaitFreeRun(states, moves, i, j);
  }

  lemma WaitFreeRun<T>(states: seq<Queue<T>>, moves: seq<Move<T>>, i: nat, j: nat)
    requires IsRun(states, moves) && NoFaults(states, moves) && i <= j <= |moves|
    ensures Enqueuing(states, i, j) ==> Turns(moves[i..j], true) < 11
    ensures Dequeuing(states, i, j) ==> Turns(moves[i..j], false) < 13
  {
    if Enqueuing(states, i, j) {
      EnqueueSteps(states, moves, i, j);
      LeftBounds(states[i]);
      LeftBounds(states[j]);
    }
    if Dequeuing(states, i, j) {
      DequeueSteps(states, moves, i, j);
      LeftBounds(states[i]);
      LeftBounds(states[j]);
    }
  }

  lemma LeftBounds<T>(q: Queue<T>)
    ensures ProducerLeft(q.p) <= 11 && (ProducerLeft(q.p) == 0 <==> q.p.PIdle?)
    ensures ConsumerLeft(q.c) <= 13 && (ConsumerLeft(q.c) == 0 <==> q.c.CIdle?)
  {
  }

  lemma NeverFaults<T>(requested: nat, ceil: nat, maxBlock: nat, mayAlloc: bool, moves: seq<Move<T>>)
    requires maxBlock >= 2 && LeastPow2(ceil, requested + 1) && (requested >= 1 || !mayAlloc)
    requires IsRun(States(Constructed<T>(requested, ceil, maxBlock, mayAlloc), moves), moves)
    ensures NoFaults(States(Constructed<T>(requested, ceil, maxBlock, mayAlloc), moves), moves)
  {
    var q0 := Constructed<T>(requested, ceil, maxBlock, mayAlloc);
    QueueIsFifo<T>(requested, ceil, maxBlock, mayAlloc, moves);
    forall k | 0 <= k < |moves| ensures NoFault(States(q0, moves), moves, k) {
      EventAt(q0, moves, k);
      assert EventOk(Exec(q0, moves).events[k]);
    }
  }

  // ----- `enqueue` succeeds as long as there is memory -----

  /** The call under way is `enqueue`, which may allocate. */
  ghost predicate InEnqueue<T>(p: Producer<T>) {
    match p
    case PLoadTailBlock(_, alloc) => alloc
    case PLoadTail(_, alloc, _, _) => alloc
    case PLoadFront(_, alloc, _, _) => alloc
    case PLoadNext(_, alloc, _, _) => alloc
    case PLoadFrontBlock(_, alloc, _, _, _) => alloc
    case _ => true
  }

  lemma EnqueueGoesOn<T>(q: Queue<T>, mv: Move<T>)
    requires !q.p.PIdle? && InEnqueue(q.p)
    ensures var r := QueueStep(q, mv);
      && !r.ev.Rejected? && InEnqueue(r.q.p)
      && (r.ev.OutOfMemory? ==> mv == ByProducer(Continue(false)))
  {
  }

  /** `enqueue` is never refused: from its first step on it ends with its element stored, or for
      want of memory. */
  lemma {:induction false} EnqueueIsNotRefused<T>(states: seq<Queue<T>>, moves: seq<Move<T>>, i: nat, j: nat)
    requires IsRun(states, moves) && i <= j < |moves| && Enqueuing(states, i, j) && InEnqueue(states[i].p)
    ensures var ev := QueueStep(states[j], moves[j]).ev;
      InEnqueue(states[j].p) && !ev.Rejected? && (ev.OutOfMemory? ==> moves[j] == ByProducer(Continue(false)))
  {
    if i < j {
      EnqueueIsNotRefused(states, moves, i, j - 1);
      assert StepsTo(states, moves, j - 1);
      EnqueueGoesOn(states[j - 1], moves[j - 1]);
    }
    EnqueueGoesOn(states[j], moves[j]);
  }
}
