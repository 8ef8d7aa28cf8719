/** The blocking queue delivers: while an element is there, a consumer that has called one of the
    dequeue operations gets it after a bounded number of its own steps. */
module BlockingProgress {
  import opened SpscQueue
  import opened SpscProof
  import opened SpscRuns
  import opened QueueProgress
  import opened BlockingQueue
  import Semaphore
  import SemaphoreProgress

  /** The consumer is inside a dequeue operation and nobody else moves: it waits for an element
      that is there, or has won its wait. */
  ghost predicate Consuming<T>(b: Blocking<T>, sh: Shadow) {
    && BlockingInv(b, sh) && !b.pp.Signalling?
    && (b.cp.Dequeuing? || (b.cp.Waiting? && !b.sem.w.WIdle? && |Abs(b.q, sh)| > 0))
  }

  function ConsumerSteps<T>(b: Blocking<T>): nat {
    if b.cp.Dequeuing? then ConsumerLeft(b.q.c) else 13 + SemaphoreProgress.WaiterLeft(b.sem.w)
  }

  lemma WaitingAdvances<T>(b: Blocking<T>, sh: Shadow)
    requires Consuming(b, sh) && b.cp.Waiting?
    ensures var o := ConsumerTurn(b, Take(Semaphore.Go(true)));
      Consuming(o.b, sh) && Abs(o.b.q, sh) == Abs(b.q, sh) && ConsumerSteps(o.b) < ConsumerSteps(b)
  {
    SemaphoreProgress.WaiterAdvances(b.sem);
    WaitKeeps(b, |Abs(b.q, sh)|, Semaphore.Go(true));
    ConsumerLocal(b.q, sh, CLoadFrontBlock(false));
  }

  lemma DequeuingAdvances<T>(b: Blocking<T>, sh: Shadow) returns (sh': Shadow)
    requires Consuming(b, sh) && b.cp.Dequeuing?
    ensures var o := ConsumerTurn(b, Take(Semaphore.Go(true)));
      && BlockingInv(o.b, sh')
      && if o.b.cp.Waiting? then
           |Abs(b.q, sh)| > 0 && Abs(o.b.q, sh') == Abs(b.q, sh)[1..]
         else Consuming(o.b, sh') && Abs(o.b.q, sh') == Abs(b.q, sh) && ConsumerSteps(o.b) < ConsumerSteps(b)
  {
    NotEmptyWhileDequeuing(b, sh);
    ConsumerShape(b.q);
    ConsumerKeeps(b.q, sh, Proceed);
    sh' := ShadowAfterConsumer(b.q, sh);
    var r := ConsumerStep(b.q, Proceed);
    DequeueBalance(b, |Abs(b.q, sh)|, r, |Abs(r.q, sh')|);
    ConsumerAdvances(b.q, Proceed);
  }

  ghost predicate AllTake<T>(moves: seq<BlockingQueue.Move<T>>) {
    forall i :: 0 <= i < |moves| ==> moves[i] == ConsumerGo(Take(Semaphore.Go(true)))
  }

  lemma {:induction false} RunFirst<T>(b: Blocking<T>, mv: BlockingQueue.Move<T>, rest: seq<BlockingQueue.Move<T>>)
    ensures Run(b, [mv] + rest).b == Run(Turn(b, mv).b, rest).b
  {
    if rest == [] {
      assert [mv] + rest == [mv] && [mv][..0] == [];
    } else {
      var n := |rest| - 1;
      RunFirst(b, mv, rest[..n]);
      assert ([mv] + rest)[..|rest|] == [mv] + rest[..n];
    }
  }

  /** Main result: the consumer takes the oldest element. */
  lemma {:induction false} DequeueReturns<T>(b: Blocking<T>, sh: Shadow) returns (moves: seq<BlockingQueue.Move<T>>, sh': Shadow)
    requires Consuming(b, sh)
    ensures AllTake(moves) && |moves| <= ConsumerSteps(b)
    ensures var b' := Run(b, moves).b;
      && BlockingInv(b', sh') && b'.cp.Waiting? && b'.pp == b.pp
      && |Abs(b.q, sh)| > 0 && Abs(b'.q, sh') == Abs(b.q, sh)[1..]
    decreases ConsumerSteps(b)
  {
    var mv: BlockingQueue.Move<T> := ConsumerGo(Take(Semaphore.Go(true)));
    var b1 := ConsumerTurn(b, mv.cm).b;
    var sh1 := sh;
    if b.cp.Waiting? {
      WaitingAdvances(b, sh);
    } else {
      sh1 := DequeuingAdvances(b, sh);
    }
    var rest: seq<BlockingQueue.Move<T>> := [];
    sh' := sh1;
    if b1.cp.Dequeuing? || b.cp.Waiting? {
      rest, sh' := DequeueReturns(b1, sh1);
    }
    moves := [mv] + rest;
    RunFirst(b, mv, rest);
  }

  // ----- peek -----

  /** A peek is under way that has not taken the queue for empty, and an element is there. */
  ghost predicate WillShow<T>(b: Blocking<T>, sh: Shadow) {
    && BlockingInv(b, sh) && b.cp.Peeking? && |Abs(b.q, sh)| > 0
    && (b.q.c.CLoadTailBlock? ==> !b.q.c.sawEmpty)
  }

  lemma PeekStarts<T>(b: Blocking<T>, sh: Shadow)
    requires BlockingInv(b, sh) && b.cp.Waiting? && b.sem.w.WIdle? && |Abs(b.q, sh)| > 0
    ensures var o := ConsumerTurn(b, Peek); WillShow(o.b, sh) && Abs(o.b.q, sh) == Abs(b.q, sh) && o.b.sem == b.sem
  {
    ConsumerLocal(b.q, sh, CLoadFrontBlock(true));
  }

  lemma PeekGoesOn<T>(q: Queue<T>)
    requires Peeks(q.c) && !NoElement(q) && (q.c.CLoadTailBlock? ==> !q.c.sawEmpty)
    ensures var r := ConsumerStep(q, Proceed);
      && (r.q.c.CLoadTailBlock? ==> !r.q.c.sawEmpty)
      && (r.ev.FoundEmpty? ==> !r.ev.sawEmpty)
      && (r.q.c.CIdle? <==> r.ev.Peeked? || r.ev.FoundEmpty?)
  {
  }

  lemma ShowStep<T>(b: Blocking<T>, sh: Shadow) returns (sh': Shadow)
    requires WillShow(b, sh)
    ensures var o, r := ConsumerTurn(b, Peek), ConsumerStep(b.q, Proceed);
      if r.ev.Peeked? then Live(r.ev.v) == Abs(b.q, sh)[0]
      else WillShow(o.b, sh') && Abs(o.b.q, sh') == Abs(b.q, sh) && ConsumerLeft(o.b.q.c) < ConsumerLeft(b.q.c)
  {
    if NoElement(b.q) {
      NoElementMeansEmpty(b.q, sh);
    }
    ConsumerKeeps(b.q, sh, Proceed);
    PeekGoesOn(b.q);
    ConsumerAdvances(b.q, Proceed);
    sh' := PeekIsHarmless(b, sh, Peek);
  }

  ghost predicate AllPeek<T>(moves: seq<BlockingQueue.Move<T>>) {
    forall i :: 0 <= i < |moves| ==> moves[i] == ConsumerGo(Peek)
  }

  /** A peek while an element is there shows the oldest one, after a bounded number of steps. */
  lemma {:induction false} PeekShows<T>(b: Blocking<T>, sh: Shadow) returns (moves: seq<BlockingQueue.Move<T>>)
    requires WillShow(b, sh)
    ensures AllPeek(moves) && |moves| < ConsumerLeft(b.q.c)
    ensures var ev := ConsumerStep(Run(b, moves).b.q, Proceed).ev; ev.Peeked? && Live(ev.v) == Abs(b.q, sh)[0]
    decreases ConsumerLeft(b.q.c)
  {
    LeftBounds(b.q);
    var sh' := ShowStep(b, sh);
    moves := [];
    if !ConsumerStep(b.q, Proceed).ev.Peeked? {
      var rest := PeekShows(ConsumerTurn(b, Peek).b, sh');
      moves := [ConsumerGo(Peek)] + rest;
      RunFirst(b, ConsumerGo(Peek), rest);
    }
  }
}
