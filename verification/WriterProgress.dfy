/** The shutdown handshake comes to its end: `IsEmpty` is exact, and from every reachable state
    of a session that is over the two threads can go on until the writer returns, with every
    container saved. */
module WriterProgress {
  import opened SpscQueue
  import opened SpscProof
  import opened SpscRuns
  import opened QueueLayout
  import opened QueueProgress
  import opened WriterShutdown

  // ----- good states -----

  /** The consumer's call is a dequeue. */
  ghost predicate Pops<T>(c: Consumer<T>) {
    match c
    case CLoadFrontBlock(peek) => !peek
    case CLoadFront(peek, _, _) => !peek
    case CLoadTail(peek, _, _) => !peek
    case CReadSlot(peek, _, _) => !peek
    case CLoadTailBlock(peek, _, _) => !peek
    case CReloadFrontBlock(peek) => !peek
    case CReloadTail(peek, _) => !peek
    case CReloadFront(peek, _, _) => !peek
    case CLoadNext(peek, _) => !peek
    case CLoadNextFront(peek, _) => !peek
    case CLoadNextTail(peek, _, _) => !peek
    case _ => true
  }

  /** Blocks have at least two slots: an empty block has room. */
  ghost predicate Roomy<T>(q: Queue<T>) { AtLeast(q, Layout(1, 2)) }

  ghost predicate Good<T>(s: System<T>, sh: Shadow) {
    SystemInv(s, sh, s.offered) && Roomy(s.q) && Pops(s.q.c)
  }

  lemma PopsOn<T>(q: Queue<T>, mv: ConsumerMove)
    requires Pops(q.c) && (q.c.CIdle? ==> mv == Call(false))
    ensures Pops(ConsumerStep(q, mv).q.c) && !ConsumerStep(q, mv).ev.Peeked?
  {
  }

  lemma ProducerLeavesConsumer<T>(q: Queue<T>, pm: ProducerMove<T>)
    ensures ProducerStep(q, pm).q.c == q.c
  {
  }

  lemma ReceiverQueue<T>(s: System<T>)
    requires Roomy(s.q)
    ensures Roomy(ReceiverStep(s).q) && ReceiverStep(s).q.c == s.q.c
  {
    var mv := if s.q.p.PIdle? && s.todo != [] then Begin(s.todo[0], false) else Continue(true);
    AtLeastProducer(s.q, mv, Layout(1, 2));
    ProducerLeavesConsumer(s.q, mv);
  }

  lemma WriterQueue<T>(s: System<T>)
    requires Roomy(s.q) && Pops(s.q.c)
    ensures Roomy(WriterStep(s).q) && Pops(WriterStep(s).q.c)
    ensures |WriterStep(s).q.blocks| == |s.q.blocks|
  {
    if s.w.WPop? {
      var mv := if s.q.c.CIdle? then Call(false) else Proceed;
      AtLeastConsumer(s.q, mv, Layout(1, 2));
      SameSizesConsumer(s.q, mv);
      PopsOn(s.q, mv);
    }
  }

  lemma GoodTurn<T>(s: System<T>, sh: Shadow, turn: Turn<T>) returns (sh': Shadow)
    requires Good(s, sh)
    ensures Good(TakeTurn(s, turn), sh')
  {
    sh' := TurnKeeps(s, sh, turn);
    match turn
    case ReceiverTurn => ReceiverQueue(s);
    case WriterTurn => WriterQueue(s);
    case _ =>
  }

  lemma {:induction false} GoodRun<T>(s0: System<T>, sh0: Shadow, turns: seq<Turn<T>>) returns (sh: Shadow)
    requires Good(s0, sh0)
    ensures Good(Run(s0, turns), sh)
  {
    sh := sh0;
    if turns != [] {
      sh := GoodRun(s0, sh0, turns[..|turns| - 1]);
      sh := GoodTurn(Run(s0, turns[..|turns| - 1]), sh, turns[|turns| - 1]);
    }
  }

  // ----- pieces of runs -----

  lemma {:induction false} RunAppend<T>(s: System<T>, a: seq<Turn<T>>, b: seq<Turn<T>>)
    ensures Run(s, a + b) == Run(Run(s, a), b)
  {
    if b == [] {
      assert a + b == a;
    } else {
      RunAppend(s, a, b[..|b| - 1]);
      assert (a + b)[..|a + b| - 1] == a + b[..|b| - 1];
    }
  }

  lemma RunOne<T>(s: System<T>, turn: Turn<T>)
    ensures Run(s, [turn]) == TakeTurn(s, turn)
  {
    assert [turn][..0] == [];
  }

  /** One turn, and then others. */
  lemma Prepend<T>(s: System<T>, turn: Turn<T>, rest: seq<Turn<T>>)
    ensures Run(s, [turn] + rest) == Run(TakeTurn(s, turn), rest)
    ensures turn.WriterTurn? && ByWriter(rest) ==> ByWriter([turn] + rest)
    ensures turn.ReceiverTurn? && ByThreads(rest) ==> ByThreads([turn] + rest)
  {
    RunOne(s, turn);
    RunAppend(s, [turn], rest);
  }

  ghost predicate ByThreads<T>(turns: seq<Turn<T>>) {
    forall i :: 0 <= i < |turns| ==> turns[i].ReceiverTurn? || turns[i].WriterTurn?
  }

  ghost predicate ByWriter<T>(turns: seq<Turn<T>>) { forall i :: 0 <= i < |turns| ==> turns[i].WriterTurn? }

  /** What the writer's steps leave as it is, and what the receiver's do. */
  ghost predicate WriterOnly<T>(s: System<T>, s': System<T>) {
    s'.done == s.done && s'.closed == s.closed && s'.todo == s.todo && s'.offered == s.offered && s'.q.p == s.q.p
    && |s'.q.blocks| == |s.q.blocks|
  }

  ghost predicate ReceiverOnly<T>(s: System<T>, s': System<T>) {
    s'.w == s.w && s'.closed == s.closed && s'.saved == s.saved && s'.offered == s.offered && s'.q.c == s.q.c
  }

  lemma WriterFrame<T>(s: System<T>)
    requires Roomy(s.q) && Pops(s.q.c)
    ensures WriterOnly(s, WriterStep(s))
  {
    WriterQueue(s);
    if s.w.WPop? {
      ConsumerStays(s.q, if s.q.c.CIdle? then Call(false) else Proceed);
    }
  }

  lemma ReceiverFrame<T>(s: System<T>)
    requires Roomy(s.q)
    ensures ReceiverOnly(s, ReceiverStep(s))
  {
    ReceiverQueue(s);
  }

  // ----- the test of `IsEmpty` -----

  /** When the walk over the blocks ends, the writer takes the queue for empty exactly if it is. */
  lemma IsEmptyIsExact<T>(s: System<T>, sh: Shadow)
    requires SystemInv(s, sh, s.offered) && s.w.WSizeNext? && Blk(s.q, s.w.block).next == s.w.fb
    ensures WriterStep(s).w == WPop(Abs(s.q, sh) == [])
  {
    assert Linked(s.q.blocks, sh, s.w.visited - 1);
    SizeIsExact(s.q, sh);
    assert sh.ring[..|sh.ring|] == sh.ring;
  }

  // ----- one round of the writer -----

  /** How many steps the writer has left, at most, until it polls again. */
  function RoundLeft<T>(s: System<T>): nat {
    match s.w
    case WCheckDone => 0
    case WExit => 0
    case WSave(_, _) => 1
    case WPop(_) => if s.q.c.CIdle? then 16 else 2 + ConsumerLeft(s.q.c)
    case WSizeNext(_, _, _, visited) => if visited <= |s.q.blocks| then 17 + 3 * (|s.q.blocks| - visited) else 17
    case WSizeTail(_, _, _, _, visited) => if visited <= |s.q.blocks| then 15 + 3 * (|s.q.blocks| - visited) else 15
    case WSizeFront(_, _, _, visited) => if visited <= |s.q.blocks| then 16 + 3 * (|s.q.blocks| - visited) else 16
    case WSizeStart => 17 + 3 * |s.q.blocks|
  }

  lemma PopStarts<T>(q: Queue<T>)
    requires q.c.CIdle?
    ensures var r := ConsumerStep(q, Call(false)); r.q.c == CLoadFrontBlock(false) && r.ev == Tau
  {
  }

  lemma PopLeft<T>(s: System<T>, r: Step<T>)
    requires s.w.WPop? && !r.ev.Peeked?
    requires if s.q.c.CIdle? then r.q.c == CLoadFrontBlock(false) && r.ev == Tau
             else ConsumerLeft(r.q.c) < ConsumerLeft(s.q.c) && (r.q.c.CIdle? <==> r.ev.Dequeued? || r.ev.FoundEmpty?)
    ensures RoundLeft(DuringPop(s, r, s.w.job)) < RoundLeft(s)
  {
  }

  lemma PopAdvances<T>(s: System<T>, sh: Shadow)
    requires Good(s, sh) && s.w.WPop?
    ensures RoundLeft(WriterStep(s)) < RoundLeft(s)
  {
    var mv := if s.q.c.CIdle? then Call(false) else Proceed;
    var r := ConsumerStep(s.q, mv);
    NoFaultHere(s.q, sh, mv);
    PopsOn(s.q, mv);
    if s.q.c.CIdle? {
      PopStarts(s.q);
    } else {
      DequeueReturns(s.q, mv);
      ConsumerAdvances(s.q, mv);
    }
    PopLeft(s, r);
  }

  lemma NoFaultHere<T>(q: Queue<T>, sh: Shadow, mv: ConsumerMove)
    requires Inv(q, sh)
    ensures !ConsumerStep(q, mv).ev.Fault?
  {
    ConsumerKeeps(q, sh, mv);
  }

  lemma RoundAdvances<T>(s: System<T>, sh: Shadow)
    requires Good(s, sh) && !s.w.WCheckDone? && !s.w.WExit?
    ensures RoundLeft(WriterStep(s)) < RoundLeft(s)
  {
    if s.w.WPop? {
      PopAdvances(s, sh);
    } else if s.w.WSizeNext? {
      assert Linked(s.q.blocks, sh, s.w.visited - 1);
    }
  }

  lemma PoppedGrows<T>(s: System<T>)
    ensures |Popped(WriterStep(s))| >= |Popped(s)|
  {
  }

  /** The writer goes on until it polls again, or has returned. */
  lemma {:induction false} ToCheck<T>(s: System<T>, sh: Shadow) returns (turns: seq<Turn<T>>, sh': Shadow)
    requires Good(s, sh)
    ensures ByWriter(turns) && |turns| <= RoundLeft(s)
    ensures var s' := Run(s, turns);
      Good(s', sh') && WriterOnly(s, s') && (s'.w.WCheckDone? || s'.w.WExit?) && |Popped(s')| >= |Popped(s)|
    decreases RoundLeft(s)
  {
    turns, sh' := [], sh;
    if !s.w.WCheckDone? && !s.w.WExit? {
      var sh1 := GoodTurn(s, sh, WriterTurn);
      WriterFrame(s);
      RoundAdvances(s, sh);
      PoppedGrows(s);
      var rest;
      rest, sh' := ToCheck(WriterStep(s), sh1);
      turns := [WriterTurn] + rest;
      Prepend(s, WriterTurn, rest);
    }
  }

  // ----- taking one container -----

  /** The writer will pop: the queue has an element, and it has not been taken for empty. */
  ghost predicate WillPop<T>(s: System<T>, sh: Shadow)
    requires sh.tp < |sh.ring|
  {
    && Abs(s.q, sh) != [] && (s.w.WSizeStart? || s.w.WSizeFront? || s.w.WSizeTail? || s.w.WSizeNext? || s.w.WPop?)
    && (s.q.c.CLoadTailBlock? ==> !s.q.c.sawEmpty)
  }

  lemma PopShape<T>(q: Queue<T>, mv: ConsumerMove)
    ensures var r := ConsumerStep(q, mv);
      && (r.q.c.CLoadTailBlock? ==> r.q.c.sawEmpty == NoElement(q))
      && (r.ev.FoundEmpty? ==> q.c.CLoadTailBlock? && r.ev.sawEmpty == q.c.sawEmpty)
  {
  }

  ghost predicate Took<T>(s: System<T>, s': System<T>, sh: Shadow, sh': Shadow)
    requires sh.tp < |sh.ring| && sh'.tp < |sh'.ring|
  {
    s'.w.WSave? && !s'.w.job && |Abs(s'.q, sh')| == |Abs(s.q, sh)| - 1
  }

  lemma WillPopStep<T>(s: System<T>, sh: Shadow) returns (sh': Shadow)
    requires Good(s, sh) && WillPop(s, sh)
    ensures Good(WriterStep(s), sh')
    ensures (WillPop(WriterStep(s), sh') && |Abs(WriterStep(s).q, sh')| == |Abs(s.q, sh)|) || Took(s, WriterStep(s), sh, sh')
  {
    WriterQueue(s);
    if s.w.WPop? {
      sh' := PoppingStep(s, sh);
    } else {
      sh' := sh;
      WalkKeeps(s, sh, s.offered);
      WalkStays(s, sh);
    }
  }

  lemma PoppingStep<T>(s: System<T>, sh: Shadow) returns (sh': Shadow)
    requires SystemInv(s, sh, s.offered) && Pops(s.q.c) && WillPop(s, sh) && s.w.WPop?
    ensures SystemInv(WriterStep(s), sh', s.offered)
    ensures (WillPop(WriterStep(s), sh') && |Abs(WriterStep(s).q, sh')| == |Abs(s.q, sh)|) || Took(s, WriterStep(s), sh, sh')
  {
    var mv := if s.q.c.CIdle? then Call(false) else Proceed;
    var r := ConsumerStep(s.q, mv);
    sh' := ShadowAfterConsumer(s.q, sh);
    ConsumerKeeps(s.q, sh, mv);
    ConsumerStays(s.q, mv);
    PopProgress(s, sh, s.offered, sh', r);
    PopShape(s.q, mv);
    PopsOn(s.q, mv);
    if NoElement(s.q) {
      NoElementMeansEmpty(s.q, sh);
    }
    PoppingTakes(s, sh, sh', r);
  }

  lemma PoppingTakes<T>(s: System<T>, sh: Shadow, sh': Shadow, r: Step<T>)
    requires sh.tp < |sh.ring| && sh'.tp < |sh'.ring| && WillPop(s, sh) && s.w.WPop? && !s.w.job
    requires FifoStep(Abs(s.q, sh), r.ev, Abs(r.q, sh')) && !r.ev.Enqueued? && !r.ev.Peeked? && !r.ev.FoundEmpty?
    requires r.q.c.CLoadTailBlock? ==> !r.q.c.sawEmpty
    ensures var s' := DuringPop(s, r, s.w.job);
      (WillPop(s', sh') && |Abs(s'.q, sh')| == |Abs(s.q, sh)|) || Took(s, s', sh, sh')
  {
  }

  /** While it walks over the blocks nothing else changes. */
  lemma WalkStays<T>(s: System<T>, sh: Shadow)
    requires SystemInv(s, sh, s.offered) && WillPop(s, sh) && !s.w.WPop? && WriterStep(s).q == s.q
    ensures WillPop(WriterStep(s), sh)
  {
    if s.w.WSizeNext? && Blk(s.q, s.w.block).next == s.w.fb {
      IsEmptyIsExact(s, sh);
    }
  }

  /** From the poll on, the writer takes one container out and saves it. */
  lemma {:induction false} TakeOne<T>(s: System<T>, sh: Shadow) returns (turns: seq<Turn<T>>, sh': Shadow)
    requires Good(s, sh) && WillPop(s, sh)
    ensures ByWriter(turns)
    ensures var s' := Run(s, turns);
      Good(s', sh') && WriterOnly(s, s') && s'.w.WCheckDone? && |Abs(s'.q, sh')| == |Abs(s.q, sh)| - 1
    decreases RoundLeft(s)
  {
    var sh1 := TakingStep(s, sh);
    var s1 := WriterStep(s);
    var rest;
    if s1.w.WSave? {
      rest, sh' := SaveIt(s1, sh1);
    } else {
      rest, sh' := TakeOne(s1, sh1);
    }
    turns := [WriterTurn] + rest;
    Prepend(s, WriterTurn, rest);
  }

  lemma TakingStep<T>(s: System<T>, sh: Shadow) returns (sh': Shadow)
    requires Good(s, sh) && WillPop(s, sh)
    ensures var s' := WriterStep(s); Good(s', sh') && WriterOnly(s, s') && RoundLeft(s') < RoundLeft(s)
    ensures (WillPop(WriterStep(s), sh') && |Abs(WriterStep(s).q, sh')| == |Abs(s.q, sh)|) || Took(s, WriterStep(s), sh, sh')
  {
    sh' := WillPopStep(s, sh);
    WriterFrame(s);
    RoundAdvances(s, sh);
  }

  lemma SaveIt<T>(s: System<T>, sh: Shadow) returns (turns: seq<Turn<T>>, sh': Shadow)
    requires Good(s, sh) && s.w.WSave? && !s.w.job
    ensures turns == [WriterTurn] && sh' == sh
    ensures var s' := Run(s, turns); Good(s', sh') && WriterOnly(s, s') && s'.w.WCheckDone? && s'.q == s.q
  {
    turns, sh' := [WriterTurn], sh;
    RunOne(s, WriterTurn);
    WriterFrame(s);
    WriterQueue(s);
    WalkKeeps(s, sh, s.offered);
  }

  lemma PollAndTake<T>(s: System<T>, sh: Shadow) returns (turns: seq<Turn<T>>, sh': Shadow)
    requires Good(s, sh) && s.w.WCheckDone? && Abs(s.q, sh) != []
    ensures ByWriter(turns)
    ensures var s' := Run(s, turns);
      Good(s', sh') && WriterOnly(s, s') && s'.w.WCheckDone? && |Abs(s'.q, sh')| == |Abs(s.q, sh)| - 1
  {
    WriterFrame(s);
    WriterQueue(s);
    WalkKeeps(s, sh, s.offered);
    var rest;
    rest, sh' := TakeOne(WriterStep(s), sh);
    turns := [WriterTurn] + rest;
    Prepend(s, WriterTurn, rest);
  }

  /** The writer takes everything that is there. */
  lemma {:induction false} Drain<T>(s: System<T>, sh: Shadow) returns (turns: seq<Turn<T>>, sh': Shadow)
    requires Good(s, sh) && s.w.WCheckDone?
    ensures ByWriter(turns)
    ensures var s' := Run(s, turns); Good(s', sh') && WriterOnly(s, s') && s'.w.WCheckDone? && Abs(s'.q, sh') == []
    decreases |Abs(s.q, sh)|
  {
    turns, sh' := [], sh;
    if Abs(s.q, sh) != [] {
      var sh1, rest;
      turns, sh1 := PollAndTake(s, sh);
      rest, sh' := Drain(Run(s, turns), sh1);
      RunAppend(s, turns, rest);
      turns := turns + rest;
    }
  }

  // ----- pushing one container -----

  lemma PushAdvances<T>(s: System<T>, sh: Shadow)
    requires Good(s, sh) && !s.done && !s.q.p.PIdle?
    ensures ProducerLeft(ReceiverStep(s).q.p) < ProducerLeft(s.q.p)
  {
    ProducerKeeps(s.q, sh, Continue(true));
    ProducerAdvances(s.q, Continue(true));
  }

  /** The receiver finishes its call of `try_enqueue`. */
  lemma {:induction false} ToIdle<T>(s: System<T>, sh: Shadow) returns (turns: seq<Turn<T>>, sh': Shadow)
    requires Good(s, sh) && !s.done
    ensures ByThreads(turns)
    ensures var s' := Run(s, turns); Good(s', sh') && ReceiverOnly(s, s') && !s'.done && s'.q.p.PIdle? && |s'.todo| <= |s.todo|
    decreases ProducerLeft(s.q.p)
  {
    turns, sh' := [], sh;
    if !s.q.p.PIdle? {
      var sh1 := GoodTurn(s, sh, ReceiverTurn);
      ReceiverFrame(s);
      PushAdvances(s, sh);
      var rest;
      rest, sh' := ToIdle(ReceiverStep(s), sh1);
      turns := [ReceiverTurn] + rest;
      Prepend(s, ReceiverTurn, rest);
    }
  }

  /** The push cannot fail: the queue is empty and the call has not yet looked further than its
      tail block. */
  ghost predicate WillPush<T>(s: System<T>, sh: Shadow)
    requires sh.tp < |sh.ring|
  {
    && Abs(s.q, sh) == []
    && (s.q.p.PLoadTailBlock? || s.q.p.PLoadTail? || s.q.p.PLoadFront? || s.q.p.PWriteSlot? || s.q.p.PStoreTail?)
  }

  lemma EmptyTail<T>(q: Queue<T>, sh: Shadow)
    requires Inv(q, sh) && Roomy(q) && Abs(q, sh) == []
    ensures !Full(q.blocks[q.tailBlock])
  {
    AbsLast(q, sh);
    assert Fine(q, q.tailBlock);
    assert |Stored(q.blocks[q.tailBlock])| == 0;
  }

  lemma PushShape<T>(q: Queue<T>)
    requires q.p.PLoadTailBlock? || q.p.PLoadTail? || q.p.PLoadFront? || q.p.PWriteSlot? || q.p.PStoreTail?
    requires q.p.PLoadFront? ==> q.p.t == Blk(q, q.p.tb).tail && !Full(Blk(q, q.p.tb))
    requires !ProducerStep(q, Continue(true)).ev.Fault?
    ensures var r := ProducerStep(q, Continue(true));
      if q.p.PStoreTail? then r.ev.Enqueued? && r.q.p.PIdle?
      else r.ev == Tau && (r.q.p.PLoadTail? || r.q.p.PLoadFront? || r.q.p.PWriteSlot? || r.q.p.PStoreTail?)
  {
  }

  lemma WillPushStep<T>(s: System<T>, sh: Shadow) returns (sh': Shadow)
    requires Good(s, sh) && !s.done && WillPush(s, sh)
    ensures var s' := ReceiverStep(s);
      && Good(s', sh') && !s'.done
      && if s'.q.p.PIdle? then s'.todo == s.todo[1..] else s'.todo == s.todo && WillPush(s', sh')
  {
    var r := ProducerStep(s.q, Continue(true));
    ProducerKeeps(s.q, sh, Continue(true));
    EmptyTail(s.q, sh);
    PushShape(s.q);
    sh' := ShadowAfterProducer(s.q, sh);
    CarriesElement(s.q, Continue(true));
    PushProgress(s, sh, s.offered, sh', r);
    ReceiverQueue(s);
  }

  /** A push into the empty queue succeeds. */
  lemma {:induction false} PushIt<T>(s: System<T>, sh: Shadow) returns (turns: seq<Turn<T>>, sh': Shadow)
    requires Good(s, sh) && !s.done && WillPush(s, sh)
    ensures ByThreads(turns)
    ensures var s' := Run(s, turns); Good(s', sh') && ReceiverOnly(s, s') && !s'.done && s'.q.p.PIdle? && s'.todo == s.todo[1..]
    decreases ProducerLeft(s.q.p)
  {
    var sh1 := WillPushStep(s, sh);
    ReceiverFrame(s);
    PushAdvances(s, sh);
    var rest;
    if ReceiverStep(s).q.p.PIdle? {
      rest, sh' := [], sh1;
    } else {
      rest, sh' := PushIt(ReceiverStep(s), sh1);
    }
    turns := [ReceiverTurn] + rest;
    Prepend(s, ReceiverTurn, rest);
  }

  lemma BeginAndPush<T>(s: System<T>, sh: Shadow) returns (turns: seq<Turn<T>>, sh': Shadow)
    requires Good(s, sh) && !s.done && s.q.p.PIdle? && s.todo != [] && Abs(s.q, sh) == []
    ensures ByThreads(turns)
    ensures var s' := Run(s, turns); Good(s', sh') && ReceiverOnly(s, s') && !s'.done && s'.q.p.PIdle? && s'.todo == s.todo[1..]
  {
    var sh1 := BeginsPush(s, sh);
    ReceiverFrame(s);
    var rest;
    rest, sh' := PushIt(ReceiverStep(s), sh1);
    turns := [ReceiverTurn] + rest;
    Prepend(s, ReceiverTurn, rest);
  }

  lemma BeginsPush<T>(s: System<T>, sh: Shadow) returns (sh': Shadow)
    requires Good(s, sh) && !s.done && s.q.p.PIdle? && s.todo != [] && Abs(s.q, sh) == []
    ensures var s' := ReceiverStep(s); Good(s', sh') && !s'.done && s'.todo == s.todo && WillPush(s', sh')
  {
    var mv := Begin(s.todo[0], false);
    var r := ProducerStep(s.q, mv);
    ProducerKeeps(s.q, sh, mv);
    BeginPush(s.q, s.todo[0]);
    sh' := ShadowAfterProducer(s.q, sh);
    BeginProgress(s, sh, s.offered, sh', r);
    ReceiverQueue(s);
  }

  /** Nothing is under way: the receiver is between calls, the writer polls, the queue is empty. */
  ghost predicate Calm<T>(s: System<T>, sh: Shadow) {
    Good(s, sh) && !s.done && s.q.p.PIdle? && s.w.WCheckDone? && Abs(s.q, sh) == []
  }

  ghost predicate SameSession<T>(s: System<T>, s': System<T>) { s'.offered == s.offered && s'.closed == s.closed }

  lemma PushAndTake<T>(s: System<T>, sh: Shadow) returns (turns: seq<Turn<T>>, sh': Shadow)
    requires Calm(s, sh) && s.todo != []
    ensures ByThreads(turns)
    ensures var s' := Run(s, turns); Calm(s', sh') && SameSession(s, s') && s'.todo == s.todo[1..]
  {
    var sh1, rest;
    turns, sh1 := BeginAndPush(s, sh);
    rest, sh' := Drain(Run(s, turns), sh1);
    RunAppend(s, turns, rest);
    turns := turns + rest;
  }

  /** Push one, take it out, and so on until nothing is left to push. */
  lemma {:induction false} PushAll<T>(s: System<T>, sh: Shadow) returns (turns: seq<Turn<T>>, sh': Shadow)
    requires Calm(s, sh)
    ensures ByThreads(turns)
    ensures var s' := Run(s, turns); Calm(s', sh') && SameSession(s, s') && s'.todo == []
    decreases |s.todo|
  {
    turns, sh' := [], sh;
    if s.todo != [] {
      var sh1, rest;
      turns, sh1 := PushAndTake(s, sh);
      rest, sh' := PushAll(Run(s, turns), sh1);
      RunAppend(s, turns, rest);
      turns := turns + rest;
    }
  }

  lemma SetsDone<T>(s: System<T>, sh: Shadow)
    requires Good(s, sh) && s.closed && !s.done && s.q.p.PIdle? && s.todo == []
    ensures ReceiverStep(s) == s.(done := true) && Good(ReceiverStep(s), sh)
  {
  }

  // ----- the end -----

  /** The writer will return: `done_` is set, the queue is empty and it is about to find out. */
  ghost predicate WillExit<T>(s: System<T>, sh: Shadow)
    requires sh.tp < |sh.ring|
  {
    && s.done && Abs(s.q, sh) == []
    && (s.w.WSizeStart? || s.w.WSizeFront? || s.w.WSizeTail? || s.w.WSizeNext? || (s.w.WPop? && s.w.job))
  }

  lemma WillExitStep<T>(s: System<T>, sh: Shadow) returns (sh': Shadow)
    requires Good(s, sh) && WillExit(s, sh)
    ensures Good(WriterStep(s), sh') && (WriterStep(s).w.WExit? || WillExit(WriterStep(s), sh'))
  {
    WriterQueue(s);
    if s.w.WPop? {
      var mv := if s.q.c.CIdle? then Call(false) else Proceed;
      sh' := ShadowAfterConsumer(s.q, sh);
      ConsumerKeeps(s.q, sh, mv);
      ConsumerStays(s.q, mv);
      PopProgress(s, sh, s.offered, sh', ConsumerStep(s.q, mv));
      PopsOn(s.q, mv);
    } else {
      sh' := sh;
      WalkKeeps(s, sh, s.offered);
      if s.w.WSizeNext? && Blk(s.q, s.w.block).next == s.w.fb {
        IsEmptyIsExact(s, sh);
      }
    }
  }

  lemma {:induction false} Exits<T>(s: System<T>, sh: Shadow) returns (turns: seq<Turn<T>>, sh': Shadow)
    requires Good(s, sh) && WillExit(s, sh)
    ensures ByWriter(turns) && |turns| <= RoundLeft(s)
    ensures var s' := Run(s, turns); Good(s', sh') && WriterOnly(s, s') && s'.w.WExit?
    decreases RoundLeft(s)
  {
    var sh1 := WillExitStep(s, sh);
    WriterFrame(s);
    RoundAdvances(s, sh);
    var rest;
    if WriterStep(s).w.WExit? {
      rest, sh' := [], sh1;
    } else {
      rest, sh' := Exits(WriterStep(s), sh1);
    }
    turns := [WriterTurn] + rest;
    Prepend(s, WriterTurn, rest);
  }

  lemma PollAndExit<T>(s: System<T>, sh: Shadow) returns (turns: seq<Turn<T>>, sh': Shadow)
    requires Good(s, sh) && s.done && s.w.WCheckDone? && Abs(s.q, sh) == []
    ensures ByWriter(turns) && |turns| <= 18 + 3 * |s.q.blocks|
    ensures var s' := Run(s, turns); Good(s', sh') && WriterOnly(s, s') && s'.w.WExit?
  {
    WriterFrame(s);
    WriterQueue(s);
    WalkKeeps(s, sh, s.offered);
    var rest;
    rest, sh' := Exits(WriterStep(s), sh);
    turns := [WriterTurn] + rest;
    Prepend(s, WriterTurn, rest);
  }

  /** The receiver finishes the call it is in, and what it may have pushed is taken out. */
  lemma Settle<T>(s: System<T>, sh: Shadow) returns (turns: seq<Turn<T>>, sh': Shadow)
    requires Good(s, sh) && !s.done && s.w.WCheckDone?
    ensures ByThreads(turns)
    ensures var s' := Run(s, turns); Calm(s', sh') && SameSession(s, s')
  {
    var sh1, rest;
    turns, sh1 := ToIdle(s, sh);
    rest, sh' := Drain(Run(s, turns), sh1);
    RunAppend(s, turns, rest);
    turns := turns + rest;
  }

  lemma SettleAndPush<T>(s: System<T>, sh: Shadow) returns (turns: seq<Turn<T>>, sh': Shadow)
    requires Good(s, sh) && !s.done && s.w.WCheckDone?
    ensures ByThreads(turns)
    ensures var s' := Run(s, turns); Calm(s', sh') && SameSession(s, s') && s'.todo == []
  {
    var sh1, rest;
    turns, sh1 := Settle(s, sh);
    rest, sh' := PushAll(Run(s, turns), sh1);
    RunAppend(s, turns, rest);
    turns := turns + rest;
  }

  /** Whatever a receiver was given to push, it gets through with it: it can take the next
      message, or hang up. */
  lemma ReceiverGetsFree<T>(s: System<T>, sh: Shadow) returns (turns: seq<Turn<T>>, sh': Shadow)
    requires Good(s, sh) && !s.closed
    ensures ByThreads(turns)
    ensures var s' := Run(s, turns); Calm(s', sh') && SameSession(s, s') && s'.todo == []
  {
    var sh1, rest;
    turns, sh1 := ToCheck(s, sh);
    rest, sh' := SettleAndPush(Run(s, turns), sh1);
    RunAppend(s, turns, rest);
    turns := turns + rest;
  }

  lemma PushAndSetDone<T>(s: System<T>, sh: Shadow) returns (turns: seq<Turn<T>>, sh': Shadow)
    requires Good(s, sh) && s.closed && !s.done && s.w.WCheckDone?
    ensures ByThreads(turns)
    ensures var s' := Run(s, turns); Good(s', sh') && s'.offered == s.offered && s'.done && s'.w.WCheckDone? && Abs(s'.q, sh') == []
  {
    turns, sh' := SettleAndPush(s, sh);
    SetsDone(Run(s, turns), sh');
    RunOne(Run(s, turns), ReceiverTurn);
    RunAppend(s, turns, [ReceiverTurn]);
    turns := turns + [ReceiverTurn];
  }

  lemma FromCheck<T>(s: System<T>, sh: Shadow) returns (turns: seq<Turn<T>>, sh': Shadow)
    requires Good(s, sh) && s.closed && s.w.WCheckDone?
    ensures ByThreads(turns)
    ensures var s' := Run(s, turns); Good(s', sh') && s'.offered == s.offered && s'.w.WExit?
  {
    var rest, sh1;
    if s.done {
      turns, sh1 := Drain(s, sh);
    } else {
      turns, sh1 := PushAndSetDone(s, sh);
    }
    rest, sh' := PollAndExit(Run(s, turns), sh1);
    RunAppend(s, turns, rest);
    turns := turns + rest;
  }

  /** From every good state of a closed session, some turns of the two threads lead to the
      writer's return. */
  lemma Finishes<T>(s: System<T>, sh: Shadow) returns (turns: seq<Turn<T>>, sh': Shadow)
    requires Good(s, sh) && s.closed
    ensures ByThreads(turns)
    ensures var s' := Run(s, turns); Good(s', sh') && s'.offered == s.offered && s'.w.WExit? && s'.saved == s'.offered
  {
    var sh1;
    turns, sh1 := ToCheck(s, sh);
    sh' := sh1;
    if Run(s, turns).w.WCheckDone? {
      var rest;
      rest, sh' := FromCheck(Run(s, turns), sh1);
      RunAppend(s, turns, rest);
      turns := turns + rest;
    }
    SavedInOrder(Run(s, turns), sh');
  }

  lemma StartsGood<T>(requested: nat, ceil: nat, maxBlock: nat) returns (sh: Shadow)
    requires maxBlock >= 2 && LeastPow2(ceil, requested + 1) && requested >= 1
    ensures Good(Session(Constructed<T>(requested, ceil, maxBlock, false)), sh)
  {
    LayoutHolds(requested, ceil, maxBlock);
    sh := ConstructedInv<T>(requested, ceil, maxBlock, false);
  }

  /** Main result.  After any run of a session on a queue for at least one element, once the
      client has hung up, the receiver and the writer can go on until the writer returns, and
      then everything is saved. */
  lemma WriterReturns<T>(requested: nat, ceil: nat, maxBlock: nat, turns: seq<Turn<T>>) returns (rest: seq<Turn<T>>)
    requires maxBlock >= 2 && LeastPow2(ceil, requested + 1) && requested >= 1
    requires Run(Session(Constructed<T>(requested, ceil, maxBlock, false)), turns).closed
    ensures ByThreads(rest)
    ensures var s := Run(Session(Constructed<T>(requested, ceil, maxBlock, false)), turns);
      var s' := Run(s, rest);
      s'.w.WExit? && s'.offered == s.offered && s'.saved == s.offered
  {
    var s0 := Session(Constructed<T>(requested, ceil, maxBlock, false));
    var sh0 := StartsGood<T>(requested, ceil, maxBlock);
    var sh := GoodRun(s0, sh0, turns);
    var sh';
    rest, sh' := Finishes(Run(s0, turns), sh);
  }

  lemma StaysEmpty<T>(s: System<T>, sh: Shadow, s': System<T>, sh': Shadow)
    requires Good(s, sh) && Good(s', sh') && WriterOnly(s, s') && Abs(s.q, sh) == [] && |Popped(s')| >= |Popped(s)|
    ensures Abs(s'.q, sh') == []
  {
    var pushed := s.offered[..|s.offered| - |s.todo|];
    assert |LiveSeq(pushed)| == |LiveSeq(Popped(s))|;
    assert |LiveSeq(pushed)| == |LiveSeq(Popped(s'))| + |Abs(s'.q, sh')|;
  }

  /** With `done_` set and the queue empty the writer needs nobody else, and a number of steps
      that depends only on the number of blocks. */
  lemma WriterReturnsAlone<T>(s: System<T>, sh: Shadow) returns (turns: seq<Turn<T>>)
    requires Good(s, sh) && s.done && Abs(s.q, sh) == []
    ensures ByWriter(turns) && |turns| <= RoundLeft(s) + 18 + 3 * |s.q.blocks|
    ensures Run(s, turns).w.WExit? && Run(s, turns).saved == s.offered
  {
    var sh1;
    turns, sh1 := ToCheck(s, sh);
    var s1 := Run(s, turns);
    StaysEmpty(s, sh, s1, sh1);
    if s1.w.WCheckDone? {
      var rest, sh2 := PollAndExit(s1, sh1);
      RunAppend(s, turns, rest);
      turns := turns + rest;
      SavedInOrder(Run(s, turns), sh2);
    } else {
      SavedInOrder(s1, sh1);
    }
  }

  // ----- a queue for no element -----

  /** The one slot of the one block is always "full". */
  ghost predicate NoSlot<T>(s: System<T>) {
    && |s.q.blocks| == 1 && s.q.blocks[0].size == 1 && s.todo == s.offered && Looking(s.q.p)
  }

  ghost predicate Looking<T>(p: Producer<T>) {
    p.PIdle? || p.PLoadTailBlock? || p.PLoadTail? || p.PLoadFront? || p.PLoadNext? || p.PLoadFrontBlock?
  }

  lemma FullSlot<T>(q: Queue<T>, sh: Shadow)
    requires Inv(q, sh) && |q.blocks| == 1 && q.blocks[0].size == 1 && Looking(q.p) && !q.p.PIdle? && !Allocates(q.p)
    ensures var r := ProducerStep(q, Continue(true));
      !r.ev.Enqueued? && |r.q.blocks| == 1 && r.q.blocks[0].size == 1 && Looking(r.q.p)
  {
    assert Fine(q, 0);
    assert Linked(q.blocks, sh, 0);
  }

  lemma NoSlotReceiver<T>(s: System<T>, sh: Shadow)
    requires NoSlot(s) && Inv(s.q, sh) && ReceiverOk(s)
    ensures NoSlot(ReceiverStep(s))
  {
    if !s.done && !s.q.p.PIdle? {
      FullSlot(s.q, sh);
    }
  }

  lemma NoSlotWriter<T>(s: System<T>)
    requires NoSlot(s)
    ensures NoSlot(WriterStep(s))
  {
    if s.w.WPop? {
      SameSizesConsumer(s.q, if s.q.c.CIdle? then Call(false) else Proceed);
    }
  }

  lemma NoSlotTurn<T>(s: System<T>, sh: Shadow, turn: Turn<T>)
    requires NoSlot(s) && Inv(s.q, sh) && ReceiverOk(s)
    ensures NoSlot(TakeTurn(s, turn))
  {
    match turn
    case ReceiverTurn => NoSlotReceiver(s, sh);
    case WriterTurn => NoSlotWriter(s);
    case _ =>
  }

  lemma {:induction false} NoSlotRun<T>(s0: System<T>, sh0: Shadow, turns: seq<Turn<T>>)
    requires SystemInv(s0, sh0, s0.offered) && NoSlot(s0)
    ensures NoSlot(Run(s0, turns))
  {
    if turns != [] {
      var n := |turns| - 1;
      NoSlotRun(s0, sh0, turns[..n]);
      var sh := RunKeeps(s0, sh0, turns[..n]);
      NoSlotTurn(Run(s0, turns[..n]), sh, turns[n]);
    }
  }

  lemma NothingSaved<T>(s: System<T>, sh: Shadow)
    requires SystemInv(s, sh, s.offered) && s.todo == s.offered
    ensures s.saved == [] && (s.w.WExit? ==> s.offered == [])
  {
    SavedInOrder(s, sh);
    assert |LiveSeq(s.offered[..|s.offered| - |s.todo|])| == 0;
    assert |LiveSeq(Popped(s))| == 0;
  }

  /** `requested >= 1` is needed: on a queue for no element the writer never returns once
      anything was offered. */
  lemma ZeroSizedNeverReturns<T>(ceil: nat, maxBlock: nat, turns: seq<Turn<T>>)
    requires maxBlock >= 2 && LeastPow2(ceil, 1)
    ensures var s := Run(Session(Constructed<T>(0, ceil, maxBlock, false)), turns);
      s.saved == [] && (s.w.WExit? ==> s.offered == [])
  {
    assert Pow2(0) == 1;
    var s0 := Session(Constructed<T>(0, ceil, maxBlock, false));
    var sh0 := ConstructedInv<T>(0, ceil, maxBlock, false);
    NoSlotRun(s0, sh0, turns);
    var sh := RunKeeps(s0, sh0, turns);
    NothingSaved(Run(s0, turns), sh);
  }
}
