/** The shutdown handshake of one upload session: the receiver thread pushes its containers
    and then sets `done_`; the writer thread polls `done_` and `IsEmpty`, pops and saves.
    Both run on the queue of module SpscQueue, one shared access per step. */
module WriterShutdown {
  import opened SpscQueue
  import opened SpscProof
  import opened SpscRuns

  /** Where the writer is in `DataWriter::Run`.  `job` is jobDoneFlag.  During `IsEmpty`,
      `visited` (a history variable) counts the blocks already added up. */
  datatype Writer<T> =
    | WCheckDone
    | WSizeStart
    | WSizeFront(fb: nat, block: nat, total: nat, visited: nat)
    | WSizeTail(fb: nat, block: nat, total: nat, f: nat, visited: nat)
    | WSizeNext(fb: nat, block: nat, total: nat, visited: nat)
    | WPop(job: bool)
    | WSave(job: bool, v: T)
    | WExit

  /** `todo` is what the receiver still has to push; `closed` says that nothing more will come,
      the final partial container being the last.  `offered` (a history variable) is all that
      it was ever given to push. */
  datatype System<T> = System(q: Queue<T>, done: bool, closed: bool, todo: seq<T>, w: Writer<T>, saved: seq<T>, offered: seq<T>)

  /** A container is ready to be pushed. */
  function Offered<T>(s: System<T>, v: T): System<T> {
    if s.closed then s else s.(todo := s.todo + [v], offered := s.offered + [v])
  }

  /** `Push` spins on `try_enqueue`; after the last container the receiver sets `done_`. */
  function ReceiverStep<T>(s: System<T>): System<T> {
    if s.done then s
    else if s.q.p.PIdle? then
      if s.todo == [] then (if s.closed then s.(done := true) else s)
      else s.(q := ProducerStep(s.q, Begin(s.todo[0], false)).q)
    else DuringPush(s, ProducerStep(s.q, Continue(true)))
  }

  /** One step of `try_enqueue`, which is called again until it succeeds. */
  function DuringPush<T>(s: System<T>, r: Step<T>): System<T> {
    s.(q := r.q, todo := if r.ev.Enqueued? && s.todo != [] then s.todo[1..] else s.todo)
  }

  function AfterPop<T>(s: System<T>, job: bool): System<T> {
    s.(w := if job then WExit else WCheckDone)
  }

  /** One step of `Pop`, which is `try_dequeue`. */
  function DuringPop<T>(s: System<T>, r: Step<T>, job: bool): System<T> {
    match r.ev
    case Dequeued(v) => s.(q := r.q, w := WSave(job, v))
    case FoundEmpty(_) => AfterPop(s.(q := r.q), job)
    case _ => s.(q := r.q)
  }

  function WriterStep<T>(s: System<T>): System<T> {
    match s.w
    case WCheckDone => s.(w := if s.done then WSizeStart else WPop(false))
    case WSizeStart => s.(w := WSizeFront(s.q.frontBlock, s.q.frontBlock, 0, 0))
    case WSizeFront(fb, block, total, visited) =>
      s.(w := WSizeTail(fb, block, total, Blk(s.q, block).front, visited))
    case WSizeTail(fb, block, total, f, visited) =>
      s.(w := WSizeNext(fb, block, total + Dist(f, Blk(s.q, block).tail, Blk(s.q, block).size), visited + 1))
    case WSizeNext(fb, block, total, visited) =>
      var next := Blk(s.q, block).next;
      s.(w := if next != fb then WSizeFront(fb, next, total, visited) else WPop(total == 0))
    case WPop(job) =>
      DuringPop(s, ConsumerStep(s.q, if s.q.c.CIdle? then Call(false) else Proceed), job)
    case WSave(job, v) => AfterPop(s.(saved := s.saved + [v]), job)
    case WExit => s
  }

  /** A container turns up, the session ends, or a thread takes a step. */
  datatype Turn<T> = Offer(v: T) | Close | ReceiverTurn | WriterTurn

  function TakeTurn<T>(s: System<T>, turn: Turn<T>): System<T> {
    match turn
    case Offer(v) => Offered(s, v)
    case Close => s.(closed := true)
    case ReceiverTurn => ReceiverStep(s)
    case WriterTurn => WriterStep(s)
  }

  function Run<T>(s: System<T>, turns: seq<Turn<T>>): System<T> {
    if turns == [] then s else TakeTurn(Run(s, turns[..|turns| - 1]), turns[|turns| - 1])
  }

  // ----- invariant -----

  ghost function CountSum<T>(blocks: seq<Block<T>>, path: seq<nat>): nat {
    if path == [] then 0 else CountSum(blocks, path[..|path| - 1]) + Count(Get(blocks, path[|path| - 1]))
  }

  /** What has been popped: saved, or about to be. */
  ghost function Popped<T>(s: System<T>): seq<T> {
    if s.w.WSave? then s.saved + [s.w.v] else s.saved
  }

  /** `IsEmpty` in progress: `done` is set, so nothing moves; `total` is exact so far. */
  ghost predicate Walking<T>(s: System<T>, sh: Shadow, fb: nat, block: nat, total: nat, visited: nat) {
    && s.done && fb == s.q.frontBlock && visited < |sh.ring| && block == sh.ring[visited]
    && total == CountSum(s.q.blocks, sh.ring[..visited])
  }

  ghost predicate WriterOk<T>(s: System<T>, sh: Shadow)
    requires sh.tp < |sh.ring|
  {
    match s.w
    case WSizeStart => s.done
    case WSizeFront(fb, block, total, visited) => Walking(s, sh, fb, block, total, visited)
    case WSizeTail(fb, block, total, f, visited) =>
      Walking(s, sh, fb, block, total, visited) && f == Get(s.q.blocks, block).front
    case WSizeNext(fb, block, total, visited) =>
      && s.done && fb == s.q.frontBlock && 0 < visited <= |sh.ring| && block == sh.ring[visited - 1]
      && total == CountSum(s.q.blocks, sh.ring[..visited])
    case WPop(job) => job ==> s.done && Abs(s.q, sh) == []
    case WSave(job, v) => job ==> s.done && Abs(s.q, sh) == []
    case WExit => s.done && Abs(s.q, sh) == []
    case _ => true
  }

  /** The receiver pushes `todo[0]` until it is accepted, and nothing after `done`. */
  ghost predicate ReceiverOk<T>(s: System<T>) {
    && (s.done ==> s.closed && s.q.p.PIdle? && s.todo == [])
    && (!s.q.p.PIdle? ==> s.todo != [] && PushedValue(s.q.p) == s.todo[0] && !Allocates(s.q.p))
  }

  ghost function PushedValue<T>(p: Producer<T>): T
    requires !p.PIdle?
  {
    p.e
  }

  ghost predicate Allocates<T>(p: Producer<T>) {
    match p
    case PLoadTailBlock(_, alloc) => alloc
    case PLoadTail(_, alloc, _, _) => alloc
    case PLoadFront(_, alloc, _, _) => alloc
    case PLoadNext(_, alloc, _, _) => alloc
    case PLoadFrontBlock(_, alloc, _, _, _) => alloc
    case PAlloc(_, _) => true
    case PLink(_, _, _) => true
    case _ => false
  }

  ghost predicate Progress<T>(s: System<T>, sh: Shadow, input: seq<T>)
    requires sh.tp < |sh.ring|
  {
    && ReceiverOk(s) && WriterOk(s, sh) && (!s.w.WPop? ==> s.q.c.CIdle?)
    && |s.todo| <= |input| && s.todo == input[|input| - |s.todo|..]
    && LiveSeq(input[..|input| - |s.todo|]) == LiveSeq(Popped(s)) + Abs(s.q, sh)
  }

  ghost predicate SystemInv<T>(s: System<T>, sh: Shadow, input: seq<T>) {
    Inv(s.q, sh) && Progress(s, sh, input)
  }

  // ----- the receiver -----

  lemma CarriesElement<T>(q: Queue<T>, mv: ProducerMove<T>)
    requires !q.p.PIdle? && !Allocates(q.p)
    ensures var r := ProducerStep(q, mv);
            && (r.q.p.PIdle? || (r.q.p.e == q.p.e && !Allocates(r.q.p)))
            && (r.ev.Enqueued? ==> r.q.p.PIdle? && r.ev.v == q.p.e)
            && !r.ev.Dequeued? && r.q.c == q.c
  {
  }

  lemma PushProgress<T>(s: System<T>, sh: Shadow, input: seq<T>, sh': Shadow, r: Step<T>)
    requires sh.tp < |sh.ring| && sh'.tp < |sh'.ring|
    requires Progress(s, sh, input) && !s.done && !s.q.p.PIdle?
    requires FifoStep(Abs(s.q, sh), r.ev, Abs(r.q, sh')) && !r.ev.Dequeued? && r.q.c == s.q.c
    requires r.q.p.PIdle? || (r.q.p.e == s.q.p.e && !Allocates(r.q.p))
    requires r.ev.Enqueued? ==> r.q.p.PIdle? && r.ev.v == s.q.p.e
    ensures Progress(DuringPush(s, r), sh', input)
  {
    var pushed := input[..|input| - |s.todo|];
    if r.ev.Enqueued? {
      assert input[..|input| - |s.todo[1..]|] == pushed + [s.todo[0]];
      assert LiveSeq(pushed + [s.todo[0]]) == LiveSeq(pushed) + [Live(s.todo[0])];
    }
  }

  lemma BeginPush<T>(q: Queue<T>, e: T)
    requires q.p.PIdle?
    ensures var r := ProducerStep(q, Begin(e, false));
            && !r.q.p.PIdle? && r.q.p.e == e && !Allocates(r.q.p) && r.q.c == q.c
            && !r.ev.Enqueued? && !r.ev.Dequeued?
  {
  }

  lemma BeginProgress<T>(s: System<T>, sh: Shadow, input: seq<T>, sh': Shadow, r: Step<T>)
    requires sh.tp < |sh.ring| && sh'.tp < |sh'.ring|
    requires Progress(s, sh, input) && !s.done && s.q.p.PIdle? && s.todo != []
    requires FifoStep(Abs(s.q, sh), r.ev, Abs(r.q, sh')) && !r.ev.Enqueued? && !r.ev.Dequeued?
    requires !r.q.p.PIdle? && r.q.p.e == s.todo[0] && !Allocates(r.q.p) && r.q.c == s.q.c
    ensures Progress(s.(q := r.q), sh', input)
  {
  }

  lemma ReceiverKeeps<T>(s: System<T>, sh: Shadow, input: seq<T>) returns (sh': Shadow)
    requires SystemInv(s, sh, input)
    ensures SystemInv(ReceiverStep(s), sh', input)
  {
    sh' := sh;
    if !s.done && (!s.q.p.PIdle? || s.todo != []) {
      var mv := if s.q.p.PIdle? then Begin(s.todo[0], false) else Continue(true);
      var r := ProducerStep(s.q, mv);
      sh' := ShadowAfterProducer(s.q, sh);
      ProducerKeeps(s.q, sh, mv);
      if s.q.p.PIdle? {
        BeginPush(s.q, s.todo[0]);
        BeginProgress(s, sh, input, sh', r);
      } else {
        CarriesElement(s.q, mv);
        PushProgress(s, sh, input, sh', r);
      }
    }
  }

  // ----- the writer -----

  lemma {:induction false} CountSumFrame<T>(blocks: seq<Block<T>>, path: seq<nat>, k: nat)
    requires k <= |path| && forall i :: k <= i < |path| ==> Count(Get(blocks, path[i])) == 0
    ensures CountSum(blocks, path) == CountSum(blocks, path[..k])
  {
    if k < |path| {
      CountSumFrame(blocks, path[..|path| - 1], k);
      assert path[..|path| - 1][..k] == path[..k];
    } else {
      assert path[..k] == path;
    }
  }

  lemma {:induction false} CountSumIsLength<T>(blocks: seq<Block<T>>, path: seq<nat>)
    ensures CountSum(blocks, path) == |Flatten(Parts(blocks, path))|
  {
    if path != [] {
      var n := |path| - 1;
      CountSumIsLength(blocks, path[..n]);
      var last := [Stored(Get(blocks, path[n]))];
      assert Parts(blocks, path) == Parts(blocks, path[..n]) + last;
      FlattenSplit(Parts(blocks, path[..n]), last);
      assert Flatten(last) == last[0];
    }
  }

  /** With the producer idle, adding up all blocks gives the number of elements. */
  lemma SizeIsExact<T>(q: Queue<T>, sh: Shadow)
    requires Inv(q, sh) && q.p.PIdle?
    ensures CountSum(q.blocks, sh.ring) == |Abs(q, sh)|
  {
    forall i | sh.tp + 1 <= i < |sh.ring| ensures Count(Get(q.blocks, sh.ring[i])) == 0 {
      assert ShapeAt(q, sh, i);
    }
    CountSumFrame(q.blocks, sh.ring, sh.tp + 1);
    CountSumIsLength(q.blocks, sh.ring[..sh.tp + 1]);
  }

  lemma {:induction false} CountSumBounds<T>(blocks: seq<Block<T>>, path: seq<nat>, id: nat)
    requires id in path
    ensures Count(Get(blocks, id)) <= CountSum(blocks, path)
  {
    var n := |path| - 1;
    if path[n] != id {
      CountSumBounds(blocks, path[..n], id);
    }
  }

  ghost function Below(n: nat): (r: set<nat>)
    ensures |r| == n && forall x: nat :: x in r <==> x < n
  {
    if n == 0 then {} else Below(n - 1) + {n - 1}
  }

  ghost function Members(ring: seq<nat>): (r: set<nat>)
    requires forall i, j :: 0 <= i < j < |ring| ==> ring[i] != ring[j]
    ensures |r| == |ring| && forall x :: x in r <==> x in ring
  {
    if ring == [] then {}
    else
      var init, last := ring[..|ring| - 1], ring[|ring| - 1];
      assert last !in init && ring == init + [last];
      Members(init) + {last}
  }

  /** A ring of all distinct block numbers leaves none out. */
  lemma RingCoversAll(ring: seq<nat>, id: nat)
    requires forall i, j :: 0 <= i < j < |ring| ==> ring[i] != ring[j]
    requires id < |ring| && forall i :: 0 <= i < |ring| ==> ring[i] < |ring|
    ensures id in ring
  {
    var all, have := Below(|ring|), Members(ring);
    assert have <= all;
    assert |all - have| == 0;
    assert id in all && id !in all - have;
  }

  lemma AddBlock<T>(s: System<T>, sh: Shadow, input: seq<T>)
    requires sh.tp < |sh.ring| && Progress(s, sh, input) && s.w.WSizeTail?
    ensures Progress(WriterStep(s), sh, input)
  {
    assert sh.ring[..s.w.visited + 1][..s.w.visited] == sh.ring[..s.w.visited];
  }

  lemma NextBlock<T>(s: System<T>, sh: Shadow, input: seq<T>)
    requires SystemInv(s, sh, input) && s.w.WSizeNext?
    ensures Progress(WriterStep(s), sh, input)
  {
    assert Linked(s.q.blocks, sh, s.w.visited - 1);
    SizeIsExact(s.q, sh);
    assert sh.ring[..|sh.ring|] == sh.ring;
  }

  lemma ConsumerStays<T>(q: Queue<T>, mv: ConsumerMove)
    ensures var r := ConsumerStep(q, mv);
            && r.q.p == q.p && !r.ev.Enqueued?
            && (r.ev.Dequeued? || r.ev.FoundEmpty? ==> r.q.c.CIdle?)
  {
  }

  /** The popped and the stored elements together stay what was pushed. */
  lemma PopBalance<T>(s: System<T>, sh: Shadow, sh': Shadow, r: Step<T>, pushed: seq<T>)
    requires sh.tp < |sh.ring| && sh'.tp < |sh'.ring| && s.w.WPop?
    requires LiveSeq(pushed) == LiveSeq(Popped(s)) + Abs(s.q, sh)
    requires FifoStep(Abs(s.q, sh), r.ev, Abs(r.q, sh')) && !r.ev.Enqueued?
    ensures LiveSeq(pushed) == LiveSeq(Popped(DuringPop(s, r, s.w.job))) + Abs(r.q, sh')
  {
    if r.ev.Dequeued? {
      LiveAppend(s.saved, r.ev.v);
      Joined(LiveSeq(s.saved), [Live(r.ev.v)], Abs(r.q, sh'));
    } else {
      assert Popped(DuringPop(s, r, s.w.job)) == s.saved && Abs(r.q, sh') == Abs(s.q, sh);
    }
  }

  lemma LiveAppend<T>(vs: seq<T>, v: T)
    ensures LiveSeq(vs + [v]) == LiveSeq(vs) + [Live(v)]
  {
  }

  lemma PopProgress<T>(s: System<T>, sh: Shadow, input: seq<T>, sh': Shadow, r: Step<T>)
    requires sh.tp < |sh.ring| && sh'.tp < |sh'.ring|
    requires Progress(s, sh, input) && s.w.WPop? && FifoStep(Abs(s.q, sh), r.ev, Abs(r.q, sh'))
    requires r.q.p == s.q.p && !r.ev.Enqueued? && (r.ev.Dequeued? || r.ev.FoundEmpty? ==> r.q.c.CIdle?)
    ensures Progress(DuringPop(s, r, s.w.job), sh', input)
  {
    var s' := DuringPop(s, r, s.w.job);
    assert s'.done == s.done && s'.closed == s.closed && s'.todo == s.todo && s'.q == r.q;
    PopBalance(s, sh, sh', r, input[..|input| - |s.todo|]);
    if s.w.job {
      assert !r.ev.Dequeued? && Abs(r.q, sh') == [];
    }
  }

  lemma PopKeeps<T>(s: System<T>, sh: Shadow, input: seq<T>) returns (sh': Shadow)
    requires SystemInv(s, sh, input) && s.w.WPop?
    ensures SystemInv(WriterStep(s), sh', input)
  {
    var mv := if s.q.c.CIdle? then Call(false) else Proceed;
    sh' := ShadowAfterConsumer(s.q, sh);
    ConsumerKeeps(s.q, sh, mv);
    ConsumerStays(s.q, mv);
    PopProgress(s, sh, input, sh', ConsumerStep(s.q, mv));
  }

  /** Between pops the queue stays as it is. */
  lemma WalkKeeps<T>(s: System<T>, sh: Shadow, input: seq<T>)
    requires SystemInv(s, sh, input) && !s.w.WPop?
    ensures SystemInv(WriterStep(s), sh, input) && WriterStep(s).q == s.q
  {
    match s.w {
      case WSizeTail(_, _, _, _, _) => AddBlock(s, sh, input);
      case WSizeNext(_, _, _, _) => NextBlock(s, sh, input);
      case _ =>
    }
  }

  lemma WriterKeeps<T>(s: System<T>, sh: Shadow, input: seq<T>) returns (sh': Shadow)
    requires SystemInv(s, sh, input)
    ensures SystemInv(WriterStep(s), sh', input)
  {
    sh' := sh;
    if s.w.WPop? {
      sh' := PopKeeps(s, sh, input);
    } else {
      WalkKeeps(s, sh, input);
    }
  }

  // ----- whole runs -----

  lemma OfferKeeps<T>(s: System<T>, sh: Shadow, v: T)
    requires SystemInv(s, sh, s.offered) && !s.closed
    ensures SystemInv(Offered(s, v), sh, Offered(s, v).offered)
  {
    var s' := Offered(s, v);
    var n := |s.offered| - |s.todo|;
    assert s'.offered[..n] == s.offered[..n] && s'.offered[n..] == s.offered[n..] + [v];
  }

  lemma TurnKeeps<T>(s: System<T>, sh: Shadow, turn: Turn<T>) returns (sh': Shadow)
    requires SystemInv(s, sh, s.offered)
    ensures SystemInv(TakeTurn(s, turn), sh', TakeTurn(s, turn).offered)
  {
    sh' := sh;
    match turn
    case Offer(v) =>
      if !s.closed {
        OfferKeeps(s, sh, v);
      }
    case Close => CloseKeeps(s, sh);
    case ReceiverTurn => sh' := ReceiverKeeps(s, sh, s.offered);
    case WriterTurn => sh' := WriterKeeps(s, sh, s.offered);
  }

  lemma CloseKeeps<T>(s: System<T>, sh: Shadow)
    requires SystemInv(s, sh, s.offered)
    ensures SystemInv(s.(closed := true), sh, s.offered)
  {
  }

  lemma {:induction false} RunKeeps<T>(s0: System<T>, sh0: Shadow, turns: seq<Turn<T>>) returns (sh: Shadow)
    requires SystemInv(s0, sh0, s0.offered)
    ensures SystemInv(Run(s0, turns), sh, Run(s0, turns).offered)
  {
    sh := sh0;
    if turns != [] {
      sh := RunKeeps(s0, sh0, turns[..|turns| - 1]);
      sh := TurnKeeps(Run(s0, turns[..|turns| - 1]), sh, turns[|turns| - 1]);
    }
  }

  /** A session as `EdgeUploadThread` starts it. */
  function Session<T>(q0: Queue<T>): System<T> {
    System(q0, false, false, [], WCheckDone, [], [])
  }

  lemma SavedInOrder<T>(s: System<T>, sh: Shadow)
    requires SystemInv(s, sh, s.offered)
    ensures s.saved <= s.offered
    ensures s.w.WSave? ==> s.saved + [s.w.v] <= s.offered
    ensures s.w.WExit? ==> s.saved == s.offered && s.done && s.closed
  {
    var pushed := s.offered[..|s.offered| - |s.todo|];
    var popped := Popped(s);
    forall i | 0 <= i < |popped| ensures i < |s.offered| && popped[i] == s.offered[i] {
      assert LiveSeq(pushed)[i] == LiveSeq(popped)[i];
    }
    assert s.w.WExit? ==> |LiveSeq(pushed)| == |LiveSeq(s.saved)|;
  }

  /** Main result.  At every moment the saved containers are a prefix of those offered; once
      the writer has returned, every container, including the last partial one, has been saved
      exactly once in push order, `done_` is set, and every block is empty, so that the
      destructor of the queue finds it so. */
  lemma WriterSavesAll<T>(q0: Queue<T>, sh0: Shadow, turns: seq<Turn<T>>)
    requires Inv(q0, sh0) && Abs(q0, sh0) == [] && q0.p.PIdle? && q0.c.CIdle?
    ensures var s := Run(Session(q0), turns);
            && s.saved <= s.offered
            && (s.w.WSave? ==> s.saved + [s.w.v] <= s.offered)
            && (s.w.WExit? ==> s.saved == s.offered && s.done && s.closed)
    ensures var s := Run(Session(q0), turns);
            s.w.WExit? ==> forall id :: 0 <= id < |s.q.blocks| ==> Count(s.q.blocks[id]) == 0
  {
    var sh := RunKeeps(Session(q0), sh0, turns);
    var s := Run(Session(q0), turns);
    SavedInOrder(s, sh);
    if s.w.WExit? {
      SizeIsExact(s.q, sh);
      forall id | 0 <= id < |s.q.blocks| ensures Count(s.q.blocks[id]) == 0 {
        RingCoversAll(sh.ring, id);
        CountSumBounds(s.q.blocks, sh.ring, id);
      }
    }
  }
}
