/** The reference-counted lock-free free list of `ConcurrentQueue`, with any number of
    threads.  One step is one atomic access, under sequential consistency.  A node's
    `freeListRefs` is a 32-bit word: the low 31 bits count references, the top bit says
    that the node should be on the list and that the last reference holder must put it there. */
module FreeList {

  const SHOULD_BE_ON_FREELIST: nat := 0x8000_0000
  const WORD: nat := 0x1_0000_0000

  datatype Pointer = Null | To(node: nat)

  /** Where `add_knowing_refcount_is_zero` returns to: `add`, or the loop of `try_get`. */
  datatype Return = ToCaller | ToGet(head: Pointer)

  /** A thread inside `add` (Add), `add_knowing_refcount_is_zero` (Put) or `try_get` (Get);
      the fields are its locals. */
  datatype Thread =
    | Idle
    | AddFlag(n: nat)
    | PutLoadHead(n: nat, ret: Return)
    | PutStoreNext(n: nat, head: Pointer, ret: Return)
    | PutStoreRefs(n: nat, head: Pointer, ret: Return)
    | PutSwap(n: nat, head: Pointer, ret: Return)
    | PutBackOff(n: nat, head: Pointer, ret: Return)
    | GetLoadHead
    | GetLoadRefs(n: nat)
    | GetSwapRefs(n: nat, refs: nat)
    | GetLoadNext(n: nat)
    | GetSwapHead(n: nat, next: Pointer)
    | GetAssert(n: nat)
    | GetDropTwo(n: nat)
    | GetDropOne(n: nat, head: Pointer)

  /** `owned` are the nodes in the hands of clients, which may pass them around. */
  datatype State = State(head: Pointer, refs: seq<nat>, next: seq<Pointer>, threads: seq<Thread>, owned: set<nat>)

  datatype Event = Quiet | Adding(n: nat) | Got(n: nat) | GotNothing | Fault

  datatype Step = Step(s: State, ev: Event)

  datatype Move = StartAdd(n: nat) | StartGet | Go

  function Plus(a: nat, b: nat): nat { (a + b) % WORD }

  function Minus(a: nat, b: nat): nat
    requires b <= WORD
  {
    (a + WORD - b) % WORD
  }

  /** `refs & REFS_MASK`. */
  function RefCount(refs: nat): nat { refs % SHOULD_BE_ON_FREELIST }

  function Refs(s: State, n: nat): nat { if n < |s.refs| then s.refs[n] else 0 }

  function Next(s: State, n: nat): Pointer { if n < |s.next| then s.next[n] else Null }

  function SetRefs(s: State, n: nat, r: nat): State {
    if n < |s.refs| then s.(refs := s.refs[n := r]) else s
  }

  function SetNext(s: State, n: nat, p: Pointer): State {
    if n < |s.next| then s.(next := s.next[n := p]) else s
  }

  function Now(s: State, t: nat, pc: Thread): State
    requires t < |s.threads|
  {
    s.(threads := s.threads[t := pc])
  }

  function Quietly(s: State, t: nat, pc: Thread): Step
    requires t < |s.threads|
  {
    Step(Now(s, t, pc), Quiet)
  }

  /** The test of the loop in `try_get`. */
  function Loop(s: State, t: nat, head: Pointer): Step
    requires t < |s.threads|
  {
    match head
    case Null => Step(Now(s, t, Idle), GotNothing)
    case To(n) => Quietly(s, t, GetLoadRefs(n))
  }

  function Back(s: State, t: nat, ret: Return): Step
    requires t < |s.threads|
  {
    match ret
    case ToCaller => Quietly(s, t, Idle)
    case ToGet(head) => Loop(s, t, head)
  }

  function ThreadStep(s: State, t: nat, mv: Move): Step
    requires t < |s.threads|
  {
    match s.threads[t]
    case Idle =>
      (match mv
       case StartAdd(n) => if n in s.owned then Step(Now(s.(owned := s.owned - {n}), t, AddFlag(n)), Adding(n)) else Step(s, Quiet)
       case StartGet => Quietly(s, t, GetLoadHead)
       case Go => Step(s, Quiet))
    case AddFlag(n) =>
      var s' := SetRefs(s, n, Plus(Refs(s, n), SHOULD_BE_ON_FREELIST));
      if Refs(s, n) == 0 then Quietly(s', t, PutLoadHead(n, ToCaller)) else Quietly(s', t, Idle)
    case PutLoadHead(n, ret) => Quietly(s, t, PutStoreNext(n, s.head, ret))
    case PutStoreNext(n, head, ret) => Quietly(SetNext(s, n, head), t, PutStoreRefs(n, head, ret))
    case PutStoreRefs(n, head, ret) => Quietly(SetRefs(s, n, 1), t, PutSwap(n, head, ret))
    case PutSwap(n, head, ret) =>
      if s.head == head then Back(s.(head := To(n)), t, ret) else Quietly(s, t, PutBackOff(n, s.head, ret))
    case PutBackOff(n, head, ret) =>
      var s' := SetRefs(s, n, Plus(Refs(s, n), SHOULD_BE_ON_FREELIST - 1));
      if Refs(s, n) == 1 then Quietly(s', t, PutStoreNext(n, head, ret)) else Back(s', t, ret)
    case GetLoadHead => Loop(s, t, s.head)
    case GetLoadRefs(n) =>
      if RefCount(Refs(s, n)) == 0 then Quietly(s, t, GetLoadHead) else Quietly(s, t, GetSwapRefs(n, Refs(s, n)))
    case GetSwapRefs(n, refs) =>
      if Refs(s, n) == refs then Quietly(SetRefs(s, n, Plus(refs, 1)), t, GetLoadNext(n))
      else Quietly(s, t, GetLoadHead)
    case GetLoadNext(n) => Quietly(s, t, GetSwapHead(n, Next(s, n)))
    case GetSwapHead(n, next) =>
      if s.head == To(n) then Quietly(s.(head := next), t, GetAssert(n)) else Quietly(s, t, GetDropOne(n, s.head))
    case GetAssert(n) =>
      if Refs(s, n) >= SHOULD_BE_ON_FREELIST then Step(s, Fault) else Quietly(s, t, GetDropTwo(n))
    case GetDropTwo(n) =>
      Step(Now(SetRefs(s, n, Minus(Refs(s, n), 2)).(owned := s.owned + {n}), t, Idle), Got(n))
    case GetDropOne(n, head) =>
      var s' := SetRefs(s, n, Minus(Refs(s, n), 1));
      if Refs(s, n) == SHOULD_BE_ON_FREELIST + 1 then Quietly(s', t, PutLoadHead(n, ToGet(head)))
      else Loop(s', t, head)
  }

  // ----- what a thread holds -----

  /** References that a thread holds on a node; claims, by which it alone is responsible for
      it; and whether it is about to overwrite the flagged reference word. */
  datatype Kind = Unit | Claim | Flagging

  function Weight(pc: Thread, n: nat, k: Kind): nat {
    match pc
    case AddFlag(m) => if m == n && k == Claim then 1 else 0
    case PutLoadHead(m, _) => if m == n && k != Unit then 1 else 0
    case PutStoreNext(m, _, _) => if m == n && k != Unit then 1 else 0
    case PutStoreRefs(m, _, _) => if m == n && k != Unit then 1 else 0
    case PutSwap(m, _, _) => if m == n && k != Flagging then 1 else 0
    case PutBackOff(m, _, _) => if m == n && k != Flagging then 1 else 0
    case GetLoadNext(m) => if m == n && k == Unit then 1 else 0
    case GetSwapHead(m, _) => if m == n && k == Unit then 1 else 0
    case GetDropOne(m, _) => if m == n && k == Unit then 1 else 0
    case GetAssert(m) => if m != n || k == Flagging then 0 else if k == Unit then 2 else 1
    case GetDropTwo(m) => if m != n || k == Flagging then 0 else if k == Unit then 2 else 1
    case _ => 0
  }

  function Total(threads: seq<Thread>, n: nat, k: Kind): nat {
    if threads == [] then 0 else Weight(threads[0], n, k) + Total(threads[1..], n, k)
  }

  lemma {:induction false} TotalUpdate(threads: seq<Thread>, t: nat, pc: Thread, n: nat, k: Kind)
    requires t < |threads|
    ensures Total(threads[t := pc], n, k) == Total(threads, n, k) - Weight(threads[t], n, k) + Weight(pc, n, k)
  {
    if t == 0 {
      assert threads[t := pc][1..] == threads[1..];
    } else {
      TotalUpdate(threads[1..], t - 1, pc, n, k);
      assert threads[t := pc][1..] == threads[1..][t - 1 := pc];
    }
  }

  lemma {:induction false} TotalAtLeast(threads: seq<Thread>, t: nat, n: nat, k: Kind)
    requires t < |threads|
    ensures Total(threads, n, k) >= Weight(threads[t], n, k)
  {
    if t > 0 {
      TotalAtLeast(threads[1..], t - 1, n, k);
    }
  }

  lemma {:induction false} TotalOfTwo(threads: seq<Thread>, t: nat, u: nat, n: nat, k: Kind)
    requires t < u < |threads|
    ensures Total(threads, n, k) >= Weight(threads[t], n, k) + Weight(threads[u], n, k)
  {
    if t > 0 {
      TotalOfTwo(threads[1..], t - 1, u - 1, n, k);
    } else {
      TotalAtLeast(threads[1..], u - 1, n, k);
    }
  }

  lemma {:induction false} UnitsBounded(threads: seq<Thread>, n: nat)
    ensures Total(threads, n, Unit) <= |threads| + Total(threads, n, Claim)
  {
    if threads != [] {
      UnitsBounded(threads[1..], n);
    }
  }

  // ----- invariant -----

  /** `list` is the chain from `head`; `parked` are the nodes flagged for re-adding by the
      last of their reference holders. */
  datatype Shadow = Shadow(list: seq<nat>, parked: set<nat>)

  ghost function One(b: bool): nat { if b then 1 else 0 }

  /** Every node is exactly one of: owned by a client, on the list, parked, or claimed by one
      thread; and its reference word counts its references. */
  ghost predicate NodeOk(s: State, g: Shadow, n: nat)
    requires n < |s.refs|
  {
    && One(n in s.owned) + One(n in g.list) + One(n in g.parked) + Total(s.threads, n, Claim) == 1
    && s.refs[n] == One(n in g.list) + Total(s.threads, n, Unit)
         + (if n in g.parked || Total(s.threads, n, Flagging) > 0 then SHOULD_BE_ON_FREELIST else 0)
    && (n in g.parked ==> Total(s.threads, n, Unit) > 0)
    && (Total(s.threads, n, Flagging) > 0 ==> Total(s.threads, n, Unit) == 0)
  }

  ghost predicate Known(s: State, p: Pointer) { p.To? ==> p.node < |s.refs| }

  ghost predicate ReturnOk(s: State, ret: Return) { ret.ToGet? ==> Known(s, ret.head) }

  ghost predicate ThreadOk(s: State, t: nat)
    requires t < |s.threads|
  {
    match s.threads[t]
    case Idle => true
    case AddFlag(n) => n < |s.refs|
    case PutLoadHead(n, ret) => n < |s.refs| && ReturnOk(s, ret)
    case PutStoreNext(n, head, ret) => n < |s.refs| && Known(s, head) && ReturnOk(s, ret)
    case PutStoreRefs(n, head, ret) => n < |s.refs| && ReturnOk(s, ret) && Next(s, n) == head
    case PutSwap(n, head, ret) => n < |s.refs| && ReturnOk(s, ret) && Next(s, n) == head
    case PutBackOff(n, head, ret) => n < |s.refs| && Known(s, head) && ReturnOk(s, ret)
    case GetLoadHead => true
    case GetLoadRefs(n) => n < |s.refs|
    case GetSwapRefs(n, refs) => n < |s.refs| && RefCount(refs) != 0
    case GetLoadNext(n) => n < |s.refs|
    case GetSwapHead(n, next) => n < |s.refs| && next == Next(s, n)
    case GetAssert(n) => n < |s.refs|
    case GetDropTwo(n) => n < |s.refs|
    case GetDropOne(n, head) => n < |s.refs| && Known(s, head)
  }

  ghost function ChainFrom(list: seq<nat>, i: nat): Pointer
    requires i <= |list|
  {
    if i == |list| then Null else To(list[i])
  }

  ghost predicate LinkOk(s: State, list: seq<nat>, i: nat)
    requires i < |list|
  {
    Next(s, list[i]) == ChainFrom(list, i + 1)
  }

  ghost predicate ListOk(s: State, list: seq<nat>) {
    && s.head == ChainFrom(list, 0)
    && (forall i :: 0 <= i < |list| ==> list[i] < |s.refs|)
    && (forall i, j :: 0 <= i < j < |list| ==> list[i] != list[j])
    && (forall i :: 0 <= i < |list| ==> LinkOk(s, list, i))
  }

  ghost predicate Inv(s: State, g: Shadow) {
    && |s.next| == |s.refs| && |s.threads| + 2 < SHOULD_BE_ON_FREELIST
    && (forall n :: n in s.owned || n in g.parked ==> n < |s.refs|)
    && (forall n :: 0 <= n < |s.refs| ==> NodeOk(s, g, n))
    && (forall n :: 0 <= n < |s.refs| ==> Known(s, Next(s, n)))
    && (forall t :: 0 <= t < |s.threads| ==> ThreadOk(s, t))
    && ListOk(s, g.list)
  }

  /** How a step of thread `t` changes the chain and the parked nodes. */
  ghost function After(s: State, g: Shadow, t: nat): Shadow
    requires t < |s.threads|
  {
    match s.threads[t]
    case AddFlag(n) => if Refs(s, n) == 0 then g else g.(parked := g.parked + {n})
    case PutSwap(n, head, _) => if s.head == head then g.(list := [n] + g.list) else g
    case PutBackOff(n, _, _) => if Refs(s, n) == 1 then g else g.(parked := g.parked + {n})
    case GetSwapHead(n, _) => if s.head == To(n) && g.list != [] then g.(list := g.list[1..]) else g
    case GetDropOne(n, _) => if Refs(s, n) == SHOULD_BE_ON_FREELIST + 1 then g.(parked := g.parked - {n}) else g
    case _ => g
  }

  // ----- frames -----

  /** `s'` and `g'` differ from `s` and `g` at most on node `n` and thread `t`, and on links. */
  ghost predicate Local(s: State, g: Shadow, s': State, g': Shadow, t: nat, n: nat) {
    && t < |s.threads| && |s'.threads| == |s.threads| && s'.threads == s.threads[t := s'.threads[t]]
    && |s'.refs| == |s.refs| && |s'.next| == |s.next|
    && (forall m :: 0 <= m < |s.refs| && m != n ==> Refs(s', m) == Refs(s, m))
    && (forall m :: m != n ==> (m in s'.owned <==> m in s.owned))
    && (forall m :: m != n ==> (m in g'.list <==> m in g.list))
    && (forall m :: m != n ==> (m in g'.parked <==> m in g.parked))
    && (forall m, k :: m != n ==> Weight(s.threads[t], m, k) == Weight(s'.threads[t], m, k))
  }

  lemma OtherNodes(s: State, g: Shadow, s': State, g': Shadow, t: nat, n: nat)
    requires Local(s, g, s', g', t, n)
    requires forall m :: 0 <= m < |s.refs| ==> NodeOk(s, g, m)
    ensures forall m :: 0 <= m < |s.refs| && m != n ==> NodeOk(s', g', m)
  {
    forall m | 0 <= m < |s.refs| && m != n
      ensures NodeOk(s', g', m)
    {
      assert NodeOk(s, g, m) && Refs(s', m) == Refs(s, m);
      TotalUpdate(s.threads, t, s'.threads[t], m, Unit);
      TotalUpdate(s.threads, t, s'.threads[t], m, Claim);
      TotalUpdate(s.threads, t, s'.threads[t], m, Flagging);
    }
  }


  /** The node that a step is about. */
  ghost function Focus(s: State, t: nat, mv: Move): nat
    requires t < |s.threads|
  {
    match s.threads[t]
    case Idle => if mv.StartAdd? then mv.n else 0
    case GetLoadHead => 0
    case pc => pc.n
  }

  lemma WeightElsewhere(pc: Thread, m: nat)
    ensures pc.Idle? || pc.GetLoadHead? || pc.n != m ==> forall k :: Weight(pc, m, k) == 0
  {
  }

  lemma WeightsAreLocal(s: State, t: nat, mv: Move, m: nat, k: Kind)
    requires t < |s.threads| && m != Focus(s, t, mv)
    ensures Weight(s.threads[t], m, k) == Weight(ThreadStep(s, t, mv).s.threads[t], m, k)
  {
    WeightElsewhere(s.threads[t], m);
    WeightElsewhere(ThreadStep(s, t, mv).s.threads[t], m);
  }

  lemma ShadowIsLocal(s: State, g: Shadow, t: nat, mv: Move, m: nat)
    requires t < |s.threads| && m != Focus(s, t, mv)
    requires s.head.To? ==> |g.list| > 0 && g.list[0] == s.head.node
    ensures m in After(s, g, t).list <==> m in g.list
    ensures m in After(s, g, t).parked <==> m in g.parked
  {
    var n := Focus(s, t, mv);
    if s.threads[t].GetSwapHead? && s.head == To(n) {
      assert g.list == [n] + g.list[1..];
    }
  }

  lemma StateIsLocal(s: State, t: nat, mv: Move, m: nat)
    requires t < |s.threads| && m != Focus(s, t, mv)
    ensures Refs(ThreadStep(s, t, mv).s, m) == Refs(s, m)
    ensures m in ThreadStep(s, t, mv).s.owned <==> m in s.owned
  {
  }

  lemma SizesStay(s: State, t: nat, mv: Move)
    requires t < |s.threads|
    ensures var s' := ThreadStep(s, t, mv).s;
      && |s'.threads| == |s.threads| && s'.threads == s.threads[t := s'.threads[t]]
      && |s'.refs| == |s.refs| && |s'.next| == |s.next|
  {
  }

  lemma StepIsLocal(s: State, g: Shadow, t: nat, mv: Move)
    requires t < |s.threads|
    requires s.head.To? ==> |g.list| > 0 && g.list[0] == s.head.node
    ensures Local(s, g, ThreadStep(s, t, mv).s, After(s, g, t), t, Focus(s, t, mv))
  {
    var s', g', n := ThreadStep(s, t, mv).s, After(s, g, t), Focus(s, t, mv);
    SizesStay(s, t, mv);
    forall m: nat | m != n
      ensures (m in s'.owned <==> m in s.owned) && Refs(s', m) == Refs(s, m)
      ensures (m in g'.list <==> m in g.list) && (m in g'.parked <==> m in g.parked)
    {
      StateIsLocal(s, t, mv, m);
      ShadowIsLocal(s, g, t, mv, m);
    }
    forall m, k | m != n ensures Weight(s.threads[t], m, k) == Weight(s'.threads[t], m, k) { WeightsAreLocal(s, t, mv, m, k); }
  }

  ghost predicate Moved(threads: seq<Thread>, t: nat, pc: Thread, n: nat, k: Kind)
    requires t < |threads|
  {
    && Total(threads[t := pc], n, k) == Total(threads, n, k) - Weight(threads[t], n, k) + Weight(pc, n, k)
    && Total(threads, n, k) >= Weight(threads[t], n, k)
  }

  /** The three sums of a node after thread `t` has moved. */
  lemma Sums(threads: seq<Thread>, t: nat, pc: Thread, n: nat)
    requires t < |threads|
    ensures Moved(threads, t, pc, n, Unit)
    ensures Moved(threads, t, pc, n, Claim)
    ensures Moved(threads, t, pc, n, Flagging)
    ensures Total(threads, n, Unit) <= |threads| + Total(threads, n, Claim)
    ensures Total(threads, n, Flagging) <= Total(threads, n, Claim)
  {
    TotalUpdate(threads, t, pc, n, Unit);
    TotalUpdate(threads, t, pc, n, Claim);
    TotalUpdate(threads, t, pc, n, Flagging);
    TotalAtLeast(threads, t, n, Unit);
    TotalAtLeast(threads, t, n, Claim);
    TotalAtLeast(threads, t, n, Flagging);
    UnitsBounded(threads, n);
    FlagsAreClaims(threads, n);
  }

  // ----- the focus node -----

  lemma WordArithmetic(a: nat, b: nat)
    ensures a + b < WORD ==> Plus(a, b) == a + b
    ensures b <= a < WORD ==> Minus(a, b) == a - b
  {
  }

  ghost predicate Counted(s: State, g: Shadow, n: nat) {
    && |s.threads| + 2 < SHOULD_BE_ON_FREELIST
    && n < |s.refs| && NodeOk(s, g, n)
  }

  lemma StartCounts(s: State, g: Shadow, t: nat, mv: Move)
    requires t < |s.threads| && s.threads[t].Idle? && Counted(s, g, Focus(s, t, mv))
    ensures NodeOk(ThreadStep(s, t, mv).s, g, Focus(s, t, mv))
  {
    var r := ThreadStep(s, t, mv);
    Sums(s.threads, t, r.s.threads[t], Focus(s, t, mv));
  }

  lemma ReadCounts(s: State, g: Shadow, t: nat, mv: Move)
    requires t < |s.threads| && Counted(s, g, Focus(s, t, mv))
    requires var pc := s.threads[t];
      || pc.PutLoadHead? || pc.PutStoreNext? || pc.GetLoadHead? || pc.GetLoadRefs? || pc.GetLoadNext? || pc.GetAssert?
    ensures var r := ThreadStep(s, t, mv); NodeOk(r.s, g, Focus(s, t, mv)) && r.ev != Fault
  {
    var r, n := ThreadStep(s, t, mv), Focus(s, t, mv);
    if s.threads[t].GetAssert? {
      Sums(s.threads, t, s.threads[t], n);
      assert r.ev != Fault;
    }
    SameCounts(s, g, r.s, t, n);
  }

  lemma SameCounts(s: State, g: Shadow, s': State, t: nat, n: nat)
    requires t < |s.threads| && n < |s.refs| && NodeOk(s, g, n)
    requires s'.refs == s.refs && s'.owned == s.owned && |s'.threads| == |s.threads|
    requires s'.threads == s.threads[t := s'.threads[t]]
    requires forall k :: Weight(s.threads[t], n, k) == Weight(s'.threads[t], n, k)
    ensures NodeOk(s', g, n)
  {
    Sums(s.threads, t, s'.threads[t], n);
  }

  lemma FlagCounts(s: State, g: Shadow, t: nat, mv: Move)
    requires t < |s.threads| && s.threads[t].AddFlag? && Counted(s, g, s.threads[t].n)
    ensures NodeOk(ThreadStep(s, t, mv).s, After(s, g, t), s.threads[t].n)
  {
    var r, n := ThreadStep(s, t, mv), s.threads[t].n;
    Sums(s.threads, t, r.s.threads[t], n);
    FlagsAreClaims(s.threads[t := Idle], n);
    Sums(s.threads, t, Idle, n);
    WordArithmetic(Refs(s, n), SHOULD_BE_ON_FREELIST);
  }

  lemma StoreCounts(s: State, g: Shadow, t: nat, mv: Move)
    requires t < |s.threads| && s.threads[t].PutStoreRefs? && Counted(s, g, s.threads[t].n)
    ensures NodeOk(ThreadStep(s, t, mv).s, g, s.threads[t].n)
  {
    var r, n := ThreadStep(s, t, mv), s.threads[t].n;
    Sums(s.threads, t, r.s.threads[t], n);
  }

  lemma {:induction false} FlagsAreClaims(threads: seq<Thread>, n: nat)
    ensures Total(threads, n, Flagging) <= Total(threads, n, Claim)
  {
    if threads != [] {
      FlagsAreClaims(threads[1..], n);
    }
  }

  lemma BackOffCounts(s: State, g: Shadow, t: nat, mv: Move)
    requires t < |s.threads| && s.threads[t].PutBackOff? && Counted(s, g, s.threads[t].n)
    ensures NodeOk(ThreadStep(s, t, mv).s, After(s, g, t), s.threads[t].n)
  {
    var r, n := ThreadStep(s, t, mv), s.threads[t].n;
    Sums(s.threads, t, r.s.threads[t], n);
    WordArithmetic(Refs(s, n), SHOULD_BE_ON_FREELIST - 1);
  }

  lemma AcquireCounts(s: State, g: Shadow, t: nat, mv: Move)
    requires t < |s.threads| && s.threads[t].GetSwapRefs? && Counted(s, g, s.threads[t].n)
    requires RefCount(s.threads[t].refs) != 0
    ensures NodeOk(ThreadStep(s, t, mv).s, g, s.threads[t].n)
  {
    var r, n := ThreadStep(s, t, mv), s.threads[t].n;
    Sums(s.threads, t, r.s.threads[t], n);
    WordArithmetic(Refs(s, n), 1);
  }

  lemma DropCounts(s: State, g: Shadow, t: nat, mv: Move)
    requires t < |s.threads| && s.threads[t].GetDropOne? && Counted(s, g, s.threads[t].n)
    ensures NodeOk(ThreadStep(s, t, mv).s, After(s, g, t), s.threads[t].n)
  {
    var r, n := ThreadStep(s, t, mv), s.threads[t].n;
    Sums(s.threads, t, r.s.threads[t], n);
    WordArithmetic(Refs(s, n), 1);
  }

  lemma TakeCounts(s: State, g: Shadow, t: nat, mv: Move)
    requires t < |s.threads| && s.threads[t].GetDropTwo? && Counted(s, g, s.threads[t].n)
    ensures NodeOk(ThreadStep(s, t, mv).s, g, s.threads[t].n)
    ensures s.threads[t].n !in s.owned
  {
    var r, n := ThreadStep(s, t, mv), s.threads[t].n;
    Sums(s.threads, t, r.s.threads[t], n);
    WordArithmetic(Refs(s, n), 2);
  }

  lemma PushCounts(s: State, g: Shadow, t: nat, mv: Move)
    requires t < |s.threads| && s.threads[t].PutSwap? && Counted(s, g, s.threads[t].n)
    ensures NodeOk(ThreadStep(s, t, mv).s, After(s, g, t), s.threads[t].n)
  {
    var r, n := ThreadStep(s, t, mv), s.threads[t].n;
    Sums(s.threads, t, r.s.threads[t], n);
  }

  lemma PopCounts(s: State, g: Shadow, t: nat, mv: Move)
    requires t < |s.threads| && s.threads[t].GetSwapHead? && Counted(s, g, s.threads[t].n)
    requires ListOk(s, g.list)
    ensures NodeOk(ThreadStep(s, t, mv).s, After(s, g, t), s.threads[t].n)
  {
    var r, n := ThreadStep(s, t, mv), s.threads[t].n;
    Sums(s.threads, t, r.s.threads[t], n);
    if s.head == To(n) {
      assert g.list == [n] + g.list[1..];
    }
  }

  lemma StepEvent(s: State, t: nat, mv: Move)
    requires t < |s.threads|
    ensures var ev := ThreadStep(s, t, mv).ev;
      && (ev == Fault ==> s.threads[t].GetAssert?)
      && (ev.Got? ==> s.threads[t].GetDropTwo? && ev.n == s.threads[t].n)
  {
  }

  /** The node of a step is still counted right, no assertion fails, and a node handed out was
      in nobody's hands. */
  lemma FocusKept(s: State, g: Shadow, t: nat, mv: Move)
    requires t < |s.threads| && Counted(s, g, Focus(s, t, mv)) && ThreadOk(s, t) && ListOk(s, g.list)
    ensures var r := ThreadStep(s, t, mv);
      && NodeOk(r.s, After(s, g, t), Focus(s, t, mv)) && r.ev != Fault
      && (r.ev.Got? ==> r.ev.n == Focus(s, t, mv) && r.ev.n !in s.owned)
  {
    StepEvent(s, t, mv);
    match s.threads[t]
    case AddFlag(_) => FlagCounts(s, g, t, mv);
    case PutStoreRefs(_, _, _) => StoreCounts(s, g, t, mv);
    case PutBackOff(_, _, _) => BackOffCounts(s, g, t, mv);
    case GetSwapRefs(_, _) => AcquireCounts(s, g, t, mv);
    case GetDropOne(_, _) => DropCounts(s, g, t, mv);
    case GetDropTwo(_) => TakeCounts(s, g, t, mv);
    case PutSwap(_, _, _) => PushCounts(s, g, t, mv);
    case GetSwapHead(_, _) => PopCounts(s, g, t, mv);
    case Idle => StartCounts(s, g, t, mv);
    case _ => ReadCounts(s, g, t, mv);
  }

  // ----- links -----

  /** No other thread depends on the link of a node that is about to be put on the list. */
  lemma LinkIsFree(s: State, g: Shadow, t: nat, u: nat)
    requires t < |s.threads| && u < |s.threads| && t != u
    requires s.threads[t].PutStoreNext? && Counted(s, g, s.threads[t].n)
    ensures s.threads[u].PutStoreRefs? || s.threads[u].PutSwap? || s.threads[u].GetSwapHead?
      ==> s.threads[u].n != s.threads[t].n
  {
    var n := s.threads[t].n;
    TotalAtLeast(s.threads, t, n, Flagging);
    TotalAtLeast(s.threads, u, n, Unit);
    TotalOfTwo(s.threads, if t < u then t else u, if t < u then u else t, n, Claim);
  }

  lemma NextStays(s: State, t: nat, mv: Move, m: nat)
    requires t < |s.threads| && (s.threads[t].PutStoreNext? ==> m != s.threads[t].n)
    ensures Next(ThreadStep(s, t, mv).s, m) == Next(s, m)
  {
  }

  lemma OtherThreads(s: State, g: Shadow, t: nat, u: nat, mv: Move)
    requires t < |s.threads| && u < |s.threads| && t != u
    requires s.threads[t].PutStoreNext? ==> Counted(s, g, s.threads[t].n)
    requires ThreadOk(s, u)
    ensures u < |ThreadStep(s, t, mv).s.threads| && ThreadOk(ThreadStep(s, t, mv).s, u)
  {
    SizesStay(s, t, mv);
    var pc := s.threads[u];
    if pc.PutStoreRefs? || pc.PutSwap? || pc.GetSwapHead? {
      if s.threads[t].PutStoreNext? {
        LinkIsFree(s, g, t, u);
      }
      NextStays(s, t, mv, pc.n);
    }
  }

  lemma OwnThread(s: State, t: nat, mv: Move)
    requires t < |s.threads| && ThreadOk(s, t) && Known(s, s.head) && |s.next| == |s.refs|
    requires forall n :: n in s.owned ==> n < |s.refs|
    ensures ThreadOk(ThreadStep(s, t, mv).s, t)
  {
  }

  lemma LinksKnown(s: State, t: nat, mv: Move, m: nat)
    requires t < |s.threads| && ThreadOk(s, t) && m < |s.refs| == |s.next| && Known(s, Next(s, m))
    ensures Known(s, Next(ThreadStep(s, t, mv).s, m))
  {
    if !(s.threads[t].PutStoreNext? && s.threads[t].n == m) {
      NextStays(s, t, mv, m);
    }
  }

  /** Links of listed nodes are as before. */
  ghost predicate SameLinks(s: State, s': State, list: seq<nat>) {
    |s'.refs| == |s.refs| && forall n :: n in list ==> Next(s', n) == Next(s, n)
  }

  lemma ListSame(s: State, s': State, list: seq<nat>)
    requires ListOk(s, list) && SameLinks(s, s', list) && s'.head == s.head
    ensures ListOk(s', list)
  {
    forall i | 0 <= i < |list| ensures LinkOk(s', list, i) { assert LinkOk(s, list, i); }
  }

  lemma ListPushed(s: State, s': State, list: seq<nat>, n: nat)
    requires ListOk(s, list) && SameLinks(s, s', list)
    requires n < |s.refs| && n !in list && Next(s', n) == s.head && s'.head == To(n)
    ensures ListOk(s', [n] + list)
  {
    var list' := [n] + list;
    forall i | 0 <= i < |list'|
      ensures LinkOk(s', list', i)
    {
      if i > 0 {
        assert LinkOk(s, list, i - 1);
      }
    }
  }

  lemma ListPopped(s: State, s': State, list: seq<nat>)
    requires ListOk(s, list) && list != [] && SameLinks(s, s', list) && s'.head == Next(s, list[0])
    ensures ListOk(s', list[1..])
  {
    var list' := list[1..];
    assert LinkOk(s, list, 0);
    forall i | 0 <= i < |list'| ensures LinkOk(s', list', i) { assert LinkOk(s, list, i + 1); }
  }

  lemma LinksKept(s: State, t: nat, mv: Move, list: seq<nat>)
    requires t < |s.threads| && (s.threads[t].PutStoreNext? ==> s.threads[t].n !in list)
    ensures SameLinks(s, ThreadStep(s, t, mv).s, list)
  {
  }

  lemma HeadKept(s: State, t: nat, mv: Move)
    requires t < |s.threads|
    ensures var pc, s' := s.threads[t], ThreadStep(s, t, mv).s;
      && (pc.PutSwap? && s.head == pc.head ==> s'.head == To(pc.n) && Next(s', pc.n) == Next(s, pc.n))
      && (pc.GetSwapHead? && s.head == To(pc.n) ==> s'.head == pc.next)
      && (!(pc.PutSwap? && s.head == pc.head) && !(pc.GetSwapHead? && s.head == To(pc.n)) ==> s'.head == s.head)
  {
  }

  lemma ListKept(s: State, g: Shadow, t: nat, mv: Move)
    requires t < |s.threads| && ThreadOk(s, t) && ListOk(s, g.list)
    requires s.threads[t].PutStoreNext? || s.threads[t].PutSwap? ==> s.threads[t].n !in g.list
    ensures ListOk(ThreadStep(s, t, mv).s, After(s, g, t).list)
  {
    var s', pc := ThreadStep(s, t, mv).s, s.threads[t];
    LinksKept(s, t, mv, g.list);
    HeadKept(s, t, mv);
    assert s.head == ChainFrom(g.list, 0);
    if pc.PutSwap? && s.head == pc.head {
      ListPushed(s, s', g.list, pc.n);
    } else if pc.GetSwapHead? && s.head == To(pc.n) {
      ListPopped(s, s', g.list);
    } else {
      ListSame(s, s', g.list);
    }
  }

  /** Every step of every thread keeps the invariant, the asserted flag test never fails, and
      a node handed out was in nobody's hands. */
  lemma StepKeeps(s: State, g: Shadow, t: nat, mv: Move)
    requires Inv(s, g) && t < |s.threads|
    ensures var r := ThreadStep(s, t, mv);
      && Inv(r.s, After(s, g, t)) && r.ev != Fault
      && (r.ev.Got? ==> r.ev.n < |s.refs| && r.ev.n !in s.owned && r.ev.n in r.s.owned)
  {
    var r := ThreadStep(s, t, mv);
    assert ThreadOk(s, t);
    NodesKept(s, g, t, mv);
    ThreadsKept(s, g, t, mv);
    if s.threads[t].PutStoreNext? || s.threads[t].PutSwap? {
      NotListed(s, g, t);
    }
    ListKept(s, g, t, mv);
    SizesStay(s, t, mv);
    forall m | 0 <= m < |s.refs| ensures Known(s, Next(r.s, m)) { LinksKnown(s, t, mv, m); }
  }

  lemma NodesKept(s: State, g: Shadow, t: nat, mv: Move)
    requires Inv(s, g) && t < |s.threads|
    ensures var r, g' := ThreadStep(s, t, mv), After(s, g, t);
      && |r.s.refs| == |s.refs| && (forall n :: 0 <= n < |s.refs| ==> NodeOk(r.s, g', n))
      && (forall n :: n in r.s.owned || n in g'.parked ==> n < |s.refs|)
      && r.ev != Fault && (r.ev.Got? ==> r.ev.n < |s.refs| && r.ev.n !in s.owned && r.ev.n in r.s.owned)
  {
    var r, g', n := ThreadStep(s, t, mv), After(s, g, t), Focus(s, t, mv);
    assert ThreadOk(s, t);
    StepIsLocal(s, g, t, mv);
    OtherNodes(s, g, r.s, g', t, n);
    if n < |s.refs| {
      assert NodeOk(s, g, n);
      FocusKept(s, g, t, mv);
    }
  }

  lemma ThreadsKept(s: State, g: Shadow, t: nat, mv: Move)
    requires Inv(s, g) && t < |s.threads|
    ensures var s' := ThreadStep(s, t, mv).s;
      |s'.threads| == |s.threads| && forall u :: 0 <= u < |s.threads| ==> ThreadOk(s', u)
  {
    var s' := ThreadStep(s, t, mv).s;
    SizesStay(s, t, mv);
    assert ThreadOk(s, t);
    forall u | 0 <= u < |s.threads|
      ensures ThreadOk(s', u)
    {
      if u == t {
        OwnThread(s, t, mv);
      } else {
        assert ThreadOk(s, u);
        if s.threads[t].PutStoreNext? {
          assert NodeOk(s, g, s.threads[t].n);
        }
        OtherThreads(s, g, t, u, mv);
      }
    }
  }

  lemma NotListed(s: State, g: Shadow, t: nat)
    requires Inv(s, g) && t < |s.threads|
    requires s.threads[t].PutStoreNext? || s.threads[t].PutSwap?
    ensures s.threads[t].n !in g.list
  {
    assert ThreadOk(s, t);
    assert NodeOk(s, g, s.threads[t].n);
    TotalAtLeast(s.threads, t, s.threads[t].n, Claim);
  }

  // ----- whole runs -----

  /** Thread `t` takes a step; if it is idle, `mv` says what it starts. */
  datatype Turn = Turn(t: nat, mv: Move)

  datatype Run = Run(states: seq<State>, events: seq<Event>)

  ghost predicate StepAt(run: Run, turns: seq<Turn>, i: nat)
    requires i < |turns| && |run.states| == |turns| + 1 && |run.events| == |turns|
  {
    && turns[i].t < |run.states[i].threads|
    && ThreadStep(run.states[i], turns[i].t, turns[i].mv) == Step(run.states[i + 1], run.events[i])
  }

  /** A new list: clients own all nodes, whose reference words are zero. */
  ghost predicate Initial(s: State) {
    && s.head == Null && |s.next| == |s.refs| && |s.threads| + 2 < SHOULD_BE_ON_FREELIST
    && (forall n :: 0 <= n < |s.refs| ==> s.refs[n] == 0 && s.next[n] == Null)
    && (forall t :: 0 <= t < |s.threads| ==> s.threads[t] == Idle)
    && (forall n :: n in s.owned <==> 0 <= n < |s.refs|)
  }

  ghost predicate IsRun(run: Run, turns: seq<Turn>) {
    && |run.states| == |turns| + 1 && |run.events| == |turns|
    && Initial(run.states[0])
    && forall i :: 0 <= i < |turns| ==> StepAt(run, turns, i)
  }

  lemma {:induction false} IdleHoldsNothing(threads: seq<Thread>, n: nat, k: Kind)
    requires forall t :: 0 <= t < |threads| ==> threads[t] == Idle
    ensures Total(threads, n, k) == 0
  {
    if threads != [] {
      IdleHoldsNothing(threads[1..], n, k);
    }
  }

  lemma InitialInv(s: State)
    requires Initial(s)
    ensures Inv(s, Shadow([], {}))
  {
    forall n | 0 <= n < |s.refs|
      ensures NodeOk(s, Shadow([], {}), n)
    {
      IdleHoldsNothing(s.threads, n, Unit);
      IdleHoldsNothing(s.threads, n, Claim);
      IdleHoldsNothing(s.threads, n, Flagging);
    }
  }

  lemma {:induction false} ReachedInv(run: Run, turns: seq<Turn>, i: nat) returns (g: Shadow)
    requires IsRun(run, turns) && i <= |turns|
    ensures Inv(run.states[i], g) && |run.states[i].refs| == |run.states[0].refs|
  {
    if i == 0 {
      InitialInv(run.states[0]);
      g := Shadow([], {});
    } else {
      var g0 := ReachedInv(run, turns, i - 1);
      assert StepAt(run, turns, i - 1);
      g := ReachedNext(run.states[i - 1], g0, turns[i - 1], run.states[i]);
    }
  }

  lemma ReachedNext(s: State, g: Shadow, turn: Turn, s': State) returns (g': Shadow)
    requires Inv(s, g) && turn.t < |s.threads| && ThreadStep(s, turn.t, turn.mv).s == s'
    ensures Inv(s', g') && |s'.refs| == |s.refs|
  {
    StepKeeps(s, g, turn.t, turn.mv);
    SizesStay(s, turn.t, turn.mv);
    g' := After(s, g, turn.t);
  }

  /** One step's effect on who owns `n`, and what a step that hands out `n` starts from. */
  lemma OwnershipStep(run: Run, turns: seq<Turn>, i: nat, n: nat)
    requires IsRun(run, turns) && i < |turns|
    ensures run.events[i] != Fault
    ensures n in run.states[i].owned && n !in run.states[i + 1].owned ==> run.events[i] == Adding(n)
    ensures run.events[i] == Got(n)
      ==> n < |run.states[0].refs| && n !in run.states[i].owned && n in run.states[i + 1].owned
  {
    var g := ReachedInv(run, turns, i);
    assert StepAt(run, turns, i);
    StepKeeps(run.states[i], g, turns[i].t, turns[i].mv);
  }

  /** `n` is in nobody's hands at `j`, so somebody added it and nobody has got it since. */
  lemma {:induction false} AddedBefore(run: Run, turns: seq<Turn>, j: nat, n: nat) returns (k: nat)
    requires IsRun(run, turns) && j <= |turns| && n < |run.states[0].refs|
    requires n !in run.states[j].owned
    ensures k < j && run.events[k] == Adding(n)
    ensures forall i :: k < i < j ==> run.events[i] != Got(n)
  {
    if j > 0 {
      OwnershipStep(run, turns, j - 1, n);
      if n in run.states[j - 1].owned {
        k := j - 1;
      } else {
        k := AddedBefore(run, turns, j - 1, n);
      }
    }
  }

  /** In every run of any number of threads, the assertion in `try_get` holds, and every node
      handed out was added after the last time it was handed out: no two takers share it. */
  lemma NoNodeHasTwoTakers(run: Run, turns: seq<Turn>, j: nat)
    requires IsRun(run, turns) && j < |turns|
    ensures run.events[j] != Fault
    ensures run.events[j].Got?
      ==> exists k :: 0 <= k < j && run.events[k] == Adding(run.events[j].n)
                      && forall i :: k < i < j ==> run.events[i] != run.events[j]
  {
    OwnershipStep(run, turns, j, if run.events[j].Got? then run.events[j].n else 0);
    if run.events[j].Got? {
      var k := AddedBefore(run, turns, j, run.events[j].n);
    }
  }

  /** When no operation is under way, every node is either in a client's hands or on the chain
      from `head`, once: none is lost. */
  lemma NothingIsLost(run: Run, turns: seq<Turn>, i: nat) returns (list: seq<nat>)
    requires IsRun(run, turns) && i <= |turns|
    requires forall t :: 0 <= t < |run.states[i].threads| ==> run.states[i].threads[t] == Idle
    ensures ListOk(run.states[i], list)
    ensures forall n :: 0 <= n < |run.states[0].refs| ==> (n in run.states[i].owned <==> n !in list)
    ensures forall n :: 0 <= n < |run.states[0].refs| ==> Refs(run.states[i], n) == One(n in list)
  {
    var s := run.states[i];
    var g := ReachedInv(run, turns, i);
    forall n | 0 <= n < |s.refs|
      ensures (n in s.owned <==> n !in g.list) && Refs(s, n) == One(n in g.list)
    {
      assert NodeOk(s, g, n);
      IdleHoldsNothing(s.threads, n, Unit);
      IdleHoldsNothing(s.threads, n, Claim);
      IdleHoldsNothing(s.threads, n, Flagging);
    }
    list := g.list;
  }

  /** No ABA: the link that a thread read before its head CAS is still the node's link, and
      when the CAS succeeds the new head is what follows the node on the chain. */
  lemma LinkIsCurrent(run: Run, turns: seq<Turn>, i: nat, t: nat) returns (list: seq<nat>)
    requires IsRun(run, turns) && i <= |turns|
    requires t < |run.states[i].threads| && run.states[i].threads[t].GetSwapHead?
    ensures ListOk(run.states[i], list)
    ensures run.states[i].threads[t].next == Next(run.states[i], run.states[i].threads[t].n)
    ensures run.states[i].head == To(run.states[i].threads[t].n)
      ==> |list| > 0 && run.states[i].threads[t].next == ChainFrom(list, 1)
  {
    var s := run.states[i];
    var g := ReachedInv(run, turns, i);
    assert ThreadOk(s, t);
    list := g.list;
    if s.head == To(s.threads[t].n) {
      assert LinkOk(s, list, 0);
    }
  }

  // ----- when `try_get` returns nothing -----

  /** The head that a thread in the loop of `try_get` goes on with. */
  function Carried(pc: Thread): Return {
    match pc
    case GetDropOne(_, head) => ToGet(head)
    case PutLoadHead(_, ret) => ret
    case PutStoreNext(_, _, ret) => ret
    case PutStoreRefs(_, _, ret) => ret
    case PutSwap(_, _, ret) => ret
    case PutBackOff(_, _, ret) => ret
    case _ => ToCaller
  }

  /** A carried head was read from `head` by the failed CAS, or is carried on. */
  lemma CarriedFrom(s: State, t: nat, mv: Move)
    requires t < |s.threads| && t < |ThreadStep(s, t, mv).s.threads| && Carried(ThreadStep(s, t, mv).s.threads[t]).ToGet?
    ensures var carried := Carried(ThreadStep(s, t, mv).s.threads[t]);
      s.threads[t] != Idle && (Carried(s.threads[t]) == carried || s.head == carried.head)
  {
  }

  lemma OthersStay(s: State, t: nat, mv: Move, u: nat)
    requires t < |s.threads| && u < |s.threads| && u != t
    ensures |ThreadStep(s, t, mv).s.threads| == |s.threads| && ThreadStep(s, t, mv).s.threads[u] == s.threads[u]
  {
  }

  /** Thread `t` is inside one call from state `k` to state `i`. */
  ghost predicate Inside(run: Run, t: nat, k: nat, i: nat)
    requires k <= i < |run.states|
  {
    forall j :: k <= j <= i ==> t < |run.states[j].threads| && run.states[j].threads[t] != Idle
  }

  lemma {:induction false} HeadWasRead(run: Run, turns: seq<Turn>, i: nat, t: nat) returns (k: nat)
    requires IsRun(run, turns) && i <= |turns| && t < |run.states[i].threads| && Carried(run.states[i].threads[t]).ToGet?
    ensures k <= i && Inside(run, t, k, i) && run.states[k].head == Carried(run.states[i].threads[t]).head
  {
    if i > 0 {
      assert StepAt(run, turns, i - 1);
      var s, u := run.states[i - 1], turns[i - 1].t;
      SizesStay(s, u, turns[i - 1].mv);
      if u == t {
        CarriedFrom(s, t, turns[i - 1].mv);
      } else {
        OthersStay(s, u, turns[i - 1].mv, t);
      }
      if Carried(s.threads[t]) == Carried(run.states[i].threads[t]) {
        k := HeadWasRead(run, turns, i - 1, t);
      } else {
        k := i - 1;
      }
    }
  }

  lemma NothingFrom(s: State, t: nat, mv: Move)
    requires t < |s.threads| && ThreadStep(s, t, mv).ev == GotNothing
    ensures s.threads[t] != Idle && (Carried(s.threads[t]) == ToGet(Null) || (s.threads[t].GetLoadHead? && s.head == Null))
  {
  }

  /** `try_get` returns null only if the list was empty at some instant of that very call. */
  lemma NothingOnlyIfEmpty(run: Run, turns: seq<Turn>, i: nat) returns (k: nat)
    requires IsRun(run, turns) && i < |turns| && run.events[i] == GotNothing
    ensures k <= i && Inside(run, turns[i].t, k, i) && run.states[k].head == Null && ListOk(run.states[k], [])
  {
    assert StepAt(run, turns, i);
    NothingFrom(run.states[i], turns[i].t, turns[i].mv);
    k := i;
    if Carried(run.states[i].threads[turns[i].t]) == ToGet(Null) {
      k := HeadWasRead(run, turns, i, turns[i].t);
    }
    var g := ReachedInv(run, turns, k);
  }

  // ----- a thread that runs alone -----

  ghost predicate AloneAt(path: seq<State>, t: nat, mv: Move, i: nat)
    requires i + 1 < |path|
  {
    t < |path[i].threads| && ThreadStep(path[i], t, if i == 0 then mv else Go).s == path[i + 1]
  }

  /** The states that a thread goes through from its call on, while no other thread moves. */
  ghost predicate AlonePath(path: seq<State>, t: nat, mv: Move) {
    |path| >= 2 && forall i :: 0 <= i && i + 1 < |path| ==> AloneAt(path, t, mv, i)
  }

  lemma Begins(s: State, t: nat, mv: Move, next: State) returns (path: seq<State>)
    requires t < |s.threads| && ThreadStep(s, t, mv).s == next
    ensures path == [s, next] && AlonePath(path, t, mv)
  {
    path := [s, next];
  }

  lemma Goes(path: seq<State>, t: nat, mv: Move, next: State) returns (path': seq<State>)
    requires AlonePath(path, t, mv) && t < |path[|path| - 1].threads| && ThreadStep(path[|path| - 1], t, Go).s == next
    ensures path' == path + [next] && AlonePath(path', t, mv)
  {
    path' := path + [next];
    forall i | 0 <= i && i + 1 < |path'| ensures AloneAt(path', t, mv, i) {
      assert i + 1 < |path| ==> AloneAt(path, t, mv, i);
    }
  }

  lemma ListedNode(s: State, g: Shadow, n: nat)
    requires Inv(s, g) && n in g.list && n < |s.refs|
    ensures 0 < s.refs[n] && s.refs[n] + 1 < SHOULD_BE_ON_FREELIST
  {
    assert NodeOk(s, g, n);
    UnitsBounded(s.threads, n);
    FlaggersClaim(s.threads, n);
  }

  lemma {:induction false} FlaggersClaim(threads: seq<Thread>, n: nat)
    ensures Total(threads, n, Flagging) <= Total(threads, n, Claim)
  {
    if threads != [] {
      FlaggersClaim(threads[1..], n);
    }
  }

  /** Wherever the other threads are, `try_get` alone takes the first node of a list that is not
      empty, in eight steps, and returns null in two if it is empty. */
  lemma GetAlone(s: State, g: Shadow, t: nat) returns (path: seq<State>)
    requires Inv(s, g) && t < |s.threads| && s.threads[t] == Idle
    ensures AlonePath(path, t, StartGet) && path[0] == s && |path| == if g.list == [] then 2 else 8
    ensures var last := path[|path| - 1];
      && t < |last.threads|
      && ThreadStep(last, t, Go).ev == (if g.list == [] then GotNothing else Got(g.list[0]))
      && (g.list != [] ==> last.head == ChainFrom(g.list, 1))
  {
    if g.list == [] {
      path := Begins(s, t, StartGet, Now(s, t, GetLoadHead));
    } else {
      ListedNode(s, g, g.list[0]);
      assert LinkOk(s, g.list, 0);
      path := TakesHead(s, t, g.list[0]);
    }
  }

  lemma AcquiresHead(s: State, t: nat, n: nat) returns (path: seq<State>)
    requires t < |s.threads| && s.threads[t] == Idle && s.head == To(n) && n < |s.refs|
    requires 0 < s.refs[n] && s.refs[n] + 1 < SHOULD_BE_ON_FREELIST
    ensures AlonePath(path, t, StartGet) && path[0] == s && |path| == 5
    ensures path[4] == Now(SetRefs(s, n, s.refs[n] + 1), t, GetLoadNext(n))
  {
    path := Begins(s, t, StartGet, Now(s, t, GetLoadHead));
    path := Goes(path, t, StartGet, Now(s, t, GetLoadRefs(n)));
    path := Goes(path, t, StartGet, Now(s, t, GetSwapRefs(n, s.refs[n])));
    path := Goes(path, t, StartGet, Now(SetRefs(s, n, s.refs[n] + 1), t, GetLoadNext(n)));
  }

  lemma SwingsHead(before: seq<State>, t: nat, n: nat, s: State) returns (path: seq<State>)
    requires AlonePath(before, t, StartGet) && t < |s.threads| && before[|before| - 1] == Now(s, t, GetLoadNext(n))
    requires s.head == To(n) && n < |s.refs| && s.refs[n] < SHOULD_BE_ON_FREELIST
    ensures AlonePath(path, t, StartGet) && |path| == |before| + 3 && path[0] == before[0]
    ensures path[|path| - 1] == Now(s.(head := Next(s, n)), t, GetDropTwo(n))
  {
    var s1 := s.(head := Next(s, n));
    path := Goes(before, t, StartGet, Now(s, t, GetSwapHead(n, Next(s, n))));
    path := Goes(path, t, StartGet, Now(s1, t, GetAssert(n)));
    path := Goes(path, t, StartGet, Now(s1, t, GetDropTwo(n)));
  }

  lemma TakesHead(s: State, t: nat, n: nat) returns (path: seq<State>)
    requires t < |s.threads| && s.threads[t] == Idle && s.head == To(n) && n < |s.refs|
    requires 0 < s.refs[n] && s.refs[n] + 1 < SHOULD_BE_ON_FREELIST
    ensures AlonePath(path, t, StartGet) && path[0] == s && |path| == 8
    ensures var last := path[7]; t < |last.threads| && ThreadStep(last, t, Go).ev == Got(n) && last.head == Next(s, n)
  {
    path := AcquiresHead(s, t, n);
    path := SwingsHead(path, t, n, SetRefs(s, n, s.refs[n] + 1));
  }

  /** `add` alone puts its node at the front of the list in six steps if nobody holds a
      reference to it, and otherwise leaves that, in two, to the last who does. */
  lemma AddAlone(s: State, g: Shadow, t: nat, n: nat) returns (path: seq<State>)
    requires Inv(s, g) && t < |s.threads| && s.threads[t] == Idle && n in s.owned
    ensures Refs(s, n) == Total(s.threads, n, Unit) && AlonePath(path, t, StartAdd(n)) && path[0] == s
    ensures if Refs(s, n) == 0 then |path| == 7 && PutInFront(s, path[6], t, n) else |path| == 3 && LeftToOthers(s, path[2], t, n)
  {
    assert NodeOk(s, g, n);
    UnitsBounded(s.threads, n);
    FlaggersClaim(s.threads, n);
    if Refs(s, n) == 0 {
      path := AddsNode(s, t, n);
    } else {
      path := AddsLater(s, t, n);
    }
  }

  ghost predicate PutInFront(s: State, s': State, t: nat, n: nat) {
    t < |s'.threads| && s'.threads[t] == Idle && s'.head == To(n) && Next(s', n) == s.head && Refs(s', n) == 1
  }

  ghost predicate LeftToOthers(s: State, s': State, t: nat, n: nat) {
    t < |s'.threads| && s'.threads[t] == Idle && s'.head == s.head && Refs(s', n) == Refs(s, n) + SHOULD_BE_ON_FREELIST
  }

  lemma AddsNode(s: State, t: nat, n: nat) returns (path: seq<State>)
    requires t < |s.threads| && s.threads[t] == Idle && n in s.owned && n < |s.refs| == |s.next| && s.refs[n] == 0
    ensures AlonePath(path, t, StartAdd(n)) && path[0] == s && |path| == 7 && PutInFront(s, path[6], t, n)
  {
    var mv, s0 := StartAdd(n), s.(owned := s.owned - {n});
    var s1 := SetRefs(s0, n, SHOULD_BE_ON_FREELIST);
    var s2 := SetNext(s1, n, s.head);
    var s3 := SetRefs(s2, n, 1);
    path := Begins(s, t, mv, Now(s0, t, AddFlag(n)));
    path := Goes(path, t, mv, Now(s1, t, PutLoadHead(n, ToCaller)));
    path := Goes(path, t, mv, Now(s1, t, PutStoreNext(n, s.head, ToCaller)));
    path := Goes(path, t, mv, Now(s2, t, PutStoreRefs(n, s.head, ToCaller)));
    path := Goes(path, t, mv, Now(s3, t, PutSwap(n, s.head, ToCaller)));
    path := Goes(path, t, mv, Now(s3.(head := To(n)), t, Idle));
  }

  lemma AddsLater(s: State, t: nat, n: nat) returns (path: seq<State>)
    requires t < |s.threads| && s.threads[t] == Idle && n in s.owned && n < |s.refs| && 0 < s.refs[n] < SHOULD_BE_ON_FREELIST
    ensures AlonePath(path, t, StartAdd(n)) && path[0] == s && |path| == 3 && LeftToOthers(s, path[2], t, n)
  {
    var s0 := s.(owned := s.owned - {n});
    path := Begins(s, t, StartAdd(n), Now(s0, t, AddFlag(n)));
    path := Goes(path, t, StartAdd(n), Now(SetRefs(s0, n, s.refs[n] + SHOULD_BE_ON_FREELIST), t, Idle));
  }
}
