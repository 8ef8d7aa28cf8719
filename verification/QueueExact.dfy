/** Exactly when the queue's assertions hold.  A queue constructed for 0 elements has one
    block with a single slot, which can hold nothing; once `enqueue` has allocated a second
    block, the producer comes back to the first one, "fills" it without moving its `tail`,
    and the consumer then advances to a block that looks empty. */
module QueueExact {
  import opened SpscQueue
  import opened SpscRuns
  import opened QueueLayout

  ghost predicate AlwaysSafe<T(!new)>(requested: nat, ceil: nat, maxBlock: nat, mayAlloc: bool)
    requires maxBlock >= 2 && LeastPow2(ceil, requested + 1)
  {
    forall moves: seq<Move<T>> :: SafeRun(Constructed<T>(requested, ceil, maxBlock, mayAlloc), moves)
  }

  ghost predicate SafeRun<T>(q0: Queue<T>, moves: seq<Move<T>>) {
    var events := Exec(q0, moves).events;
    DequeuedOf(events) <= EnqueuedOf(events) && forall i :: 0 <= i < |events| ==> !events[i].Fault?
  }

  lemma Extend<T>(q0: Queue<T>, moves: seq<Move<T>>, mv: Move<T>) returns (moves': seq<Move<T>>)
    ensures moves' == moves + [mv]
    ensures var s := QueueStep(Exec(q0, moves).q, mv);
            Exec(q0, moves') == Trace(s.q, Exec(q0, moves).events + [s.ev])
  {
    moves' := moves + [mv];
    assert moves'[..|moves'| - 1] == moves;
  }

  /** `n` steps of one thread in a row. */
  ghost function Producing<T>(q: Queue<T>, n: nat): Queue<T> {
    if n == 0 then q else ProducerStep(Producing(q, n - 1), Continue(true)).q
  }

  ghost function Consuming<T>(q: Queue<T>, n: nat): Queue<T> {
    if n == 0 then q else ConsumerStep(Consuming(q, n - 1), Proceed).q
  }

  lemma {:induction false} LetProduce<T>(q0: Queue<T>, moves: seq<Move<T>>, n: nat) returns (r: seq<Move<T>>)
    ensures Exec(q0, r).q == Producing(Exec(q0, moves).q, n)
  {
    r := moves;
    if n > 0 {
      r := LetProduce(q0, moves, n - 1);
      r := Extend(q0, r, ByProducer(Continue(true)));
    }
  }

  lemma {:induction false} LetConsume<T>(q0: Queue<T>, moves: seq<Move<T>>, n: nat) returns (r: seq<Move<T>>)
    ensures Exec(q0, r).q == Consuming(Exec(q0, moves).q, n)
  {
    r := moves;
    if n > 0 {
      r := LetConsume(q0, moves, n - 1);
      r := Extend(q0, r, ByConsumer(Proceed));
    }
  }

  ghost function Tiny<T>(next: nat, slot: Slot<T>): Block<T> { Block(1, 0, 0, 0, 0, next, [slot]) }

  ghost function Pair<T>(front: nat, first: Slot<T>): Block<T> { Block(2, front, 1, 1, 0, 0, [first, Raw]) }

  ghost function Small<T>(blocks: seq<Block<T>>, front: nat, tail: nat, largest: nat, maxBlock: nat, c: Consumer<T>): Queue<T> {
    Queue(blocks, front, tail, largest, maxBlock, true, PIdle, c)
  }

  /** The first `enqueue` finds the single slot full and allocates. */
  lemma FirstEnqueue<T>(v: T, maxBlock: nat)
    requires maxBlock >= 2
    ensures var q := Small([Tiny(0, Raw)], 0, 0, 1, maxBlock, CIdle);
            Producing(q.(p := PLoadTailBlock(v, true)), 8) == Small([Tiny(1, Raw), Pair(0, Live(v))], 0, 1, 2, maxBlock, CIdle)
  {
    var q := Small([Tiny(0, Raw)], 0, 0, 1, maxBlock, CIdle);
    var b := q.(p := PLoadTailBlock(v, true));
    assert Producing(b, 1) == q.(p := PLoadTail(v, true, 0, 0));
    assert Producing(b, 2) == q.(p := PLoadFront(v, true, 0, 0));
    assert Producing(b, 3) == q.(p := PLoadNext(v, true, 0, true));
    assert Producing(b, 4) == q.(p := PLoadFrontBlock(v, true, 0, 0, true));
    assert Producing(b, 5) == q.(p := PAlloc(v, 0));
    assert FreshBlock(2, 0, v).data == [Live(v), Raw];
    assert Producing(b, 6) == q.(largest := 2, p := PLink(v, 0, Pair(0, Live(v))));
    assert Producing(b, 7).blocks == [Tiny(1, Raw), Pair(0, Live(v))];
  }

  /** The consumer moves on to the new block, but has not read its element yet. */
  lemma MoveToSecond<T>(v: T, maxBlock: nat)
    ensures var q := Small([Tiny(1, Raw), Pair(0, Live(v))], 0, 1, 2, maxBlock, CLoadFrontBlock(false));
            Consuming(q, 11) == q.(frontBlock := 1, c := CReadSlot(false, 1, 0))
  {
    var q := Small([Tiny(1, Raw), Pair(0, Live(v))], 0, 1, 2, maxBlock, CLoadFrontBlock(false));
    assert Consuming(q, 1) == q.(c := CLoadFront(false, 0, 0));
    assert Consuming(q, 2) == q.(c := CLoadTail(false, 0, 0));
    assert Consuming(q, 3) == q.(c := CLoadTailBlock(false, 0, false));
    assert Consuming(q, 4) == q.(c := CReloadFrontBlock(false));
    assert Consuming(q, 5) == q.(c := CReloadTail(false, 0));
    assert Consuming(q, 6) == q.(c := CReloadFront(false, 0, 0));
    assert Consuming(q, 7) == q.(c := CLoadNext(false, 0));
    assert Consuming(q, 8) == q.(c := CLoadNextFront(false, 1));
    assert Consuming(q, 9) == q.(c := CLoadNextTail(false, 1, 0));
    assert Consuming(q, 10) == q.(c := CStoreFrontBlock(1, 0));
  }

  /** The second `enqueue` finds the two-slot block full and the one-slot block free ... */
  lemma SecondEnqueue<T>(v: T, maxBlock: nat)
    ensures var q := Small([Tiny(1, Raw), Pair(0, Live(v))], 1, 1, 2, maxBlock, CReadSlot(false, 1, 0));
            Producing(q.(p := PLoadTailBlock(v, true)), 5) == q.(p := PLoadNextAgain(v, 1))
  {
    var q := Small([Tiny(1, Raw), Pair(0, Live(v))], 1, 1, 2, maxBlock, CReadSlot(false, 1, 0));
    var b := q.(p := PLoadTailBlock(v, true));
    assert Producing(b, 1) == q.(p := PLoadTail(v, true, 1, 0));
    assert Producing(b, 2) == q.(p := PLoadFront(v, true, 1, 1));
    assert Producing(b, 3) == q.(p := PLoadNext(v, true, 1, false));
    assert Producing(b, 4) == q.(p := PLoadFrontBlock(v, true, 1, 0, false));
  }

  /** ... and "fills" it; its `tail` wraps to where it was. */
  lemma FillTiny<T>(v: T, maxBlock: nat)
    ensures var q := Small([Tiny(1, Raw), Pair(0, Live(v))], 1, 1, 2, maxBlock, CReadSlot(false, 1, 0));
            Producing(q.(p := PLoadNextAgain(v, 1)), 6)
              == Small([Tiny(1, Live(v)), Pair(0, Live(v))], 1, 0, 2, maxBlock, CReadSlot(false, 1, 0))
  {
    var q := Small([Tiny(1, Raw), Pair(0, Live(v))], 1, 1, 2, maxBlock, CReadSlot(false, 1, 0));
    var b := q.(p := PLoadNextAgain(v, 1));
    assert Producing(b, 1) == q.(p := PLoadNextFront(v, 0));
    assert Producing(b, 2) == q.(p := PLoadNextTail(v, 0, 0));
    assert Producing(b, 3) == q.(p := PWriteNextSlot(v, 0, 0));
    assert [Raw][0 := Live(v)] == [Live(v)];
    assert Producing(b, 4).blocks == [Tiny(1, Live(v)), Pair(0, Live(v))];
    assert Producing(b, 5).blocks == [Tiny(1, Live(v)), Pair(0, Live(v))];
  }

  lemma ReadSecond<T>(v: T, maxBlock: nat)
    ensures var q := Small([Tiny(1, Live(v)), Pair(0, Live(v))], 1, 0, 2, maxBlock, CReadSlot(false, 1, 0));
            Consuming(q, 2) == Small([Tiny(1, Live(v)), Pair(1, Destroyed(v))], 1, 0, 2, maxBlock, CIdle)
  {
    var q := Small([Tiny(1, Live(v)), Pair(0, Live(v))], 1, 0, 2, maxBlock, CReadSlot(false, 1, 0));
    assert [Live(v), Raw][0 := Destroyed(v)] == [Destroyed(v), Raw];
    assert Consuming(q, 1).blocks == [Tiny(1, Live(v)), Pair(0, Destroyed(v))];
    assert Consuming(q, 2).blocks == [Tiny(1, Live(v)), Pair(1, Destroyed(v))];
  }

  /** The consumer leaves its empty block for one whose `front` equals its `tail`. */
  lemma AdvanceFails<T>(v: T, maxBlock: nat)
    ensures var q := Small([Tiny(1, Live(v)), Pair(1, Destroyed(v))], 1, 0, 2, maxBlock, CLoadFrontBlock(false));
            ConsumerStep(Consuming(q, 9), Proceed).ev == Fault
  {
    var q := Small([Tiny(1, Live(v)), Pair(1, Destroyed(v))], 1, 0, 2, maxBlock, CLoadFrontBlock(false));
    assert Consuming(q, 1) == q.(c := CLoadFront(false, 1, 1));
    assert Consuming(q, 2) == q.(c := CLoadTail(false, 1, 1));
    assert Consuming(q, 3) == q.(c := CLoadTailBlock(false, 1, false));
    assert Consuming(q, 4) == q.(c := CReloadFrontBlock(false));
    assert Consuming(q, 5) == q.(c := CReloadTail(false, 1));
    assert Consuming(q, 6) == q.(c := CReloadFront(false, 1, 1));
    assert Consuming(q, 7) == q.(c := CLoadNext(false, 1));
    assert Consuming(q, 8) == q.(c := CLoadNextFront(false, 0));
  }

  /** A queue constructed for 0 elements and used with `enqueue` has a run whose assertion fails. */
  lemma ZeroSizedQueueFails<T>(v: T, ceil: nat, maxBlock: nat) returns (moves: seq<Move<T>>)
    requires maxBlock >= 2 && LeastPow2(ceil, 1)
    ensures !SafeRun(Constructed<T>(0, ceil, maxBlock, true), moves)
  {
    assert Pow2(0) == 1;
    var q0 := Constructed<T>(0, ceil, maxBlock, true);
    assert q0.blocks[0].data == [Raw];
    assert q0 == Small([Tiny(0, Raw)], 0, 0, 1, maxBlock, CIdle);
    moves := Extend(q0, [], ByProducer(Begin(v, true)));
    moves := LetProduce(q0, moves, 8);
    FirstEnqueue(v, maxBlock);
    moves := Extend(q0, moves, ByConsumer(Call(false)));
    moves := LetConsume(q0, moves, 11);
    MoveToSecond(v, maxBlock);
    moves := Extend(q0, moves, ByProducer(Begin(v, true)));
    moves := LetProduce(q0, moves, 5);
    SecondEnqueue(v, maxBlock);
    moves := LetProduce(q0, moves, 6);
    FillTiny(v, maxBlock);
    moves := LetConsume(q0, moves, 2);
    ReadSecond(v, maxBlock);
    moves := Extend(q0, moves, ByConsumer(Call(false)));
    moves := LetConsume(q0, moves, 9);
    AdvanceFails(v, maxBlock);
    moves := Extend(q0, moves, ByConsumer(Proceed));
  }

  /** The queue is safe on all runs exactly if it was constructed for at least one element
      or its producer never allocates. */
  lemma SafeExactlyWhen<T(!new)>(v: T, requested: nat, ceil: nat, maxBlock: nat, mayAlloc: bool)
    requires maxBlock >= 2 && LeastPow2(ceil, requested + 1)
    ensures AlwaysSafe<T>(requested, ceil, maxBlock, mayAlloc) <==> requested >= 1 || !mayAlloc
  {
    if requested >= 1 || !mayAlloc {
      forall moves: seq<Move<T>> ensures SafeRun(Constructed<T>(requested, ceil, maxBlock, mayAlloc), moves) {
        QueueIsFifo<T>(requested, ceil, maxBlock, mayAlloc, moves);
      }
    } else {
      var moves := ZeroSizedQueueFails(v, ceil, maxBlock);
    }
  }
}
