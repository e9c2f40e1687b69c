/**
 Queues constructed for a number of elements that does not fit. For 0 elements `ceilToPow2(0 + 1)` is 1:
 the first block has one slot, `(i + 1) & sizeMask` never moves, and an element stored there cannot be
 told from an empty block. For 2^63 elements or more `ceilToPow2(size + 1)` is 0: the first block has no
 slot at all. The runs below show the assertion at line 351 failing and an element being put behind the
 end of its block, so the code is safe exactly for the sizes from 1 to 2^63 - 1.
 */
module BlockRingBadSizes {
  import opened BlockRing
  import opened BlockRingRefinement
  import opened BlockRingCapacity
  import opened PowerOfTwo
  import opened Circular
  import opened Words

  ghost predicate Reaches<T(!new)>(s: State<T>, t: State<T>) {
    exists schedule: seq<Action<T>> :: Exec(s, schedule).0 == t
  }

  /** One more step of a run. */
  lemma Go<T(!new)>(s: State<T>, t: State<T>, a: Action<T>) returns (u: State<T>)
    requires Reaches(s, t) && Safe(t, a)
    ensures u == Step(t, a) && Reaches(s, u)
  {
    u := Step(t, a);
    var schedule :| Exec(s, schedule).0 == t;
    assert (schedule + [a])[..|schedule + [a]| - 1] == schedule;
    assert Exec(s, schedule + [a]).0 == u;
  }

  /** The one-slot block, whatever has been put into it. */
  predicate OneSlot<T(==)>(b: Block<T>, next: int) {
    b.size == 1 && b.front == b.tail == b.localFront == b.localTail == 0 && b.next == next && |b.data| == 1
  }

  predicate TwoSlots<T>(b: Block<T>, front: nat, tail: nat, localFront: nat, localTail: nat) {
    && b.size == 2 && b.front == front && b.tail == tail && b.localFront == localFront && b.localTail == localTail
    && b.next == 0 && |b.data| == 2
  }

  predicate Idle<T(==)>(s: State<T>, front: int, tail: int) {
    && s.p == PIdle && s.c == CIdle && |s.blocks| == 2 && s.frontBlock == front && s.tailBlock == tail
    && OneSlot(s.blocks[0], 1)
  }

  lemma FindFull<T(!new)>(s: State<T>, x: T) returns (t: State<T>)
    requires Init(s, 1, 1)
    ensures Reaches(s, t) && t == s.(p := PAlloc(x, 0), seen := t.seen)
  {
    var a := Produce(x, true, true);
    assert Exec<T>(s, []).0 == s;
    t := Go(s, s, a);
    assert t == s.(p := PLoadTail(x, true, 0));
    t := Go(s, t, a);
    assert t == s.(p := PLoadFront(x, true, 0, 0));
    t := Go(s, t, a);
    assert s.blocks[0].(localFront := 0) == s.blocks[0] && s.blocks[0 := s.blocks[0]] == s.blocks;
    assert t == s.(p := PLoadNext(x, true, 0), seen := t.seen);
    t := Go(s, t, a);
    assert t == s.(p := PCompare(x, true, 0, 0), seen := t.seen);
    t := Go(s, t, a);
  }

  lemma FillNewBlock<T(!new)>(s: State<T>, t0: State<T>, x: T) returns (t: State<T>)
    requires Reaches(s, t0) && Init(s, 1, 1) && t0 == s.(p := PAlloc(x, 0), seen := t0.seen)
    ensures Reaches(s, t) && t.p == PLinkNew(x, 0, 1) && |t.blocks| == 2 && t.blocks[0] == s.blocks[0]
    ensures t.blocks[1] == FreshBlock<T>(2).(data := [Live(x), Raw], tail := 1, localTail := 1, q := [x])
    ensures t.c == CIdle && t.frontBlock == t.tailBlock == 0
  {
    var a := Produce(x, true, true);
    t := Go(s, t0, a);
    assert t.p == PInit(x, 0, 1) && |t.blocks| == 2 && t.blocks[0] == s.blocks[0] && t.blocks[1] == FreshBlock<T>(2);
    t := Go(s, t, a);
    assert t.blocks[1].data == [Live(x), Raw];
  }

  /** The first enqueue finds no room and allocates a block of two slots. */
  lemma FirstEnqueue<T(!new)>(s: State<T>, x: T) returns (t: State<T>)
    requires Init(s, 1, 1)
    ensures Reaches(s, t) && Idle(t, 0, 1)
    ensures t.blocks[0].data[0] == Raw && TwoSlots(t.blocks[1], 0, 1, 0, 1)
    ensures t.blocks[1].data == [Live(x), Raw]
  {
    t := FindFull(s, x);
    t := FillNewBlock(s, t, x);
    var a := Produce(x, true, true);
    t := Go(s, t, a);
    assert t.p == PLinkTail(x, 0, 1) && t.blocks[0] == s.blocks[0] && TwoSlots(t.blocks[1], 0, 1, 0, 1);
    t := Go(s, t, a);
    t := Go(s, t, a);
  }

  /** A dequeue finds the front block f empty, and the tail block another. */
  lemma FindEmpty<T(!new)>(s: State<T>, t0: State<T>, f: nat) returns (t: State<T>)
    requires Reaches(s, t0) && t0.c == CIdle && f < |t0.blocks| && t0.frontBlock == f != t0.tailBlock
    requires t0.blocks[f].front == t0.blocks[f].tail == t0.blocks[f].localTail
    ensures Reaches(s, t) && t == t0.(c := CAgainBlock(Dequeue), saw := t.saw)
  {
    var a: Action<T> := Consume(Dequeue);
    var b := t0.blocks[f];
    assert b.(localTail := b.tail) == b && t0.blocks[f := b] == t0.blocks;
    t := Go(s, t0, a);
    assert t == t0.(c := CLoadFront(Dequeue, f), saw := t.saw);
    t := Go(s, t, a);
    assert t == t0.(c := CLoadTail(Dequeue, f, b.front), saw := t.saw);
    t := Go(s, t, a);
    assert t == t0.(c := CLoadTailBlock(Dequeue, f), saw := t.saw);
    t := Go(s, t, a);
  }

  /** It then goes on to the block n. */
  lemma LeaveFront<T(!new)>(s: State<T>, t0: State<T>, f: nat, n: nat) returns (t: State<T>)
    requires Reaches(s, t0) && t0.c == CIdle && f < |t0.blocks| && n < |t0.blocks|
    requires t0.frontBlock == f != t0.tailBlock && t0.blocks[f].next == n
    requires t0.blocks[f].front == t0.blocks[f].tail == t0.blocks[f].localTail
    ensures Reaches(s, t) && t == t0.(c := CNextTail(Dequeue, n, t0.blocks[n].front), saw := t.saw)
  {
    var a: Action<T> := Consume(Dequeue);
    var b := t0.blocks[f];
    assert b.(localTail := b.tail) == b && t0.blocks[f := b] == t0.blocks;
    t := FindEmpty(s, t0, f);
    t := Go(s, t, a);
    assert t == t0.(c := CAgainTail(Dequeue, f), saw := t.saw);
    t := Go(s, t, a);
    assert t == t0.(c := CAgainFront(Dequeue, f, b.tail), saw := t.saw);
    t := Go(s, t, a);
    assert t == t0.(c := CLoadNext(Dequeue, f), saw := t.saw);
    t := Go(s, t, a);
    assert t == t0.(c := CNextFront(Dequeue, n), saw := t.saw);
    t := Go(s, t, a);
  }

  /** A dequeue that has found its element at place f of block 1 takes it. */
  lemma TakeFromTwo<T(!new)>(s: State<T>, t0: State<T>, f: nat) returns (t: State<T>)
    requires Reaches(s, t0) && |t0.blocks| == 2 && t0.c == CTake(Dequeue, 1, f) && f < 2
    requires t0.blocks[1].size == 2 && |t0.blocks[1].data| == 2 && t0.blocks[1].data[f].Live?
    ensures Reaches(s, t) && |t.blocks| == 2 && t.blocks[0] == t0.blocks[0]
    ensures t == t0.(c := CIdle, saw := t.saw, blocks := t.blocks)
    ensures t.blocks[1] == t0.blocks[1].(data := t0.blocks[1].data[f := Raw], front := 1 - f, q := t.blocks[1].q)
  {
    var a: Action<T> := Consume(Dequeue);
    t := Go(s, t0, a);
    assert t.c == CDestroy(1, f, t0.blocks[1].data[f].value);
    t := Go(s, t, a);
    assert t.blocks[1] == t0.blocks[1].(data := t0.blocks[1].data[f := Raw]);
    t := Go(s, t, a);
  }

  /** The first dequeue leaves the one-slot block behind. */
  lemma FirstDequeue<T(!new)>(s: State<T>, t0: State<T>, x: T) returns (t: State<T>)
    requires Reaches(s, t0) && Idle(t0, 0, 1) && t0.blocks[0].data[0] == Raw
    requires TwoSlots(t0.blocks[1], 0, 1, 0, 1) && t0.blocks[1].data == [Live(x), Raw]
    ensures Reaches(s, t) && Idle(t, 1, 1) && t.blocks[0].data[0] == Raw
    ensures TwoSlots(t.blocks[1], 1, 1, 0, 1) && t.blocks[1].data == [Raw, Raw]
  {
    t := LeaveFront(s, t0, 0, 1);
    var a: Action<T> := Consume(Dequeue);
    t := Go(s, t, a);
    assert t.c == CAdvance(Dequeue, 1, 0) && TwoSlots(t.blocks[1], 0, 1, 0, 1) && t.blocks[0] == t0.blocks[0];
    t := Go(s, t, a);
    assert t.c == CTake(Dequeue, 1, 0) && t.blocks[0] == t0.blocks[0];
    t := TakeFromTwo(s, t, 0);
  }

  /** The second enqueue fills the two-slot block. */
  lemma SecondEnqueue<T(!new)>(s: State<T>, t0: State<T>, x: T) returns (t: State<T>)
    requires Reaches(s, t0) && Idle(t0, 1, 1) && t0.blocks[0].data[0] == Raw
    requires TwoSlots(t0.blocks[1], 1, 1, 0, 1) && t0.blocks[1].data == [Raw, Raw]
    ensures Reaches(s, t) && Idle(t, 1, 1) && t.blocks[0].data[0] == Raw
    ensures TwoSlots(t.blocks[1], 1, 0, 1, 1) && t.blocks[1].data == [Raw, Live(x)]
  {
    var a := Produce(x, false, true);
    t := Go(s, t0, a);
    t := Go(s, t, a);
    t := Go(s, t, a);
    assert t.p == PConstruct(x, 1, 1);
    t := Go(s, t, a);
    t := Go(s, t, a);
  }

  lemma FindSpare<T(!new)>(s: State<T>, t0: State<T>, x: T) returns (t: State<T>)
    requires Reaches(s, t0) && Idle(t0, 1, 1) && TwoSlots(t0.blocks[1], 1, 0, 1, 1)
    ensures Reaches(s, t) && t == t0.(p := PReuseFront(x, 0), seen := t.seen)
  {
    var a := Produce(x, false, true);
    var b := t0.blocks[1];
    assert b.(localFront := b.front) == b && t0.blocks[1 := b] == t0.blocks;
    t := Go(s, t0, a);
    assert t == t0.(p := PLoadTail(x, false, 1));
    t := Go(s, t, a);
    assert t == t0.(p := PLoadFront(x, false, 1, 0));
    t := Go(s, t, a);
    assert t == t0.(p := PLoadNext(x, false, 1), seen := t.seen);
    t := Go(s, t, a);
    assert t == t0.(p := PCompare(x, false, 1, 0), seen := t.seen);
    t := Go(s, t, a);
    assert t == t0.(p := PReuse(x, 1), seen := t.seen);
    t := Go(s, t, a);
  }

  /** The third enqueue takes the one-slot block for a free one; the element it stores there is not to be seen. */
  lemma ThirdEnqueue<T(!new)>(s: State<T>, t0: State<T>, x: T) returns (t: State<T>)
    requires Reaches(s, t0) && Idle(t0, 1, 1) && t0.blocks[0].data[0] == Raw
    requires TwoSlots(t0.blocks[1], 1, 0, 1, 1) && t0.blocks[1].data == [Raw, Live(x)]
    ensures Reaches(s, t) && Idle(t, 1, 0)
    ensures TwoSlots(t.blocks[1], 1, 0, 1, 1) && t.blocks[1].data == [Raw, Live(x)]
  {
    t := FindSpare(s, t0, x);
    var a := Produce(x, false, true);
    t := Go(s, t, a);
    assert t.p == PReuseTail(x, 0, 0) && OneSlot(t.blocks[0], 1) && t.blocks[0].data[0] == Raw && t.blocks[1].data == t0.blocks[1].data;
    t := Go(s, t, a);
    assert t.p == PReuseConstruct(x, 0, 0) && OneSlot(t.blocks[0], 1) && t.blocks[0].data[0] == Raw && t.blocks[1].data == t0.blocks[1].data;
    t := Go(s, t, a);
    assert t.p == PReuseStore(x, 0, 0) && OneSlot(t.blocks[0], 1);
    t := Go(s, t, a);
    assert t.p == PPublish(x, 0) && OneSlot(t.blocks[0], 1);
    t := Go(s, t, a);
  }

  /** The second dequeue empties the two-slot block. */
  lemma SecondDequeue<T(!new)>(s: State<T>, t0: State<T>, x: T) returns (t: State<T>)
    requires Reaches(s, t0) && Idle(t0, 1, 0)
    requires TwoSlots(t0.blocks[1], 1, 0, 1, 1) && t0.blocks[1].data == [Raw, Live(x)]
    ensures Reaches(s, t) && Idle(t, 1, 0) && TwoSlots(t.blocks[1], 0, 0, 1, 0)
  {
    var a: Action<T> := Consume(Dequeue);
    t := Go(s, t0, a);
    t := Go(s, t, a);
    t := Go(s, t, a);
    assert t.c == CTake(Dequeue, 1, 1) && TwoSlots(t.blocks[1], 1, 0, 1, 0);
    t := TakeFromTwo(s, t, 1);
  }

  /** The third dequeue moves on to the one-slot block and finds its front equal to its tail. */
  lemma ThirdDequeue<T(!new)>(s: State<T>, t0: State<T>) returns (t: State<T>)
    requires Reaches(s, t0) && Idle(t0, 1, 0) && TwoSlots(t0.blocks[1], 0, 0, 1, 0)
    ensures Reaches(s, t) && !Safe(t, Consume(Dequeue))
  {
    t := LeaveFront(s, t0, 1, 0);
  }

  /** Three enqueues and three dequeues of a queue constructed for no elements reach a failing assertion. */
  lemma SizeZeroFails<T(!new)>(s: State<T>, x: T) returns (t: State<T>)
    requires Constructed(s, 0) && MaxOk(s.max)
    ensures Reaches(s, t) && !Safe(t, Consume(Dequeue))
  {
    ConstructorSuffices(0, s.max);
    t := FirstEnqueue(s, x);
    t := FirstDequeue(s, t, x);
    t := SecondEnqueue(s, t, x);
    t := ThirdEnqueue(s, t, x);
    t := SecondDequeue(s, t, x);
    t := ThirdDequeue(s, t);
  }

  /** `& sizeMask` in a block of no slots: the masked next tail differs from the front, so there seems to be room. */
  lemma NoSlotSeemsFree<T>(b: Block<T>)
    requires b.size == 0 && b.tail == 0 && b.localFront == 0 && |b.data| == 0
    ensures And(Add64(b.tail, 1), Sub64(b.size, 1)) == 1 != b.localFront
    ensures b.tail >= |b.data|
  {
    Pow2At64();
    MaskIsMod(1, 64);
  }

  /** The first enqueue into a queue constructed for 2^63 elements or more has no slot to put its element in, and does not notice. */
  lemma TooLargeFails<T(!new)>(s: State<T>, size: nat, x: T) returns (t: State<T>)
    requires Constructed(s, size) && MaxOk(s.max) && size + 1 > TopBit
    ensures Reaches(s, t) && t.p == PLoadTail(x, true, 0) && |t.blocks| == 1
    ensures var b := t.blocks[0];
            b.size == b.tail == |b.data| == 0 && And(Add64(b.tail, 1), Sub64(b.size, 1)) != b.localFront
    ensures !Safe(t, Produce(x, true, true))
  {
    ConstructorSuffices(size, s.max);
    assert Exec<T>(s, []).0 == s;
    t := Go(s, s, Produce(x, true, true));
    NoSlotSeemsFree(t.blocks[0]);
  }

  /** What a caller must ask for: every step of every run is safe exactly when the queue is constructed for 1 to 2^63 - 1 elements. */
  lemma SafeExactlyWhen<T(!new)>(s: State<T>, size: nat, x: T)
    requires Constructed(s, size) && MaxOk(s.max)
    ensures (forall schedule: seq<Action<T>>, a: Action<T> :: Safe(Exec(s, schedule).0, a))
            <==> 1 <= size && size + 1 <= TopBit
  {
    ConstructorSuffices(size, s.max);
    if Fits(size) {
      forall schedule: seq<Action<T>>, a: Action<T>
        ensures Safe(Exec(s, schedule).0, a)
      {
        RunNeverUnsafe(s, InitialCount(size, s.max), InitialSize(size, s.max), schedule, a);
      }
    } else {
      var schedule, a := BadSizeFails(s, size, x);
    }
  }

  lemma BadSizeFails<T(!new)>(s: State<T>, size: nat, x: T) returns (schedule: seq<Action<T>>, a: Action<T>)
    requires Constructed(s, size) && MaxOk(s.max) && !Fits(size)
    ensures !Safe(Exec(s, schedule).0, a)
  {
    if size == 0 {
      var t := SizeZeroFails(s, x);
      a := Consume(Dequeue);
      schedule :| Exec(s, schedule).0 == t;
    } else {
      var t := TooLargeFails(s, size, x);
      a := Produce(x, true, true);
      schedule :| Exec(s, schedule).0 == t;
    }
  }
}
