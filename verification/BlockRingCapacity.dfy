/**
 Block sizes and the capacity guarantee: a queue constructed for `size` elements refuses an element
 without allocating only when it holds at least `size`, whatever the two threads did before.
 */
module BlockRingCapacity {
  import opened BlockRing
  import opened BlockRingInvariant
  import opened BlockRingSteps
  import opened BlockRingRefinement
  import opened PowerOfTwo
  import Fifo
  import opened Words
  import Circular

  /** `ceilToPow2(size + 1)` of the constructor, in 64 bits. */
  function Asked(size: nat): nat
    requires size < W
  {
    Ceil64(Add64(size, 1))
  }

  /** Whether the constructor reserves several blocks of MAX_BLOCK_SIZE instead of one. */
  predicate ManyBlocks(size: nat, max: nat)
    requires size < W
  {
    Asked(size) > max * 2
  }

  /** `initialBlockCount` of the constructor. */
  function InitialCount(size: nat, max: nat): nat
    requires size < W && max >= 2
  {
    if ManyBlocks(size, max) then (size + max * 2 - 3) / (max - 1) else 1
  }

  /** `largestBlockSize` as the constructor leaves it. */
  function InitialSize(size: nat, max: nat): nat
    requires size < W
  {
    if ManyBlocks(size, max) then max else Asked(size)
  }

  /** MAX_BLOCK_SIZE, as the constructor asserts it, and such that twice its value is still a word. */
  ghost predicate MaxOk(max: nat) {
    IsPow2(max) && 2 <= max && 2 * max < W
  }

  /** The queue as constructed for `size` elements. */
  predicate Constructed<T(==)>(s: State<T>, size: nat) {
    size < W && s.max >= 2 && Init(s, InitialCount(size, s.max), InitialSize(size, s.max))
  }

  /** The numbers of elements for which the first block has at least two slots. */
  predicate Fits(size: nat) {
    1 <= size && size + 1 <= TopBit
  }

  /** Every block size is a power of two between `least` and twice MAX_BLOCK_SIZE; at least `count` blocks are linked. */
  ghost predicate Sized<T>(s: State<T>, least: nat, count: nat) {
    && IsPow2(s.max) && IsPow2(s.largest) && least <= s.largest <= 2 * s.max
    && (forall i | 0 <= i < |s.blocks| :: IsPow2(s.blocks[i].size) && least <= s.blocks[i].size <= 2 * s.max)
    && |s.ring| >= count
  }

  /** `count` blocks of at least `least` slots can always give `size` elements a place. */
  predicate Suffices(least: nat, count: nat, size: nat) {
    least >= 1 && ((count == 1 && least - 1 >= size) || (count >= 2 && (count - 1) * (least - 1) >= size))
  }

  lemma MulGrows(a: nat, b: nat, c: nat)
    requires a <= b
    ensures a * c <= b * c
  {
  }

  /** More blocks do no harm. */
  lemma SufficesMore(least: nat, count: nat, size: nat, n: nat)
    requires Suffices(least, count, size) && n >= count && n >= 2
    ensures (n - 1) * (least - 1) >= size
  {
    MulGrows(if count >= 2 then count - 1 else 1, n - 1, least - 1);
  }

  /** The arithmetic of lines 118-123: n = (size + 2M - 3) / (M - 1) is the least number of blocks with (n - 1)(M - 1) >= size. */
  lemma ReservedBlocks(size: nat, max: nat)
    requires max >= 2 && size + 1 > 2 * max
    ensures var n := (size + max * 2 - 3) / (max - 1); n >= 3 && (n - 2) * (max - 1) < size <= (n - 1) * (max - 1)
  {
    var d := max - 1;
    var x := size + max * 2 - 3;
    var n, r := x / d, x % d;
    assert x == n * d + r && r < d;
    assert (n - 1) * d == n * d - d && (n - 2) * d == n * d - 2 * d;
    if n < 3 {
      MulGrows(n, 2, d);
    }
  }

  /** Only more than 2 * MAX_BLOCK_SIZE - 1 elements lead to several blocks. */
  lemma ManyBlocksMeansMany(size: nat, max: nat)
    requires size < W && MaxOk(max) && ManyBlocks(size, max)
    ensures 2 * max < size + 1 <= TopBit && size + max * 2 - 3 < W
  {
    var h := LeastPow2IsLeast(size + 1);
    var m: nat :| max == Pow2(m);
    assert 2 * max == Pow2(m + 1);
    if h <= m + 1 {
      Pow2Monotone(h, m + 1);
      assert false;
    }
    Pow2Monotone(m + 1, h - 1);
  }

  /**
   For the sizes that fit, the constructor reserves enough, in blocks whose size is a power of two, and no
   more than it must: neither one block fewer nor one block of half the size would do. For no other sizes
   do the blocks have two slots.
   */
  lemma ConstructorSuffices(size: nat, max: nat)
    requires size < W && MaxOk(max)
    ensures InitialCount(size, max) >= 1
    ensures InitialSize(size, max) >= 2 <==> Fits(size)
    ensures Fits(size) ==> Suffices(InitialSize(size, max), InitialCount(size, max), size)
    ensures Fits(size) ==> IsPow2(InitialSize(size, max)) && InitialSize(size, max) <= 2 * max
    ensures Fits(size) && InitialCount(size, max) > 1 ==> !Suffices(InitialSize(size, max), InitialCount(size, max) - 1, size)
    ensures Fits(size) && InitialCount(size, max) == 1 ==> !Suffices(InitialSize(size, max) / 2, 1, size)
    ensures size + 1 > TopBit ==> InitialSize(size, max) == 0 && InitialCount(size, max) == 1
    ensures size == 0 ==> InitialSize(size, max) == 1 && InitialCount(size, max) == 1
  {
    if ManyBlocks(size, max) {
      ManyBlocksMeansMany(size, max);
      ReservedBlocks(size, max);
    } else if size + 1 <= TopBit {
      var h := LeastPow2IsLeast(size + 1);
    }
  }

  lemma ConstructedSized<T>(s: State<T>, size: nat)
    requires Constructed(s, size) && MaxOk(s.max) && Fits(size)
    ensures Sized(s, InitialSize(size, s.max), InitialCount(size, s.max))
  {
    ConstructorSuffices(size, s.max);
  }

  /** Growing doubles up to MAX_BLOCK_SIZE and then keeps the size. */
  lemma GrownIsSized(largest: nat, max: nat)
    requires IsPow2(largest) && largest <= 2 * max
    ensures IsPow2(GrownSize(largest, max)) && largest <= GrownSize(largest, max) <= 2 * max
  {
    var k: nat :| largest == Pow2(k);
    assert Pow2(k + 1) == largest * 2;
  }

  /** The size of the nth block allocated after the constructor's, which are of size `first`: doubled each time up to MAX_BLOCK_SIZE. */
  function SizeAfter(first: nat, max: nat, n: nat): nat {
    if first >= max then first
    else if first * Pow2(n) <= max then first * Pow2(n)
    else max
  }

  /** Where doubling passes the power of two `max`, it meets it. */
  lemma DoublingMeets(x: nat, max: nat)
    requires IsPow2(x) && IsPow2(max) && x < max
    ensures 2 * x <= max
  {
    var i: nat :| x == Pow2(i);
    var j: nat :| max == Pow2(j);
    if j <= i {
      Pow2Monotone(j, i);
    } else {
      Pow2Monotone(i + 1, j);
    }
  }

  lemma ShiftedPow2(first: nat, n: nat)
    requires IsPow2(first)
    ensures IsPow2(first * Pow2(n))
  {
    var k: nat :| first == Pow2(k);
    Pow2Add(k, n);
  }

  lemma SizeAfterNext(first: nat, max: nat, n: nat)
    requires IsPow2(first) && IsPow2(max)
    ensures SizeAfter(first, max, n + 1) == GrownSize(SizeAfter(first, max, n), max)
    ensures SizeAfter(first, max, 0) == first
  {
    var x := first * Pow2(n);
    assert first * Pow2(n + 1) == 2 * x;
    assert first * Pow2(0) == first;
    ShiftedPow2(first, n);
    if first < max && x < max {
      DoublingMeets(x, max);
    }
  }

  /** t has the blocks of s at their old sizes, and possibly one new block of the grown size; no block was unlinked. */
  predicate SizesKept<T>(s: State<T>, t: State<T>) {
    && t.max == s.max && |t.ring| >= |s.ring| && |s.blocks| <= |t.blocks| <= |s.blocks| + 1
    && (forall i | 0 <= i < |s.blocks| :: t.blocks[i].size == s.blocks[i].size)
    && t.largest == (if |t.blocks| == |s.blocks| then s.largest else GrownSize(s.largest, s.max))
    && (forall i | |s.blocks| <= i < |t.blocks| :: t.blocks[i].size == t.largest)
  }

  lemma PutSizes<T>(s: State<T>, t: State<T>, b: int, x: Block<T>)
    requires Valid(s, b) && x.size == s.blocks[b].size && t.blocks == s.blocks[b := x]
    requires t.max == s.max && t.largest == s.largest && |t.ring| >= |s.ring|
    ensures SizesKept(s, t)
  {
  }

  lemma TailSizes<T>(s: State<T>, v: T, alloc: bool, memory: bool)
    requires ProducerSafe(s) && (s.p.PLoadFront? || s.p.PConstruct? || s.p.PStoreTail?)
    ensures SizesKept(s, ProducerStep(s, v, alloc, memory))
  {
    var t := ProducerStep(s, v, alloc, memory);
    PutSizes(s, t, s.p.tb, t.blocks[s.p.tb]);
  }

  lemma SpareSizes<T>(s: State<T>, v: T, alloc: bool, memory: bool)
    requires ProducerSafe(s) && (s.p.PReuseFront? || s.p.PReuseTail? || s.p.PReuseConstruct? || s.p.PReuseStore?)
    ensures SizesKept(s, ProducerStep(s, v, alloc, memory))
  {
    var t := ProducerStep(s, v, alloc, memory);
    PutSizes(s, t, s.p.nb, t.blocks[s.p.nb]);
  }

  lemma NewSizes<T>(s: State<T>, v: T, alloc: bool, memory: bool)
    requires ProducerSafe(s) && (s.p.PAlloc? || s.p.PInit? || s.p.PLinkNew? || s.p.PLinkTail?)
    ensures SizesKept(s, ProducerStep(s, v, alloc, memory))
  {
    var t := ProducerStep(s, v, alloc, memory);
    match s.p
    case PInit(_, _, nb) => PutSizes(s, t, nb, t.blocks[nb]);
    case PLinkNew(_, _, nb) => PutSizes(s, t, nb, t.blocks[nb]);
    case PLinkTail(_, tb, _) => PutSizes(s, t, tb, t.blocks[tb]);
    case PAlloc(_, _) => assert forall i | 0 <= i < |s.blocks| :: t.blocks[i] == s.blocks[i];
  }

  lemma ProducerSizes<T>(s: State<T>, v: T, alloc: bool, memory: bool)
    requires ProducerSafe(s)
    ensures SizesKept(s, ProducerStep(s, v, alloc, memory))
  {
    if s.p.PLoadFront? || s.p.PConstruct? || s.p.PStoreTail? {
      TailSizes(s, v, alloc, memory);
    } else if s.p.PReuseFront? || s.p.PReuseTail? || s.p.PReuseConstruct? || s.p.PReuseStore? {
      SpareSizes(s, v, alloc, memory);
    } else if s.p.PAlloc? || s.p.PInit? || s.p.PLinkNew? || s.p.PLinkTail? {
      NewSizes(s, v, alloc, memory);
    }
  }

  lemma ConsumerSizes<T>(s: State<T>, op: Op)
    requires ConsumerSafe(s)
    ensures SizesKept(s, ConsumerStep(s, op))
  {
    var t := ConsumerStep(s, op);
    match s.c
    case CLoadTail(_, fb, _) => PutSizes(s, t, fb, t.blocks[fb]);
    case CAgainTail(_, fb) => PutSizes(s, t, fb, t.blocks[fb]);
    case CNextTail(_, nb, _) => PutSizes(s, t, nb, t.blocks[nb]);
    case CTake(_, b, _) => PutSizes(s, t, b, t.blocks[b]);
    case CDestroy(b, _, _) => PutSizes(s, t, b, t.blocks[b]);
    case CStoreFront(b, _, _) => PutSizes(s, t, b, t.blocks[b]);
    case _ =>
  }

  /** A step changes no block's size; an allocation adds one block of the grown size; no block is ever unlinked. */
  lemma StepSizes<T>(s: State<T>, a: Action<T>)
    requires Safe(s, a)
    ensures SizesKept(s, Step(s, a))
  {
    match a
    case Produce(v, alloc, memory) => ProducerSizes(s, v, alloc, memory);
    case Consume(op) => ConsumerSizes(s, op);
  }

  lemma StepSized<T>(s: State<T>, a: Action<T>, least: nat, count: nat)
    requires Safe(s, a) && Sized(s, least, count)
    ensures Sized(Step(s, a), least, count)
  {
    StepSizes(s, a);
    GrownIsSized(s.largest, s.max);
  }

  // ---------------------------------------------------------------- how much a full ring holds

  lemma {:induction false} ContentsLong<T>(blocks: seq<Block<T>>, ids: seq<nat>, each: nat)
    requires forall i | 0 <= i < |ids| :: ids[i] < |blocks| && |blocks[ids[i]].q| >= each
    ensures |Contents(blocks, ids)| >= |ids| * each
  {
    if ids == [] {
    } else {
      assert ids[0] < |blocks|;
      forall i | 0 <= i < |ids[1..]|
        ensures ids[1..][i] < |blocks| && |blocks[ids[1..][i]].q| >= each
      {
        assert ids[1..][i] == ids[i + 1];
      }
      ContentsLong(blocks, ids[1..], each);
      assert |ids| * each == |ids[1..]| * each + each;
    }
  }

  /** When the block after the tail block is the front block and the tail block is full, all blocks but the front one are. */
  lemma RingFull<T>(s: State<T>, least: nat, count: nat)
    requires Inv(s) && Sized(s, least, count) && least >= 1
    requires s.t > 0 && s.t + 1 == |s.ring| && TailFull(s) && !s.p.PPublish?
    ensures |Q(s)| >= (|s.ring| - 1) * (least - 1)
  {
    assert Filled(s.blocks, s.ring, s.t, false);
    FullContents(s.blocks, s.ring, s.t, least);
  }

  lemma FullContents<T>(blocks: seq<Block<T>>, ring: seq<nat>, t: nat, least: nat)
    requires forall i | 0 <= i < |ring| :: ring[i] < |blocks|
    requires forall i | 0 <= i < |blocks| :: blocks[i].size >= least
    requires 0 < t < |ring| && least >= 1 && Filled(blocks, ring, t, false) && Full(blocks[ring[t]])
    ensures |Contents(blocks, ring[..t + 1])| >= t * (least - 1)
  {
    FullBlocks(blocks, ring, t, least);
    ContentsLong(blocks, ring[1..t + 1], least - 1);
    AtFront(blocks, ring, t);
  }

  lemma FullBlocks<T>(blocks: seq<Block<T>>, ring: seq<nat>, t: nat, least: nat)
    requires forall i | 0 <= i < |ring| :: ring[i] < |blocks|
    requires forall i | 0 <= i < |blocks| :: blocks[i].size >= least
    requires 0 < t < |ring| && least >= 1 && Filled(blocks, ring, t, false) && Full(blocks[ring[t]])
    ensures var ids := ring[1..t + 1];
            forall i | 0 <= i < |ids| :: ids[i] < |blocks| && |blocks[ids[i]].q| >= least - 1
  {
    var ids := ring[1..t + 1];
    forall i | 0 <= i < |ids|
      ensures ids[i] < |blocks| && |blocks[ids[i]].q| >= least - 1
    {
      assert ids[i] == ring[i + 1];
    }
  }

  /** There is no spare block ahead of a full tail block only if the queue is full, or was when its tail block was found full. */
  lemma NoSpareOnlyWhenFull<T>(s: State<T>, least: nat, count: nat, size: nat)
    requires Inv(s) && Sized(s, least, count) && Suffices(least, count, size)
    requires s.p.PCompare? && s.p.nx == s.frontBlock
    ensures |s.ring| == 1 ==> s.seen >= size
    ensures |s.ring| > 1 ==> |Q(s)| >= size
  {
    assert s.p.nx == s.ring[0];
    if |s.ring| == 1 {
      assert count == 1;
    } else {
      assert s.t + 1 == |s.ring|;
      RingFull(s, least, count);
      SufficesMore(least, count, size, |s.ring|);
    }
  }

  /**
   The capacity guarantee at the deciding step: with one block, the queue held `size` elements when
   this call found the block full; with more, it holds `size` elements now.
   */
  lemma RefusedOnlyWhenFull<T>(s: State<T>, v: T, memory: bool, least: nat, count: nat, size: nat)
    requires Inv(s) && Sized(s, least, count) && Suffices(least, count, size)
    requires s.p.PCompare? && ProducerEvent(s, memory).EnqFalse?
    ensures |s.ring| == 1 ==> s.seen >= size
    ensures |s.ring| > 1 ==> |Q(s)| >= size
  {
    NoSpareOnlyWhenFull(s, least, count, size);
  }

  // ---------------------------------------------------------------- whole runs

  lemma {:induction false} RunSized<T>(s: State<T>, size: nat, schedule: seq<Action<T>>)
    requires Constructed(s, size) && MaxOk(s.max) && Fits(size)
    ensures Inv(Exec(s, schedule).0)
    ensures Sized(Exec(s, schedule).0, InitialSize(size, s.max), InitialCount(size, s.max))
  {
    ConstructorSuffices(size, s.max);
    RunRefines(s, InitialCount(size, s.max), InitialSize(size, s.max), schedule);
    if schedule == [] {
      ConstructedSized(s, size);
    } else {
      var before := schedule[..|schedule| - 1];
      RunSized(s, size, before);
      var r := Exec(s, before);
      var a := schedule[|schedule| - 1];
      if Safe(r.0, a) {
        StepSized(r.0, a, InitialSize(size, s.max), InitialCount(size, s.max));
      }
    }
  }

  /** The enqueue in flight at the end of the schedule was already in flight after its first i steps. */
  ghost predicate SameEnqueue<T>(s: State<T>, schedule: seq<Action<T>>, i: nat) {
    i <= |schedule| && forall j | i <= j <= |schedule| :: !Exec(s, schedule[..j]).0.p.PIdle?
  }

  lemma SameEnqueueLater<T>(s: State<T>, schedule: seq<Action<T>>, k: nat, i: nat)
    requires k <= |schedule| && SameEnqueue(s, schedule[..k], i)
    requires forall j | k <= j <= |schedule| :: !Exec(s, schedule[..j]).0.p.PIdle?
    ensures SameEnqueue(s, schedule, i) && schedule[..k][..i] == schedule[..i]
  {
    forall j | i <= j <= |schedule|
      ensures !Exec(s, schedule[..j]).0.p.PIdle?
    {
      if j <= k {
        assert schedule[..k][..j] == schedule[..j];
      }
    }
  }

  /** One step earlier. */
  lemma SameEnqueueStep<T>(s: State<T>, schedule: seq<Action<T>>, i: nat)
    requires schedule != [] && SameEnqueue(s, schedule[..|schedule| - 1], i) && !Exec(s, schedule).0.p.PIdle?
    ensures SameEnqueue(s, schedule, i) && schedule[..|schedule| - 1][..i] == schedule[..i]
  {
    var k := |schedule| - 1;
    assert schedule[..k][..k] == schedule[..k] && schedule[..k + 1] == schedule;
    assert !Exec(s, schedule[..k][..k]).0.p.PIdle?;
    SameEnqueueLater(s, schedule, k, i);
  }

  /** `seen` is the length of the queue at the load of `front` by which this very call found its block full. */
  lemma {:induction false} RunSeen<T>(s: State<T>, schedule: seq<Action<T>>) returns (i: nat)
    requires s.p.PIdle? && (Exec(s, schedule).0.p.PLoadNext? || Exec(s, schedule).0.p.PCompare?)
    ensures SameEnqueue(s, schedule, i)
    ensures var once := Exec(s, schedule[..i]).0; once.p.PLoadFront? && |Q(once)| == Exec(s, schedule).0.seen
  {
    var before, a := schedule[..|schedule| - 1], schedule[|schedule| - 1];
    var was := Exec(s, before).0;
    assert schedule[..|schedule|] == schedule;
    if was.p.PLoadFront? {
      i := |before|;
    } else {
      if Safe(was, a) {
        SeenStays(was, a);
      }
      i := RunSeen(s, before);
      SameEnqueueStep(s, schedule, i);
    }
  }

  /** A producer that has found its block full stays so until it has looked at the next one. */
  lemma SeenStays<T>(s: State<T>, a: Action<T>)
    requires !s.p.PLoadFront? && Safe(s, a)
    ensures var t := Step(s, a);
            t.p.PLoadNext? || t.p.PCompare? ==> (s.p.PLoadNext? || s.p.PCompare?) && t.seen == s.seen
  {
  }

  lemma SoughtBefore<T>(s: State<T>, a: Action<T>)
    requires Safe(s, a) && Step(s, a).p.PAlloc?
    ensures s.p.PAlloc? || (s.p.PCompare? && s.p.nx == s.frontBlock)
  {
  }

  /** Before it allocates, the producer has found the next block to be the front block. */
  lemma {:induction false} RunSought<T>(s: State<T>, schedule: seq<Action<T>>) returns (i: nat)
    requires s.p.PIdle? && Exec(s, schedule).0.p.PAlloc?
    ensures SameEnqueue(s, schedule, i)
    ensures var once := Exec(s, schedule[..i]).0; once.p.PCompare? && once.p.nx == once.frontBlock
  {
    var before, a := schedule[..|schedule| - 1], schedule[|schedule| - 1];
    var was := Exec(s, before).0;
    assert schedule[..|schedule|] == schedule;
    if Safe(was, a) {
      SoughtBefore(was, a);
    }
    if was.p.PCompare? {
      i := |before|;
    } else {
      i := RunSought(s, before);
      SameEnqueueStep(s, schedule, i);
    }
  }

  /** Where the next block is the front block, the queue was full at one of the two loads of this call that decide it. */
  lemma RunNoSpare<T>(s: State<T>, size: nat, schedule: seq<Action<T>>) returns (i: nat)
    requires Constructed(s, size) && MaxOk(s.max) && Fits(size)
    requires var end := Exec(s, schedule).0; end.p.PCompare? && end.p.nx == end.frontBlock
    ensures SameEnqueue(s, schedule, i) && |Q(Exec(s, schedule[..i]).0)| >= size
  {
    var end := Exec(s, schedule).0;
    assert schedule[..|schedule|] == schedule;
    RunSized(s, size, schedule);
    ConstructorSuffices(size, s.max);
    NoSpareOnlyWhenFull(end, InitialSize(size, s.max), InitialCount(size, s.max), size);
    if |Q(end)| >= size {
      i := |schedule|;
    } else {
      i := RunSeen(s, schedule);
    }
  }

  /**
   In every run of a queue constructed for `size` elements, from 1 to 2^63 - 1, an enqueue returns false, with
   or without leave to allocate, or goes on to allocate a block, only if the queue held at least `size`
   elements at some instant of that very call.
   */
  lemma RunCapacity<T>(s: State<T>, size: nat, schedule: seq<Action<T>>, memory: bool) returns (i: nat)
    requires Constructed(s, size) && MaxOk(s.max) && Fits(size)
    requires var end := Exec(s, schedule).0;
             end.p.PAlloc? || (ProducerSafe(end) && ProducerEvent(end, memory).EnqFalse?)
    ensures SameEnqueue(s, schedule, i) && |Q(Exec(s, schedule[..i]).0)| >= size
  {
    if Exec(s, schedule).0.p.PAlloc? {
      var k := RunSought(s, schedule);
      i := RunNoSpare(s, size, schedule[..k]);
      SameEnqueueLater(s, schedule, k, i);
    } else {
      i := RunNoSpare(s, size, schedule);
    }
  }

  /** The first `count` blocks are of size `first`, and each later one is twice the one before it, but at most MAX_BLOCK_SIZE. */
  predicate Grew<T>(s: State<T>, first: nat, count: nat) {
    && |s.blocks| >= count && s.largest == SizeAfter(first, s.max, |s.blocks| - count)
    && forall i | 0 <= i < |s.blocks| ::
         s.blocks[i].size == if i < count then first else SizeAfter(first, s.max, i - count + 1)
  }

  lemma StepGrew<T>(s: State<T>, t: State<T>, first: nat, count: nat)
    requires SizesKept(s, t) && Grew(s, first, count) && IsPow2(first) && IsPow2(s.max)
    ensures Grew(t, first, count)
  {
    SizeAfterNext(first, s.max, |s.blocks| - count);
  }

  /**
   In every run the constructor's blocks keep their size, and the nth block allocated after them has twice
   the size of the one before it, but never more than MAX_BLOCK_SIZE, unless the first blocks were larger.
   */
  lemma {:induction false} RunGrowth<T>(s: State<T>, size: nat, schedule: seq<Action<T>>)
    requires Constructed(s, size) && MaxOk(s.max) && Fits(size)
    ensures Exec(s, schedule).0.max == s.max
    ensures Grew(Exec(s, schedule).0, InitialSize(size, s.max), InitialCount(size, s.max))
  {
    var count, first := InitialCount(size, s.max), InitialSize(size, s.max);
    ConstructorSuffices(size, s.max);
    if schedule == [] {
      SizeAfterNext(first, s.max, 0);
    } else {
      var before, a := schedule[..|schedule| - 1], schedule[|schedule| - 1];
      RunGrowth(s, size, before);
      var r := Exec(s, before);
      if Safe(r.0, a) {
        StepSizes(r.0, a);
        StepGrew(r.0, Step(r.0, a), first, count);
      }
    }
  }

  /** In every reachable state every block size is a power of two from 2 to twice MAX_BLOCK_SIZE. */
  lemma RunBlockSizes<T>(s: State<T>, size: nat, schedule: seq<Action<T>>, i: nat)
    requires Constructed(s, size) && MaxOk(s.max) && Fits(size)
    requires i < |Exec(s, schedule).0.blocks|
    ensures IsPow2(Exec(s, schedule).0.blocks[i].size)
    ensures 2 <= Exec(s, schedule).0.blocks[i].size <= 2 * s.max
  {
    RunSized(s, size, schedule);
    ConstructorSuffices(size, s.max);
    RunMax(s, schedule);
  }

  /** For such a block, `& sizeMask` steps the tail index exactly round the block. */
  lemma BlockMask<T>(s: State<T>, i: nat)
    requires Inv(s) && i < |s.blocks| && IsPow2(s.blocks[i].size)
    ensures s.blocks[i].tail < s.blocks[i].size
    ensures And(s.blocks[i].tail + 1, s.blocks[i].size - 1) == Circular.Next(s.blocks[i].size, s.blocks[i].tail)
  {
    TailInRange(s, i);
    MaskedNext(s.blocks[i].size, s.blocks[i].tail);
  }

  lemma TailInRange<T>(s: State<T>, i: nat)
    requires Inv(s) && i < |s.blocks|
    ensures s.blocks[i].tail < s.blocks[i].size
  {
    assert BlockOk(s.blocks[i], i == TakenBlock(s.c), i == BuiltBlock(s.p));
  }

  lemma {:induction false} RunMax<T>(s: State<T>, schedule: seq<Action<T>>)
    ensures Exec(s, schedule).0.max == s.max
  {
    if schedule != [] {
      var before := schedule[..|schedule| - 1];
      RunMax(s, before);
      var a := schedule[|schedule| - 1];
      if Safe(Exec(s, before).0, a) {
        StepSizes(Exec(s, before).0, a);
      }
    }
  }

}
