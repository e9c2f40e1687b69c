/**
 `moodycamel::ReaderWriterQueue` as linked objects that are updated in place.

 The methods make the accesses of include/moodycammel_queue.hpp in its order; between any two of them the
 other thread runs for as long as it likes. Each access is proved to be the machine's step.
 */
module BlockRingObject {
  import opened Words
  import opened Circular
  import opened PowerOfTwo
  import M = BlockRing
  import I = BlockRingInvariant
  import R = BlockRingRefinement
  import C = BlockRingCapacity
  import opened BlockRingCalls
  import opened BlockRingWalks
  import Fifo
  import opened Accounting

  /**
   What holds of every reachable state of a queue constructed for `asked` elements. (Quantified so that the
   verifier looks inside only where `GoodParts` is mentioned.)
   */
  ghost predicate Good<T>(s: M.State<T>, asked: nat) {
    forall n: nat | n == asked :: GoodParts(s, n)
  }

  ghost predicate GoodParts<T>(s: M.State<T>, asked: nat) {
    && I.Inv(s) && C.MaxOk(s.max) && asked < W && C.Fits(asked)
    && C.Sized(s, C.InitialSize(asked, s.max), C.InitialCount(asked, s.max))
  }

  lemma ProducerKept<T>(s: M.State<T>, asked: nat, v: T, alloc: bool, memory: bool)
    requires Good(s, asked)
    ensures M.ProducerSafe(s) && Good(M.ProducerStep(s, v, alloc, memory), asked)
    ensures M.ProducerStep(s, v, alloc, memory).saw == s.saw
    ensures M.Q(M.ProducerStep(s, v, alloc, memory)) ==
            if M.ProducerEvent(s, memory).Enq? then M.Q(s) + [M.ProducerEvent(s, memory).v] else M.Q(s)
  {
    assert GoodParts(s, asked);
    R.ProducerKeeps(s, v, alloc, memory);
    C.StepSizes(s, M.Produce(v, alloc, memory));
    C.StepSized(s, M.Produce(v, alloc, memory), C.InitialSize(asked, s.max), C.InitialCount(asked, s.max));
  }

  lemma ConsumerSized<T>(s: M.State<T>, asked: nat, op: M.Op)
    requires GoodParts(s, asked) && M.ConsumerSafe(s) && I.Inv(M.ConsumerStep(s, op))
    ensures Good(M.ConsumerStep(s, op), asked)
  {
    C.StepSizes(s, M.Consume(op));
    C.StepSized(s, M.Consume(op), C.InitialSize(asked, s.max), C.InitialCount(asked, s.max));
  }

  /** What R.ConsumerDone says of the contents, the removed element in front. */
  lemma ConsumerQueue<T>(s: M.State<T>, s': M.State<T>, e: Fifo.Event<T>)
    requires R.ConsumerDone(s, s', e)
    ensures if e.Deq? then M.Q(s) == [e.v] + M.Q(s') else M.Q(s') == M.Q(s)
    ensures e.Peek? ==> M.Q(s) != [] && M.Q(s)[0] == e.v
  {
    if e.Deq? {
      assert M.Q(s) == [M.Q(s)[0]] + M.Q(s)[1..];
    }
  }

  lemma SeenKept<T>(s: M.State<T>, op: M.Op)
    requires M.ConsumerSafe(s)
    ensures M.ConsumerStep(s, op).seen == s.seen
  {
  }

  lemma ConsumerKept<T>(s: M.State<T>, asked: nat, op: M.Op)
    requires Good(s, asked)
    ensures M.ConsumerSafe(s) && Good(M.ConsumerStep(s, op), asked)
    ensures M.ConsumerStep(s, op).seen == s.seen
    ensures var e := M.ConsumerEvent(s);
            if e.Deq? then M.Q(s) == [e.v] + M.Q(M.ConsumerStep(s, op)) else M.Q(M.ConsumerStep(s, op)) == M.Q(s)
    ensures M.ConsumerEvent(s).Peek? ==> M.Q(s) != [] && M.Q(s)[0] == M.ConsumerEvent(s).v
  {
    assert GoodParts(s, asked);
    R.ConsumerKeeps(s, op);
    ConsumerSized(s, asked, op);
    SeenKept(s, op);
    ConsumerQueue(s, M.ConsumerStep(s, op), M.ConsumerEvent(s));
  }

  /**
   Some run from the state as constructed for `asked` elements leads to s, and in it the producer's caller has
   been told, and the consumer's caller has heard, just these answers. (Quantified for the same reason as `Good`.)
   */
  ghost predicate Ran<T(!new)>(asked: nat, s: M.State<T>, told: seq<Fifo.Event<T>>, heard: seq<Fifo.Event<T>>) {
    forall t | t == s :: RanSome(asked, t, told, heard)
  }

  ghost predicate RanSome<T(!new)>(asked: nat, s: M.State<T>, told: seq<Fifo.Event<T>>, heard: seq<Fifo.Event<T>>) {
    exists start: M.State<T>, run: seq<M.Action<T>> :: RanParts(start, asked, run, s, told, heard)
  }

  ghost predicate RanParts<T>(start: M.State<T>, asked: nat, run: seq<M.Action<T>>, s: M.State<T>,
                              told: seq<Fifo.Event<T>>, heard: seq<Fifo.Event<T>>) {
    && C.Constructed(start, asked) && C.MaxOk(start.max) && C.Fits(asked)
    && R.Exec(start, run).0 == s
    && told == Answers(R.Exec(start, run).1) && heard == Replies(R.Exec(start, run).1)
  }

  lemma RanOne<T(!new)>(asked: nat, s: M.State<T>, told: seq<Fifo.Event<T>>, heard: seq<Fifo.Event<T>>, a: M.Action<T>)
    requires Ran(asked, s, told, heard) && M.Safe(s, a)
    ensures Ran(asked, M.Step(s, a), told + AnswerOf(M.EventOf(s, a)), heard + ReplyOf(M.EventOf(s, a)))
  {
    assert RanSome(asked, s, told, heard);
    var start: M.State<T>, run: seq<M.Action<T>> :| RanParts(start, asked, run, s, told, heard);
    assert (run + [a])[..|run + [a]| - 1] == run;
    AnswersOfOne(R.Exec(start, run).1, M.EventOf(s, a));
    assert RanParts(start, asked, run + [a], M.Step(s, a), told + AnswerOf(M.EventOf(s, a)), heard + ReplyOf(M.EventOf(s, a)));
    assert RanSome(asked, M.Step(s, a), told + AnswerOf(M.EventOf(s, a)), heard + ReplyOf(M.EventOf(s, a)));
  }

  /** The producer's next step, with all that it keeps. */
  lemma ProducerGoes<T(!new)>(told: seq<Fifo.Event<T>>, heard: seq<Fifo.Event<T>>,
                              s: M.State<T>, asked: nat, v: T, alloc: bool, memory: bool)
    requires Good(s, asked) && Ran(asked, s, told, heard)
    ensures M.ProducerSafe(s) && Good(M.ProducerStep(s, v, alloc, memory), asked)
    ensures M.ProducerStep(s, v, alloc, memory).saw == s.saw
    ensures M.Q(M.ProducerStep(s, v, alloc, memory)) ==
            if M.ProducerEvent(s, memory).Enq? then M.Q(s) + [M.ProducerEvent(s, memory).v] else M.Q(s)
    ensures Ran(asked, M.ProducerStep(s, v, alloc, memory),
                if M.ProducerEvent(s, memory).Tau? then told else told + [M.ProducerEvent(s, memory)], heard)
  {
    ProducerKept(s, asked, v, alloc, memory);
    RanOne(asked, s, told, heard, M.Produce(v, alloc, memory));
    assert told + [] == told && heard + [] == heard;
    ProducerTells(s, memory);
  }

  lemma ProducerTells<T>(s: M.State<T>, memory: bool)
    requires M.ProducerSafe(s)
    ensures var e := M.ProducerEvent(s, memory);
            ReplyOf(e) == [] && AnswerOf(e) == if e.Tau? then [] else [e]
  {
  }

  /** A step that answers nothing leaves the queue as it was. */
  predicate Silent<T>(p: M.Producer<T>) {
    !p.PStoreTail? && !p.PPublish? && !p.PCompare? && !p.PAlloc?
  }

  lemma ProducerSilently<T(!new)>(told: seq<Fifo.Event<T>>, heard: seq<Fifo.Event<T>>,
                                  s: M.State<T>, asked: nat, v: T, alloc: bool, memory: bool)
    requires Good(s, asked) && Ran(asked, s, told, heard) && Silent(s.p)
    ensures M.ProducerSafe(s) && Good(M.ProducerStep(s, v, alloc, memory), asked)
    ensures ProducerStepped(s, v, alloc, memory, M.ProducerStep(s, v, alloc, memory))
    ensures M.ProducerStep(s, v, alloc, memory).saw == s.saw
    ensures M.Q(M.ProducerStep(s, v, alloc, memory)) == M.Q(s)
    ensures Ran(asked, M.ProducerStep(s, v, alloc, memory), told, heard)
  {
    ProducerGoes(told, heard, s, asked, v, alloc, memory);
  }

  /** The step that puts the element in the queue. */
  lemma ProducerPuts<T(!new)>(told: seq<Fifo.Event<T>>, heard: seq<Fifo.Event<T>>, s: M.State<T>, asked: nat, v: T)
    requires Good(s, asked) && Ran(asked, s, told, heard) && (s.p.PStoreTail? || s.p.PPublish?)
    ensures M.ProducerSafe(s) && Good(M.ProducerStep(s, v, true, true), asked)
    ensures ProducerStepped(s, v, true, true, M.ProducerStep(s, v, true, true))
    ensures M.ProducerStep(s, v, true, true).saw == s.saw
    ensures M.Q(M.ProducerStep(s, v, true, true)) == M.Q(s) + [s.p.v]
    ensures Ran(asked, M.ProducerStep(s, v, true, true), told + [Fifo.Enq(s.p.v)], heard)
  {
    ProducerGoes(told, heard, s, asked, v, true, true);
  }

  /** The consumer's next step, with all that it keeps. */
  lemma ConsumerGoes<T(!new)>(told: seq<Fifo.Event<T>>, heard: seq<Fifo.Event<T>>,
                              s: M.State<T>, asked: nat, op: M.Op)
    requires Good(s, asked) && Ran(asked, s, told, heard)
    ensures M.ConsumerSafe(s) && Good(M.ConsumerStep(s, op), asked)
    ensures M.ConsumerStep(s, op).seen == s.seen
    ensures var e := M.ConsumerEvent(s);
            if e.Deq? then M.Q(s) == [e.v] + M.Q(M.ConsumerStep(s, op)) else M.Q(M.ConsumerStep(s, op)) == M.Q(s)
    ensures M.ConsumerEvent(s).Peek? ==> M.Q(s) != [] && M.Q(s)[0] == M.ConsumerEvent(s).v
    ensures Ran(asked, M.ConsumerStep(s, op), told,
                var e := M.ConsumerEvent(s); if e.Deq? || e.DeqFalse? || e.Peek? then heard + [e] else heard)
  {
    ConsumerKept(s, asked, op);
    RanOne(asked, s, told, heard, M.Consume(op));
    assert told + [] == told && heard + [] == heard;
    assert AnswerOf(M.ConsumerEvent(s)) == [];
  }

  /** The step that takes the oldest element out. */
  lemma ConsumerTakes<T(!new)>(told: seq<Fifo.Event<T>>, heard: seq<Fifo.Event<T>>, s: M.State<T>, asked: nat)
    requires Good(s, asked) && Ran(asked, s, told, heard) && s.c.CStoreFront?
    ensures M.ConsumerSafe(s) && Good(M.ConsumerStep(s, M.Dequeue), asked)
    ensures ConsumerStepped(s, M.Dequeue, M.ConsumerStep(s, M.Dequeue))
    ensures M.ConsumerStep(s, M.Dequeue).seen == s.seen
    ensures M.Q(s) == [s.c.v] + M.Q(M.ConsumerStep(s, M.Dequeue))
    ensures Ran(asked, M.ConsumerStep(s, M.Dequeue), told, heard + [Fifo.Deq(s.c.v)])
  {
    ConsumerGoes(told, heard, s, asked, M.Dequeue);
  }

  predicate Mute<T>(c: M.Consumer<T>) {
    !c.CLoadTailBlock? && !c.CNextTail? && !c.CTake? && !c.CStoreFront?
  }

  lemma ConsumerSilently<T(!new)>(told: seq<Fifo.Event<T>>, heard: seq<Fifo.Event<T>>,
                                  s: M.State<T>, asked: nat, op: M.Op)
    requires Good(s, asked) && Ran(asked, s, told, heard) && Mute(s.c)
    ensures M.ConsumerSafe(s) && Good(M.ConsumerStep(s, op), asked)
    ensures ConsumerStepped(s, op, M.ConsumerStep(s, op))
    ensures M.ConsumerStep(s, op).seen == s.seen
    ensures M.Q(M.ConsumerStep(s, op)) == M.Q(s)
    ensures Ran(asked, M.ConsumerStep(s, op), told, heard)
  {
    ConsumerGoes(told, heard, s, asked, op);
  }

  /** What was put is what was taken and what is there. */
  lemma RanBalances<T(!new)>(asked: nat, s: M.State<T>, told: seq<Fifo.Event<T>>, heard: seq<Fifo.Event<T>>)
    requires Ran(asked, s, told, heard)
    ensures Accounts(Fifo.Enqs(told), Fifo.Deqs(heard), M.Q(s))
  {
    assert RanSome(asked, s, told, heard);
    var start: M.State<T>, run: seq<M.Action<T>> :| RanParts(start, asked, run, s, told, heard);
    C.ConstructorSuffices(asked, start.max);
    R.RunIsFifo(start, C.InitialCount(asked, start.max), C.InitialSize(asked, start.max), run);
    AnswersTellAll(R.Exec(start, run).1);
    assert AccountsAre(Fifo.Enqs(told), Fifo.Deqs(heard), M.Q(s));
  }

  /** What an enqueue is answered, and what it has put. */
  function Told<T>(v: T, ok: bool): Fifo.Event<T> { if ok then Fifo.Enq(v) else Fifo.EnqFalse }

  lemma ToldPut<T>(told: seq<Fifo.Event<T>>, v: T, ok: bool)
    ensures Fifo.Enqs(told + [Told(v, ok)]) == Fifo.Enqs(told) + (if ok then [v] else [])
  {
    assert (told + [Told(v, ok)])[..|told + [Told(v, ok)]| - 1] == told;
  }

  /** What a dequeue or pop is answered, and what it has taken. */
  function Heard<T>(result: seq<T>): Fifo.Event<T> { if result == [] then Fifo.DeqFalse else Fifo.Deq(result[0]) }

  lemma HeardTaken<T>(heard: seq<Fifo.Event<T>>, result: seq<T>)
    requires |result| <= 1
    ensures Fifo.Deqs(heard + [Heard(result)]) == Fifo.Deqs(heard) + result
  {
    assert (heard + [Heard(result)])[..|heard + [Heard(result)]| - 1] == heard;
  }

  /** What a peek is answered. */
  function Shown<T>(result: seq<T>): Fifo.Event<T> { if result == [] then Fifo.DeqFalse else Fifo.Peek(result[0]) }

  lemma ShownTakesNothing<T>(heard: seq<Fifo.Event<T>>, result: seq<T>)
    ensures Fifo.Deqs(heard + [Shown(result)]) == Fifo.Deqs(heard)
  {
    assert (heard + [Shown(result)])[..|heard + [Shown(result)]| - 1] == heard;
  }

  lemma BlockIsOk<T>(s: M.State<T>, asked: nat, b: nat)
    requires Good(s, asked) && b < |s.blocks|
    ensures var x := s.blocks[b];
            && 2 <= x.size <= W && x.front < x.size && x.tail < x.size && IsPow2(x.size)
            && |x.q| == Dist(x.size, x.front, x.tail)
  {
    assert GoodParts(s, asked);
    assert I.BlockOk(s.blocks[b], b == I.TakenBlock(s.c), b == I.BuiltBlock(s.p));
  }

  /** `(tail - front) & sizeMask` is the number of a block's elements. */
  lemma Masks<T>(s: M.State<T>, asked: nat, b: nat)
    requires Good(s, asked) && b < |s.blocks|
    ensures var x := s.blocks[b];
            && 2 <= x.size <= W && x.front < x.size && x.tail < x.size
            && And(Sub64(x.tail, x.front), x.size - 1) == |x.q|
  {
    var x := s.blocks[b];
    BlockIsOk(s, asked, b);
    MaskedDist(x.size, x.front, x.tail);
  }

  /** Lines 572 and 633: the block after a full tail block is the front block, so the queue was nearly full of full blocks. */
  lemma Refused<T>(s: M.State<T>, asked: nat)
    requires Good(s, asked) && s.p.PCompare? && s.p.nx == s.frontBlock
    ensures s.seen >= asked || |M.Q(s)| >= asked
  {
    assert GoodParts(s, asked);
    C.ConstructorSuffices(asked, s.max);
    C.NoSpareOnlyWhenFull(s, C.InitialSize(asked, s.max), C.InitialCount(asked, s.max), asked);
  }

  /** The producer follows `next` only from the tail block, which is linked. */
  lemma NextIsKnown<T>(s: M.State<T>, asked: nat, b: nat)
    requires Good(s, asked) && b < |s.blocks| && (s.p.PLoadNext? || s.p.PReuse?) && s.p.tb == b
    ensures s.blocks[b].next != M.NULL
  {
    assert GoodParts(s, asked);
    assert I.LinkAt(s.blocks, s.ring, s.t);
  }

  lemma NextIsKnownToConsumer<T>(s: M.State<T>, asked: nat, b: nat)
    requires Good(s, asked) && b < |s.blocks| && s.c.CLoadNext? && s.c.fb == b
    ensures s.blocks[b].next != M.NULL
  {
    assert GoodParts(s, asked);
    assert I.LinkAt(s.blocks, s.ring, 0);
  }

  /** Whatever the consumer is about to touch is a block. */
  lemma ConsumerPointers<T>(s: M.State<T>, asked: nat)
    requires Good(s, asked)
    ensures match s.c
            case CIdle => true
            case CAgainBlock(_) => true
            case CLoadFront(_, fb) => M.Valid(s, fb)
            case CLoadTail(_, fb, _) => M.Valid(s, fb)
            case CLoadTailBlock(_, fb) => M.Valid(s, fb)
            case CAgainTail(_, fb) => M.Valid(s, fb)
            case CAgainFront(_, fb, _) => M.Valid(s, fb)
            case CLoadNext(_, fb) => M.Valid(s, fb)
            case CNextFront(_, nb) => M.Valid(s, nb)
            case CNextTail(_, nb, _) => M.Valid(s, nb)
            case CAdvance(op, nb, _) => M.Valid(s, nb) && !op.Look?
            case CTake(_, b, _) => M.Valid(s, b)
            case CDestroy(b, _, _) => M.Valid(s, b)
            case CStoreFront(b, f, _) => M.Valid(s, b) && f < s.blocks[b].size
  {
    assert GoodParts(s, asked);
  }

  /** The same for the producer. */
  lemma ProducerPointers<T>(s: M.State<T>, asked: nat)
    requires Good(s, asked)
    ensures match s.p
            case PIdle => true
            case PLoadTail(_, _, tb) => M.Valid(s, tb)
            case PLoadFront(_, _, tb, bt) => M.Valid(s, tb) && bt < s.blocks[tb].size
            case PConstruct(_, tb, _) => M.Valid(s, tb)
            case PStoreTail(_, tb, bt) => M.Valid(s, tb) && bt < s.blocks[tb].size
            case PLoadNext(_, _, tb) => M.Valid(s, tb)
            case PCompare(_, _, tb, nx) => M.Valid(s, tb) && M.Valid(s, nx)
            case PReuse(_, tb) => M.Valid(s, tb)
            case PReuseFront(_, nb) => M.Valid(s, nb)
            case PReuseTail(_, nb, _) => M.Valid(s, nb)
            case PReuseConstruct(_, nb, nt) => M.Valid(s, nb) && nt < s.blocks[nb].size
            case PReuseStore(_, nb, nt) => M.Valid(s, nb) && nt < s.blocks[nb].size
            case PAlloc(_, tb) => M.Valid(s, tb)
            case PInit(_, tb, nb) => M.Valid(s, tb) && M.Valid(s, nb)
            case PLinkNew(_, tb, nb) => M.Valid(s, tb) && M.Valid(s, nb)
            case PLinkTail(_, tb, nb) => M.Valid(s, tb) && M.Valid(s, nb)
            case PPublish(_, nb) => M.Valid(s, nb)
  {
    assert GoodParts(s, asked);
  }

  lemma SpareTail<T>(s: M.State<T>, asked: nat)
    requires Good(s, asked) && s.p.PReuseStore?
    ensures M.Valid(s, s.p.nb) && s.p.nt < s.blocks[s.p.nb].size
  {
    assert GoodParts(s, asked);
    ProducerPointers(s, asked);
  }

  lemma FrontInRange<T>(s: M.State<T>, asked: nat)
    requires Good(s, asked) && s.c.CStoreFront?
    ensures M.Valid(s, s.c.b) && s.c.f < s.blocks[s.c.b].size
  {
    assert GoodParts(s, asked);
    ConsumerPointers(s, asked);
  }

  lemma EmptyAnswer<T>(s: M.State<T>, asked: nat)
    requires Good(s, asked) && s.c.CLoadTailBlock? && s.c.fb == s.tailBlock
    ensures s.saw
  {
    assert GoodParts(s, asked);
    assert I.RingOk(s.blocks, s.ring, s.t, s.frontBlock, s.tailBlock);
    R.EmptyOnlyIfSeen(s);
  }

  /** One block has been added to those there were. */
  ghost predicate OneMore<T>(was: seq<Block<T>>, blocks: seq<Block<T>>) {
    (|blocks| == |was| + 1 && was <= blocks) == true
  }

  class Block<T(==)> {
    const id: nat                  // its number in allocation order
    const size: nat
    const data: array<Cell<T>>
    var front: nat
    var tail: nat
    var localFront: nat
    var localTail: nat
    var next: Block?<T>

    /** A fresh block: empty, not linked to anything. */
    constructor (id: nat, size: nat)
      ensures this.id == id && fresh(data) && next == null && Is(M.FreshBlock(size))
    {
      this.id, this.size := id, size;
      data := new Cell<T>[size](_ => Raw);
      front, tail, localFront, localTail, next := 0, 0, 0, 0, null;
      new;
      assert data[..] == seq(size, _ => Raw);
    }

    /** `(i + 1) & sizeMask`. */
    method NextIndex(i: nat) returns (j: nat)
      requires IsPow2(size) && i < size
      ensures j == Next(size, i)
    {
      MaskedNext(size, i);
      j := And(i + 1, size - 1);
    }

    /** The destructor's inner loop destroys the block's elements q, oldest first, and nothing else. */
    method DestroyElements(ghost q: seq<T>) returns (ghost destroyed: seq<T>)
      requires IsPow2(size) && data.Length == size && front < size && tail < size
      requires |q| == Dist(size, front, tail) && Holds(data[..], front, q, false, false)
      modifies data
      ensures destroyed == q && AllRaw(data[..])
    {
      var i: nat := front;
      destroyed := [];
      ghost var left := q;
      while i != tail
        invariant i < size && destroyed + left == q
        invariant |left| == Dist(size, i, tail) && Holds(data[..], i, left, false, false)
        decreases |left|
      {
        DropOldest(data[..], i, left);
        destroyed := destroyed + [left[0]];
        data[i] := Raw;
        assert left == [left[0]] + left[1..];
        left := left[1..];
        i := NextIndex(i);
      }
      EmptyIsRaw(data[..], i);
    }

    /** The block's own fields are those of m. */
    ghost predicate Is(m: M.Block<T>)
      reads this, data
    {
      && size == m.size && front == m.front && tail == m.tail
      && localFront == m.localFront && localTail == m.localTail && data[..] == m.data
    }
  }

  // ---------------------------------------------------------------- walking round the ring

  lemma RingStart<T>(s: M.State<T>, asked: nat)
    requires Good(s, asked)
    ensures 0 < |s.ring| && s.ring[0] == s.frontBlock
  {
    assert GoodParts(s, asked);
  }

  /** The next block is the next place of the ring, and the front block again only when every block has been visited. */
  lemma RingNext<T>(s: M.State<T>, asked: nat, i: nat)
    requires Good(s, asked) && i < |s.ring|
    ensures s.ring[i] < |s.blocks| && s.ring[Next(|s.ring|, i)] < |s.blocks|
    ensures s.blocks[s.ring[i]].next == s.ring[Next(|s.ring|, i)]
    ensures s.ring[Next(|s.ring|, i)] == s.frontBlock <==> i + 1 == |s.ring|
  {
    assert GoodParts(s, asked);
    assert I.LinkAt(s.blocks, s.ring, i);
    assert i + 1 < |s.ring| ==> s.ring[0] != s.ring[i + 1];
  }

  lemma RingIsWhole<T>(s: M.State<T>, asked: nat)
    requires Good(s, asked) && s.p.PIdle?
    ensures Covers(s.ring, |s.blocks|) && |s.ring| == |s.blocks|
  {
    assert GoodParts(s, asked);
    WholeRing(s);
  }

  lemma RingIsQueue<T>(s: M.State<T>, asked: nat)
    requires Good(s, asked) && s.p.PIdle?
    ensures M.Contents(s.blocks, s.ring) == M.Q(s)
  {
    assert GoodParts(s, asked);
    RestIsEmpty(s);
  }

  ghost predicate Untouched<T>(blocks: seq<Block<T>>, ms: seq<M.Block<T>>, i: nat)
    requires i < |blocks| == |ms|
    reads blocks[i].data
  {
    blocks[i].data[..] == ms[i].data
  }

  /** The block's live slots are its elements. */
  ghost predicate Quiet<T>(x: M.Block<T>) {
    && IsPow2(x.size) && x.front < x.size && x.tail < x.size && |x.data| == x.size
    && |x.q| == Dist(x.size, x.front, x.tail) && Holds(x.data, x.front, x.q, false, false)
  }

  /** What the destructor finds. */
  lemma QuietRing<T>(s: M.State<T>, asked: nat)
    requires Good(s, asked) && s.p.PIdle? && s.c.CIdle?
    ensures Covers(s.ring, |s.blocks|) && |s.ring| == |s.blocks| && Circle(s.blocks, s.ring)
    ensures 0 < |s.ring| && s.ring[0] == s.frontBlock && M.Contents(s.blocks, s.ring) == M.Q(s)
    ensures forall b | 0 <= b < |s.blocks| :: Quiet(s.blocks[b])
    ensures var walk := Destruct(s.blocks, s.frontBlock, s.frontBlock, |s.blocks|);
            walk.0 == M.Q(s) && walk.1 == s.ring
  {
    assert GoodParts(s, asked);
    WholeRing(s);
    RingIsCircle(s);
    RestIsEmpty(s);
    DestructIs(s);
    forall b | 0 <= b < |s.blocks|
      ensures Quiet(s.blocks[b])
    {
      assert I.BlockOk(s.blocks[b], false, false);
    }
  }

  lemma NextOnce<T>(ms: seq<M.Block<T>>, ring: seq<nat>, i: nat)
    requires Circle(ms, ring) && i < |ring|
    ensures ms[ring[i]].next == ring[Next(|ring|, i)] < |ms|
    ensures ring[Next(|ring|, i)] == ring[0] <==> i + 1 == |ring|
  {
    assert I.LinkAt(ms, ring, i);
    assert i + 1 < |ring| ==> ring[0] != ring[i + 1];
  }

  // ---------------------------------------------------------------- the blocks in memory

  /** What `blocks[i]` is in memory is what `ms[i]` says. */
  ghost predicate CellAt<T>(blocks: seq<Block<T>>, repr: set<object>, ms: seq<M.Block<T>>, i: nat)
    requires i < |blocks| == |ms|
    reads repr
  {
    && blocks[i] in repr && blocks[i].data in repr && blocks[i].id == i
    && blocks[i].Is(ms[i]) && Points(blocks, blocks[i].next, ms[i].next)
  }

  ghost predicate Points<T>(blocks: seq<Block<T>>, next: Block?<T>, n: int) {
    if n == M.NULL then next == null else 0 <= n < |blocks| && next == blocks[n]
  }

  ghost predicate OwnData<T>(blocks: seq<Block<T>>, i: nat, j: nat)
    requires i < |blocks| && j < |blocks|
  {
    blocks[i].data != blocks[j].data
  }

  /** b is one of the blocks. */
  ghost predicate Member<T>(blocks: seq<Block<T>>, repr: set<object>, b: Block<T>) {
    (b.id < |blocks| && blocks[b.id] == b && b in repr && b.data in repr) == true
  }

  /** The blocks in memory are what ms says; they are numbered by their place and share no storage. */
  ghost predicate Tied<T>(blocks: seq<Block<T>>, repr: set<object>, ms: seq<M.Block<T>>)
    reads repr
  {
    forall xs | xs == ms :: TiedParts(blocks, repr, xs)
  }

  ghost predicate TiedParts<T>(blocks: seq<Block<T>>, repr: set<object>, ms: seq<M.Block<T>>)
    reads repr
  {
    && |ms| == |blocks|
    && (forall i | 0 <= i < |blocks| :: CellAt(blocks, repr, ms, i))
    && (forall i, j | 0 <= i < j < |blocks| :: OwnData(blocks, i, j))
  }

  lemma Read<T>(blocks: seq<Block<T>>, repr: set<object>, ms: seq<M.Block<T>>, i: nat)
    requires Tied(blocks, repr, ms) && (i < |blocks| || i < |ms|)
    ensures |ms| == |blocks| && CellAt(blocks, repr, ms, i)
  {
    assert TiedParts(blocks, repr, ms);
  }

  lemma Count<T>(blocks: seq<Block<T>>, repr: set<object>, ms: seq<M.Block<T>>)
    requires Tied(blocks, repr, ms)
    ensures |ms| == |blocks|
  {
    assert TiedParts(blocks, repr, ms);
  }

  /** The storage of one place of the ring is not that of another. */
  lemma Apart<T>(blocks: seq<Block<T>>, ring: seq<nat>, i: nat)
    requires Covers(ring, |blocks|) && i < |ring|
    requires forall j, k | 0 <= j < k < |blocks| :: OwnData(blocks, j, k)
    ensures forall j | 0 <= j < |ring| && j != i :: blocks[ring[j]].data != blocks[ring[i]].data
  {
    forall j | 0 <= j < |ring| && j != i
      ensures blocks[ring[j]].data != blocks[ring[i]].data
    {
      var a, b := ring[i], ring[j];
      assert a < b ==> OwnData(blocks, a, b);
      assert b < a ==> OwnData(blocks, b, a);
    }
  }

  lemma Everywhere<T>(blocks: seq<Block<T>>, ring: seq<nat>)
    requires Covers(ring, |blocks|)
    requires forall j | 0 <= j < |ring| :: AllRaw(blocks[ring[j]].data[..])
    ensures forall i | 0 <= i < |blocks| :: AllRaw(blocks[i].data[..])
  {
    forall i | 0 <= i < |blocks|
      ensures AllRaw(blocks[i].data[..])
    {
      assert i in ring;
    }
  }

  lemma MemberGrows<T>(blocks: seq<Block<T>>, repr: set<object>, b: Block<T>)
    requires b.id == |blocks|
    ensures forall x: Block<T> | Member(blocks, repr, x) :: Member(blocks + [b], repr + {b, b.data}, x)
    ensures Member(blocks + [b], repr + {b, b.data}, b)
  {
  }

  ghost predicate ProducerStepIs<T>(s: M.State<T>, v: T, alloc: bool, memory: bool, t: M.State<T>) {
    M.ProducerSafe(s) && t == M.ProducerStep(s, v, alloc, memory)
  }

  ghost predicate ConsumerStepIs<T>(s: M.State<T>, op: M.Op, t: M.State<T>) {
    M.ConsumerSafe(s) && t == M.ConsumerStep(s, op)
  }

  /** (Quantified for the same reason as `Good`.) */
  ghost predicate ProducerStepped<T>(s: M.State<T>, v: T, alloc: bool, memory: bool, s': M.State<T>) {
    forall t | t == s' :: ProducerStepIs(s, v, alloc, memory, t)
  }

  ghost predicate ConsumerStepped<T>(s: M.State<T>, op: M.Op, s': M.State<T>) {
    forall t | t == s' :: ConsumerStepIs(s, op, t)
  }

  /** How many blocks the constructor makes, and of what size. */
  method Layout(max: nat, size: nat) returns (initialBlockCount: nat, largestBlockSize: nat)
    requires size < W && C.MaxOk(max)
    ensures initialBlockCount == C.InitialCount(size, max) >= 1 && largestBlockSize == C.InitialSize(size, max)
  {
    C.ConstructorSuffices(size, max);
    largestBlockSize := CeilToPow2(Add64(size, 1));
    initialBlockCount := 1;
    if largestBlockSize > max * 2 {
      C.ManyBlocksMeansMany(size, max);
      assert size + max * 2 - 3 < W;
      initialBlockCount := (size + max * 2 - 3) / (max - 1);
      largestBlockSize := max;
    }
  }

  /** The constructor's blocks, linked in a circle. */
  method MakeRing<T(==)>(n: nat, size: nat) returns (made: seq<Block<T>>, ghost repr: set<object>)
    requires n >= 1
    ensures |made| == n && fresh(repr)
    ensures Tied(made, repr, seq(n, i requires 0 <= i < n => M.InitialBlock<T>(n, size, i)))
    ensures made[0].id == 0 && made[0] in repr && made[0].data in repr
  {
    made := MakeBlocks<T>(n, size);
    repr := (set i | 0 <= i < n :: made[i]) + (set i | 0 <= i < n :: made[i].data);
    ghost var ms := seq(n, i requires 0 <= i < n => M.InitialBlock<T>(n, size, i));
    forall i | 0 <= i < n
      ensures CellAt(made, repr, ms, i)
    {
    }
  }

  /** The constructor's loop. */
  method MakeBlocks<T(==)>(n: nat, size: nat) returns (made: seq<Block<T>>)
    requires n >= 1
    ensures |made| == n && fresh(made) && forall i | 0 <= i < n :: fresh(made[i].data)
    ensures forall i | 0 <= i < n :: made[i].id == i && made[i].Is(M.FreshBlock(size))
    ensures forall i | 0 <= i < n :: made[i].next == made[Next(n, i)]
    ensures forall i, j | 0 <= i < j < n :: made[i].data != made[j].data
  {
    made := [];
    var i := 0;
    var firstBlock: Block?<T>, lastBlock: Block?<T> := null, null;
    while i != n
      invariant i <= n && |made| == i && fresh(made) && forall j | 0 <= j < i :: fresh(made[j].data)
      invariant forall j | 0 <= j < i :: made[j].id == j && made[j].Is(M.FreshBlock(size))
      invariant forall j, k | 0 <= j < k < i :: made[j].data != made[k].data
      invariant forall j | 0 <= j < i - 1 :: made[j].next == made[j + 1]
      invariant if i == 0 then firstBlock == null
                else firstBlock == made[0] && lastBlock == made[i - 1] && made[i - 1].next == made[0]
      decreases n - i
    {
      var block := new Block<T>(i, size);
      if firstBlock == null {
        firstBlock := block;
      } else {
        lastBlock.next := block;
      }
      lastBlock := block;
      block.next := firstBlock;
      made := made + [block];
      i := i + 1;
    }
  }

  lemma InitGood<T>(s: M.State<T>, size: nat)
    requires C.Constructed(s, size) && C.MaxOk(s.max) && C.Fits(size)
    ensures Good(s, size) && M.Q(s) == []
  {
    C.ConstructorSuffices(size, s.max);
    C.ConstructedSized(s, size);
    R.InitInv(s, C.InitialCount(size, s.max), C.InitialSize(size, s.max));
  }

  /** Where the front element was found. */
  datatype Place = Nowhere | InFront | InNext

  class ReaderWriterQueue<T(==, !new)> {
    const max: nat
    ghost const asked: nat           // how many elements the queue was constructed for
    var blocks: seq<Block<T>>        // every block, by number
    var frontBlock: Block<T>
    var tailBlock: Block<T>
    var largest: nat
    var p: M.Producer<T>             // the producer's registers
    var c: M.Consumer<T>             // the consumer's registers
    ghost var model: M.State<T>      // the same as the machine sees it
    ghost var repr: set<object>      // the blocks and their storage
    ghost var told: seq<Fifo.Event<T>>   // every answer the producer's caller got
    ghost var heard: seq<Fifo.Event<T>>  // every answer the consumer's caller got

    constructor (max: nat, size: nat)
      requires size < W && C.MaxOk(max)
      ensures Mirrors() && fresh(repr) && C.Constructed(model, size)
      ensures this.max == max && asked == size && p == M.PIdle && c == M.CIdle
      ensures C.Fits(size) ==> Valid() && Contents() == []
      ensures told == [] && heard == []
    {
      var initialBlockCount, largestBlockSize := Layout(max, size);
      var made, storage := MakeRing<T>(initialBlockCount, largestBlockSize);
      this.max, asked := max, size;
      blocks, repr, frontBlock, tailBlock, largest := made, storage, made[0], made[0], largestBlockSize;
      p, c, told, heard := M.PIdle, M.CIdle, [], [];
      model := M.State(max, seq(initialBlockCount, i requires 0 <= i < initialBlockCount => M.InitialBlock<T>(initialBlockCount, largestBlockSize, i)),
                       0, 0, largestBlockSize, M.PIdle, M.CIdle, seq(initialBlockCount, i => i), 0, false, 0);
      new;
      if C.Fits(size) {
        InitGood(model, size);
        assert RanParts(model, asked, [], model, told, heard);
        assert RanSome(asked, model, told, heard);
      }
    }

    ghost predicate Known(b: Block<T>)
      reads this
    {
      Member(blocks, repr, b)
    }

    /** The fields are those of the machine's state. */
    ghost predicate Agrees()
      reads this
    {
      && model.max == max && model.largest == largest && model.p == p && model.c == c
      && frontBlock.id == model.frontBlock && tailBlock.id == model.tailBlock
      && Known(frontBlock) && Known(tailBlock)
    }

    /** Memory is what the machine's state says it is. */
    ghost predicate Mirrors()
      reads this, repr
    {
      (this !in repr && Agrees() && Tied(blocks, repr, model.blocks)) == true
    }

    /** Memory is where a run of the machine from its constructor leads, and the callers got that run's answers. */
    ghost predicate Valid()
      reads this, repr
    {
      (Mirrors() && Good(model, asked) && Ran(asked, model, told, heard)) == true
    }

    /** The contents: the blocks concatenated from the front block to the tail block. */
    ghost function Contents(): seq<T>
      reads this
    {
      M.Q(model)
    }

    ghost function TheBooks(): Books<T>
      reads this
    {
      Books(Fifo.Enqs(told), Fifo.Deqs(heard), Contents())
    }

    /** What was put is what was taken and what is there. */
    lemma Balances()
      requires Valid()
      ensures Accounts(TheBooks().put, TheBooks().taken, TheBooks().q)
    {
      RanBalances(asked, model, told, heard);
    }

    /** The producer has taken one step from s. */
    ghost predicate ProducerTook(s: M.State<T>, v: T, alloc: bool, memory: bool)
      reads this, repr
    {
      (Valid() && ProducerStepped(s, v, alloc, memory, model) && model.saw == s.saw) == true
    }

    /** The consumer has taken one step from s. */
    ghost predicate ConsumerTook(s: M.State<T>, op: M.Op)
      reads this, repr
    {
      (Valid() && ConsumerStepped(s, op, model) && model.seen == s.seen) == true
    }

    /** `(i + 1) & sizeMask`. */
    method Following(b: Block<T>, i: nat) returns (j: nat)
      requires Valid() && Known(b) && i < b.size
      ensures j == Next(b.size, i)
    {
      Read(blocks, repr, model.blocks, b.id);
      BlockIsOk(model, asked, b.id);
      j := b.NextIndex(i);
    }

    /** An update of block b alone, in memory and in the machine's state. */
    twostate lemma Updated(b: Block<T>)
      requires old(Tied(blocks, repr, model.blocks)) && blocks == old(blocks) && repr == old(repr) && Known(b)
      requires this !in repr && Agrees()
      requires forall x <- repr | x != b && x != b.data :: unchanged(x)
      requires b.id < |model.blocks| == |old(model.blocks)| && model.blocks == old(model.blocks)[b.id := model.blocks[b.id]]
      requires b.Is(model.blocks[b.id]) && Points(blocks, b.next, model.blocks[b.id].next)
      ensures Mirrors()
    {
      assert old(TiedParts(blocks, repr, model.blocks));
      forall i | 0 <= i < |blocks|
        ensures CellAt(blocks, repr, model.blocks, i)
      {
        assert old(CellAt(blocks, repr, model.blocks, i));
        assert i < b.id ==> OwnData(blocks, i, b.id);
        assert i > b.id ==> OwnData(blocks, b.id, i);
      }
    }

    /** One more block. */
    twostate lemma Grown(new b: Block<T>)
      requires old(Tied(blocks, repr, model.blocks)) && b.id == |old(blocks)| && fresh(b) && fresh(b.data)
      requires forall x <- old(repr) :: unchanged(x)
      requires blocks == old(blocks) + [b] && repr == old(repr) + {b, b.data}
      requires b.next == null && b.Is(M.FreshBlock(b.size))
      ensures Tied(blocks, repr, old(model.blocks) + [M.FreshBlock(b.size)])
    {
      assert old(TiedParts(blocks, repr, model.blocks));
      var ms := old(model.blocks) + [M.FreshBlock(b.size)];
      forall i | 0 <= i < |blocks|
        ensures CellAt(blocks, repr, ms, i)
      {
        if i < |old(blocks)| {
          assert old(CellAt(blocks, repr, model.blocks, i));
        }
      }
      forall i, j | 0 <= i < j < |blocks|
        ensures OwnData(blocks, i, j)
      {
        assert old(CellAt(blocks, repr, model.blocks, i));
        if j < |old(blocks)| {
          assert OwnData(old(blocks), i, j);
        }
      }
    }

    /** A fresh block joins the others, linked to none. */
    method AddBlock(size: nat) returns (newBlock: Block<T>)
      requires this !in repr && Tied(blocks, repr, model.blocks)
      modifies this`blocks, this`repr, this`largest
      ensures OneMore(old(blocks), blocks)
      ensures Tied(blocks, repr, model.blocks + [M.FreshBlock(size)]) && this !in repr && largest == size
      ensures newBlock.id == |old(blocks)| && Known(newBlock)
      ensures fresh(repr - old(repr)) && (forall x: Block<T> | Member(old(blocks), old(repr), x) :: Member(blocks, repr, x))
    {
      newBlock := new Block<T>(|blocks|, size);
      MemberGrows(blocks, repr, newBlock);
      blocks, repr, largest := blocks + [newBlock], repr + {newBlock, newBlock.data}, size;
      Grown(newBlock);
    }

    method BlockAt(i: int) returns (b: Block<T>)
      requires Valid() && 0 <= i < |model.blocks|
      ensures Known(b) && b.id == i && b.size == model.blocks[i].size
    {
      Read(blocks, repr, model.blocks, i);
      b := blocks[i];
    }

    // -------------------------------------------------------------- the producer's accesses

    method LoadTailBlock(v: T, alloc: bool) returns (b: Block<T>)
      requires Valid() && p.PIdle?
      modifies this`p, this`model
      ensures ProducerTook(old(model), v, alloc, true) && blocks == old(blocks)
      ensures b == tailBlock && p == M.PLoadTail(v, alloc, b.id)
      ensures Contents() == old(Contents())
    {
      ProducerSilently(told, heard, model, asked, v, alloc, true);
      b := tailBlock;
      p, model := M.PLoadTail(v, alloc, b.id), M.ProducerStep(model, v, alloc, true);
    }

    method LoadTail(v: T, alloc: bool, b: Block<T>) returns (blockTail: nat, nextBlockTail: nat, room: bool)
      requires Valid() && p == M.PLoadTail(v, alloc, b.id) && Known(b)
      modifies this`p, this`model
      ensures ProducerTook(old(model), v, alloc, true) && blocks == old(blocks)
      ensures blockTail < b.size && nextBlockTail == Next(b.size, blockTail)
      ensures p == if room then M.PConstruct(v, b.id, blockTail) else M.PLoadFront(v, alloc, b.id, blockTail)
      ensures Contents() == old(Contents())
    {
      ProducerSilently(told, heard, model, asked, v, alloc, true);
      Read(blocks, repr, model.blocks, b.id);
      blockTail := b.tail;
      nextBlockTail := Following(b, blockTail);
      room := nextBlockTail != b.localFront;
      p, model := if room then M.PConstruct(v, b.id, blockTail) else M.PLoadFront(v, alloc, b.id, blockTail), M.ProducerStep(model, v, alloc, true);
    }

    /** When it still finds no room, it has met a full block: `seen` is how much the queue held then. */
    method LoadFront(v: T, alloc: bool, b: Block<T>, blockTail: nat, nextBlockTail: nat) returns (room: bool)
      requires Valid() && p == M.PLoadFront(v, alloc, b.id, blockTail) && Known(b)
      requires blockTail < b.size && nextBlockTail == Next(b.size, blockTail)
      modifies this`p, this`model, b`localFront
      ensures ProducerTook(old(model), v, alloc, true) && blocks == old(blocks)
      ensures p == (if room then M.PConstruct(v, b.id, blockTail) else M.PLoadNext(v, alloc, b.id))
      ensures !room ==> model.seen == |Contents()|
      ensures Contents() == old(Contents())
    {
      ProducerSilently(told, heard, model, asked, v, alloc, true);
      Read(blocks, repr, model.blocks, b.id);
      b.localFront := b.front;
      room := nextBlockTail != b.localFront;
      p, model := if room then M.PConstruct(v, b.id, blockTail) else M.PLoadNext(v, alloc, b.id), M.ProducerStep(model, v, alloc, true);
      Updated(b);
      assert Mirrors();
    }

    method Construct(v: T, b: Block<T>, blockTail: nat)
      requires Valid() && p == M.PConstruct(v, b.id, blockTail) && Known(b)
      modifies this`p, this`model, b.data
      ensures ProducerTook(old(model), v, true, true) && blocks == old(blocks)
      ensures p == M.PStoreTail(v, b.id, blockTail)
      ensures Contents() == old(Contents())
    {
      ProducerSilently(told, heard, model, asked, v, true, true);
      Read(blocks, repr, model.blocks, b.id);
      b.data[blockTail] := Live(v);
      p, model := M.PStoreTail(v, b.id, blockTail), M.ProducerStep(model, v, true, true);
      Updated(b);
    }

    /** The element becomes part of the queue. */
    method StoreTail(v: T, b: Block<T>, blockTail: nat, nextBlockTail: nat)
      requires Valid() && p == M.PStoreTail(v, b.id, blockTail) && Known(b)
      requires blockTail < b.size && nextBlockTail == Next(b.size, blockTail)
      modifies this`p, this`model, this`told, b`tail
      ensures ProducerTook(old(model), v, true, true) && blocks == old(blocks)
      ensures p == M.PIdle
      ensures Contents() == old(Contents()) + [v] && told == old(told) + [Fifo.Enq(v)]
    {
      ProducerPuts(told, heard, model, asked, v);
      MoveTail(v, b, blockTail, nextBlockTail);
      told := told + [Fifo.Enq(v)];
    }

    method MoveTail(v: T, b: Block<T>, blockTail: nat, nextBlockTail: nat)
      requires Valid() && p == M.PStoreTail(v, b.id, blockTail) && Known(b) && M.ProducerSafe(model)
      requires blockTail < b.size && nextBlockTail == Next(b.size, blockTail)
      modifies this`p, this`model, b`tail
      ensures Mirrors() && p == M.PIdle && model == old(M.ProducerStep(model, v, true, true))
    {
      Read(blocks, repr, model.blocks, b.id);
      b.tail := nextBlockTail;
      p, model := M.PIdle, M.ProducerStep(model, v, true, true);
      Updated(b);
    }

    method LoadNext(v: T, alloc: bool, b: Block<T>) returns (next: Block<T>)
      requires Valid() && p == M.PLoadNext(v, alloc, b.id) && Known(b)
      modifies this`p, this`model
      ensures ProducerTook(old(model), v, alloc, true) && blocks == old(blocks)
      ensures Known(next) && p == M.PCompare(v, alloc, b.id, next.id)
      ensures Contents() == old(Contents()) && model.seen == old(model.seen)
    {
      ProducerSilently(told, heard, model, asked, v, alloc, true);
      Read(blocks, repr, model.blocks, b.id);
      NextIsKnown(model, asked, b.id);
      next := b.next;
      Read(blocks, repr, model.blocks, model.blocks[b.id].next);
      p, model := M.PCompare(v, alloc, b.id, next.id), M.ProducerStep(model, v, alloc, true);
    }

    /** There is no free block only when the queue holds, or held when its tail block was found full, what it was constructed for. */
    method CompareWithFront(v: T, alloc: bool, b: Block<T>, next: Block<T>) returns (free: bool)
      requires Valid() && p == M.PCompare(v, alloc, b.id, next.id) && Known(b) && Known(next)
      modifies this`p, this`model, this`told
      ensures ProducerTook(old(model), v, alloc, true) && blocks == old(blocks)
      ensures p == (if free then M.PReuse(v, b.id) else if alloc then M.PAlloc(v, b.id) else M.PIdle)
      ensures told == if !free && !alloc then old(told) + [Fifo.EnqFalse] else old(told)
      ensures !free ==> model.seen >= asked || |Contents()| >= asked
      ensures Contents() == old(Contents()) && model.seen == old(model.seen)
    {
      ProducerGoes(told, heard, model, asked, v, alloc, true);
      free := next != frontBlock;
      if !free {
        Refused(model, asked);
      }
      told := if !free && !alloc then told + [Fifo.EnqFalse] else told;
      p, model := if free then M.PReuse(v, b.id) else if alloc then M.PAlloc(v, b.id) else M.PIdle, M.ProducerStep(model, v, alloc, true);
    }

    method LoadNextAgain(v: T, b: Block<T>) returns (next: Block<T>)
      requires Valid() && p == M.PReuse(v, b.id) && Known(b)
      modifies this`p, this`model
      ensures ProducerTook(old(model), v, true, true) && blocks == old(blocks)
      ensures Known(next) && p == M.PReuseFront(v, next.id)
      ensures Contents() == old(Contents())
    {
      ProducerSilently(told, heard, model, asked, v, true, true);
      Read(blocks, repr, model.blocks, b.id);
      NextIsKnown(model, asked, b.id);
      next := b.next;
      Read(blocks, repr, model.blocks, model.blocks[b.id].next);
      p, model := M.PReuseFront(v, next.id), M.ProducerStep(model, v, true, true);
    }

    method LoadNextFront(v: T, b: Block<T>) returns (nextBlockFront: nat)
      requires Valid() && p == M.PReuseFront(v, b.id) && Known(b)
      modifies this`p, this`model, b`localFront
      ensures ProducerTook(old(model), v, true, true) && blocks == old(blocks)
      ensures p == M.PReuseTail(v, b.id, nextBlockFront)
      ensures Contents() == old(Contents())
    {
      ProducerSilently(told, heard, model, asked, v, true, true);
      Read(blocks, repr, model.blocks, b.id);
      nextBlockFront := b.front;
      b.localFront := nextBlockFront;
      p, model := M.PReuseTail(v, b.id, nextBlockFront), M.ProducerStep(model, v, true, true);
      Updated(b);
    }

    /** The assertion that the spare block is empty holds. */
    method LoadNextTail(v: T, b: Block<T>, nextBlockFront: nat) returns (nextBlockTail: nat)
      requires Valid() && p == M.PReuseTail(v, b.id, nextBlockFront) && Known(b)
      modifies this`p, this`model, b`localFront
      ensures ProducerTook(old(model), v, true, true) && blocks == old(blocks)
      ensures p == M.PReuseConstruct(v, b.id, nextBlockTail) && nextBlockFront == nextBlockTail
      ensures Contents() == old(Contents())
    {
      ProducerSilently(told, heard, model, asked, v, true, true);
      Read(blocks, repr, model.blocks, b.id);
      nextBlockTail := b.tail;
      assert nextBlockFront == nextBlockTail;
      b.localFront := nextBlockFront;
      p, model := M.PReuseConstruct(v, b.id, nextBlockTail), M.ProducerStep(model, v, true, true);
      Updated(b);
    }

    method ConstructInNext(v: T, b: Block<T>, nextBlockTail: nat)
      requires Valid() && p == M.PReuseConstruct(v, b.id, nextBlockTail) && Known(b)
      modifies this`p, this`model, b.data
      ensures ProducerTook(old(model), v, true, true) && blocks == old(blocks)
      ensures p == M.PReuseStore(v, b.id, nextBlockTail)
      ensures Contents() == old(Contents())
    {
      ProducerSilently(told, heard, model, asked, v, true, true);
      Read(blocks, repr, model.blocks, b.id);
      b.data[nextBlockTail] := Live(v);
      p, model := M.PReuseStore(v, b.id, nextBlockTail), M.ProducerStep(model, v, true, true);
      Updated(b);
    }

    method StoreNextTail(v: T, b: Block<T>, nextBlockTail: nat, newTail: nat)
      requires Valid() && p == M.PReuseStore(v, b.id, nextBlockTail) && Known(b)
      requires nextBlockTail < b.size && newTail == Next(b.size, nextBlockTail)
      modifies this`p, this`model, b`tail
      ensures ProducerTook(old(model), v, true, true) && blocks == old(blocks)
      ensures p == M.PPublish(v, b.id)
      ensures Contents() == old(Contents())
    {
      ProducerSilently(told, heard, model, asked, v, true, true);
      Read(blocks, repr, model.blocks, b.id);
      b.tail := newTail;
      p, model := M.PPublish(v, b.id), M.ProducerStep(model, v, true, true);
      Updated(b);
    }

    /** `make_block` when there is memory for it. */
    method Allocate(v: T, b: Block<T>) returns (newBlock: Block<T>)
      requires Valid() && p == M.PAlloc(v, b.id) && Known(b)
      modifies this`p, this`model, this`largest, this`blocks, this`repr
      ensures ProducerTook(old(model), v, true, true) && OneMore(old(blocks), blocks)
      ensures Known(newBlock) && p == M.PInit(v, b.id, newBlock.id)
      ensures fresh(repr - old(repr)) && (forall x: Block<T> | Member(old(blocks), old(repr), x) :: Member(blocks, repr, x))
      ensures Contents() == old(Contents())
    {
      ProducerGoes(told, heard, model, asked, v, true, true);
      newBlock := Enlarge(v, b);
    }

    method Enlarge(v: T, b: Block<T>) returns (newBlock: Block<T>)
      requires Valid() && p == M.PAlloc(v, b.id) && M.ProducerSafe(model)
      modifies this`p, this`model, this`largest, this`blocks, this`repr
      ensures Mirrors() && model == old(M.ProducerStep(model, v, true, true)) && OneMore(old(blocks), blocks)
      ensures Known(newBlock) && p == M.PInit(v, b.id, newBlock.id)
      ensures fresh(repr - old(repr)) && (forall x: Block<T> | Member(old(blocks), old(repr), x) :: Member(blocks, repr, x))
    {
      Count(blocks, repr, model.blocks);
      var newBlockSize := if largest >= max then largest else largest * 2;
      newBlock := AddBlock(newBlockSize);
      p, model := M.PInit(v, b.id, newBlock.id), M.ProducerStep(model, v, true, true);
      assert Tied(blocks, repr, model.blocks);
      assert Known(frontBlock) && Known(tailBlock);
      assert Agrees();
    }

    /** `make_block` when there is none. */
    method CannotAllocate(v: T, b: Block<T>)
      requires Valid() && p == M.PAlloc(v, b.id) && Known(b)
      modifies this`p, this`model, this`told
      ensures ProducerTook(old(model), v, true, false) && blocks == old(blocks)
      ensures p == M.PIdle && told == old(told) + [Fifo.EnqFalse]
      ensures Contents() == old(Contents())
    {
      ProducerGoes(told, heard, model, asked, v, true, false);
      p, told, model := M.PIdle, told + [Fifo.EnqFalse], M.ProducerStep(model, v, true, false);
    }

    method FillNew(v: T, b: Block<T>, newBlock: Block<T>)
      requires Valid() && p == M.PInit(v, b.id, newBlock.id) && Known(newBlock)
      modifies this`p, this`model, newBlock, newBlock.data
      ensures ProducerTook(old(model), v, true, true) && blocks == old(blocks)
      ensures p == M.PLinkNew(v, b.id, newBlock.id)
      ensures Contents() == old(Contents())
    {
      ProducerSilently(told, heard, model, asked, v, true, true);
      WriteNew(v, b, newBlock);
    }

    method WriteNew(v: T, b: Block<T>, newBlock: Block<T>)
      requires Valid() && p == M.PInit(v, b.id, newBlock.id) && Known(newBlock) && M.ProducerSafe(model)
      modifies this`p, this`model, newBlock, newBlock.data
      ensures Mirrors() && p == M.PLinkNew(v, b.id, newBlock.id) && model == old(M.ProducerStep(model, v, true, true))
    {
      Read(blocks, repr, model.blocks, newBlock.id);
      newBlock.data[0] := Live(v);
      assert newBlock.front == 0;
      newBlock.tail, newBlock.localTail := 1, 1;
      p, model := M.PLinkNew(v, b.id, newBlock.id), M.ProducerStep(model, v, true, true);
      Updated(newBlock);
    }

    method LinkNew(v: T, b: Block<T>, newBlock: Block<T>)
      requires Valid() && p == M.PLinkNew(v, b.id, newBlock.id) && Known(b) && Known(newBlock)
      modifies this`p, this`model, newBlock`next
      ensures ProducerTook(old(model), v, true, true) && blocks == old(blocks)
      ensures p == M.PLinkTail(v, b.id, newBlock.id)
      ensures Contents() == old(Contents())
    {
      ProducerSilently(told, heard, model, asked, v, true, true);
      SetNewNext(v, b, newBlock);
    }

    method SetNewNext(v: T, b: Block<T>, newBlock: Block<T>)
      requires Valid() && p == M.PLinkNew(v, b.id, newBlock.id) && Known(b) && Known(newBlock) && M.ProducerSafe(model)
      modifies this`p, this`model, newBlock`next
      ensures Mirrors() && p == M.PLinkTail(v, b.id, newBlock.id) && model == old(M.ProducerStep(model, v, true, true))
    {
      Read(blocks, repr, model.blocks, b.id);
      Read(blocks, repr, model.blocks, newBlock.id);
      newBlock.next := b.next;
      p, model := M.PLinkTail(v, b.id, newBlock.id), M.ProducerStep(model, v, true, true);
      Updated(newBlock);
    }

    method LinkTail(v: T, b: Block<T>, newBlock: Block<T>)
      requires Valid() && p == M.PLinkTail(v, b.id, newBlock.id) && Known(b) && Known(newBlock)
      modifies this`p, this`model, b`next
      ensures ProducerTook(old(model), v, true, true) && blocks == old(blocks)
      ensures p == M.PPublish(v, newBlock.id)
      ensures Contents() == old(Contents())
    {
      ProducerSilently(told, heard, model, asked, v, true, true);
      SetNext(v, b, newBlock);
    }

    method SetNext(v: T, b: Block<T>, newBlock: Block<T>)
      requires Valid() && p == M.PLinkTail(v, b.id, newBlock.id) && Known(b) && Known(newBlock) && M.ProducerSafe(model)
      modifies this`p, this`model, b`next
      ensures Mirrors() && p == M.PPublish(v, newBlock.id) && model == old(M.ProducerStep(model, v, true, true))
    {
      Read(blocks, repr, model.blocks, b.id);
      b.next := newBlock;
      p, model := M.PPublish(v, newBlock.id), M.ProducerStep(model, v, true, true);
      Updated(b);
    }

    /** The element, and the block it is in, become part of the queue. */
    method Publish(v: T, b: Block<T>)
      requires Valid() && p == M.PPublish(v, b.id) && Known(b)
      modifies this`p, this`model, this`told, this`tailBlock
      ensures ProducerTook(old(model), v, true, true) && blocks == old(blocks)
      ensures p == M.PIdle
      ensures Contents() == old(Contents()) + [v] && told == old(told) + [Fifo.Enq(v)]
    {
      ProducerPuts(told, heard, model, asked, v);
      SetTailBlock(v, b);
      told := told + [Fifo.Enq(v)];
    }

    method SetTailBlock(v: T, b: Block<T>)
      requires Valid() && p == M.PPublish(v, b.id) && Known(b) && M.ProducerSafe(model)
      modifies this`p, this`model, this`tailBlock
      ensures Mirrors() && p == M.PIdle && model == old(M.ProducerStep(model, v, true, true))
    {
      tailBlock := b;
      p, model := M.PIdle, M.ProducerStep(model, v, true, true);
    }

    // -------------------------------------------------------------- the consumer's accesses

    method LoadFrontBlock(op: M.Op) returns (b: Block<T>)
      requires Valid() && c.CIdle?
      modifies this`c, this`model
      ensures ConsumerTook(old(model), op)
      ensures b == frontBlock && c == M.CLoadFront(op, b.id) && !model.saw
      ensures Contents() == old(Contents())
    {
      ConsumerSilently(told, heard, model, asked, op);
      b := frontBlock;
      c, model := M.CLoadFront(op, b.id), M.ConsumerStep(model, op);
    }

    method LoadFrontAsConsumer(op: M.Op, b: Block<T>) returns (blockFront: nat, ready: bool)
      requires Valid() && c == M.CLoadFront(op, b.id) && Known(b)
      modifies this`c, this`model
      ensures ConsumerTook(old(model), op)
      ensures c == if ready then M.CTake(op, b.id, blockFront) else M.CLoadTail(op, b.id, blockFront)
      ensures Contents() == old(Contents()) && model.saw == old(model.saw)
    {
      ConsumerSilently(told, heard, model, asked, op);
      Read(blocks, repr, model.blocks, b.id);
      blockFront := b.front;
      ready := blockFront != b.localTail;
      c, model := if ready then M.CTake(op, b.id, blockFront) else M.CLoadTail(op, b.id, blockFront), M.ConsumerStep(model, op);
    }

    /** The load at which an empty queue is seen to be empty. */
    method LoadTailAsConsumer(op: M.Op, b: Block<T>, blockFront: nat) returns (ready: bool)
      requires Valid() && c == M.CLoadTail(op, b.id, blockFront) && Known(b)
      modifies this`c, this`model, b`localTail
      ensures ConsumerTook(old(model), op)
      ensures c == (if ready then M.CTake(op, b.id, blockFront) else M.CLoadTailBlock(op, b.id))
      ensures model.saw ==> old(model.saw) || Contents() == []
      ensures Contents() == old(Contents())
    {
      ConsumerSilently(told, heard, model, asked, op);
      Read(blocks, repr, model.blocks, b.id);
      b.localTail := b.tail;
      ready := blockFront != b.localTail;
      c, model := if ready then M.CTake(op, b.id, blockFront) else M.CLoadTailBlock(op, b.id), M.ConsumerStep(model, op);
      Updated(b);
      assert Mirrors();
    }

    /** The consumer gives up only if it has seen the queue empty. */
    method CompareWithTail(op: M.Op, b: Block<T>) returns (another: bool)
      requires Valid() && c == M.CLoadTailBlock(op, b.id) && Known(b)
      modifies this`c, this`model, this`heard
      ensures ConsumerTook(old(model), op)
      ensures c == (if another then M.CAgainBlock(op) else M.CIdle)
      ensures !another ==> old(model.saw)
      ensures heard == if another then old(heard) else old(heard) + [Fifo.DeqFalse]
      ensures Contents() == old(Contents())
    {
      ConsumerGoes(told, heard, model, asked, op);
      another := b != tailBlock;
      if !another {
        EmptyAnswer(model, asked);
        heard := heard + [Fifo.DeqFalse];
      }
      c, model := if another then M.CAgainBlock(op) else M.CIdle, M.ConsumerStep(model, op);
    }

    method LoadFrontBlockAgain(op: M.Op) returns (b: Block<T>)
      requires Valid() && c == M.CAgainBlock(op)
      modifies this`c, this`model
      ensures ConsumerTook(old(model), op)
      ensures b == frontBlock && c == M.CAgainTail(op, b.id)
      ensures Contents() == old(Contents())
    {
      ConsumerSilently(told, heard, model, asked, op);
      b := frontBlock;
      c, model := M.CAgainTail(op, b.id), M.ConsumerStep(model, op);
    }

    method LoadTailAgain(op: M.Op, b: Block<T>) returns (blockTail: nat)
      requires Valid() && c == M.CAgainTail(op, b.id) && Known(b)
      modifies this`c, this`model, b`localTail
      ensures ConsumerTook(old(model), op)
      ensures c == M.CAgainFront(op, b.id, blockTail)
      ensures Contents() == old(Contents())
    {
      ConsumerSilently(told, heard, model, asked, op);
      Read(blocks, repr, model.blocks, b.id);
      b.localTail := b.tail;
      blockTail := b.localTail;
      c, model := M.CAgainFront(op, b.id, blockTail), M.ConsumerStep(model, op);
      Updated(b);
    }

    method LoadFrontAgain(op: M.Op, b: Block<T>, blockTail: nat) returns (blockFront: nat, ready: bool)
      requires Valid() && c == M.CAgainFront(op, b.id, blockTail) && Known(b)
      modifies this`c, this`model
      ensures ConsumerTook(old(model), op)
      ensures c == if ready then M.CTake(op, b.id, blockFront) else M.CLoadNext(op, b.id)
      ensures Contents() == old(Contents())
    {
      ConsumerSilently(told, heard, model, asked, op);
      Read(blocks, repr, model.blocks, b.id);
      blockFront := b.front;
      ready := blockFront != blockTail;
      c, model := if ready then M.CTake(op, b.id, blockFront) else M.CLoadNext(op, b.id), M.ConsumerStep(model, op);
    }

    method LoadNextAsConsumer(op: M.Op, b: Block<T>) returns (next: Block<T>)
      requires Valid() && c == M.CLoadNext(op, b.id) && Known(b)
      modifies this`c, this`model
      ensures ConsumerTook(old(model), op)
      ensures Known(next) && c == M.CNextFront(op, next.id)
      ensures Contents() == old(Contents())
    {
      ConsumerSilently(told, heard, model, asked, op);
      Read(blocks, repr, model.blocks, b.id);
      NextIsKnownToConsumer(model, asked, b.id);
      next := b.next;
      Read(blocks, repr, model.blocks, model.blocks[b.id].next);
      c, model := M.CNextFront(op, next.id), M.ConsumerStep(model, op);
    }

    method LoadNextFrontAsConsumer(op: M.Op, b: Block<T>) returns (nextBlockFront: nat)
      requires Valid() && c == M.CNextFront(op, b.id) && Known(b)
      modifies this`c, this`model
      ensures ConsumerTook(old(model), op)
      ensures c == M.CNextTail(op, b.id, nextBlockFront)
      ensures Contents() == old(Contents())
    {
      ConsumerSilently(told, heard, model, asked, op);
      Read(blocks, repr, model.blocks, b.id);
      nextBlockFront := b.front;
      c, model := M.CNextTail(op, b.id, nextBlockFront), M.ConsumerStep(model, op);
    }

    /** The assertion that the next block is not empty holds. */
    method LoadNextTailAsConsumer(op: M.Op, b: Block<T>, nextBlockFront: nat) returns (nextBlockTail: nat)
      requires Valid() && !op.Look? && c == M.CNextTail(op, b.id, nextBlockFront) && Known(b)
      modifies this`c, this`model, b`localTail
      ensures ConsumerTook(old(model), op)
      ensures c == M.CAdvance(op, b.id, nextBlockFront) && nextBlockFront != nextBlockTail
      ensures Contents() == old(Contents())
    {
      ConsumerGoes(told, heard, model, asked, op);
      Read(blocks, repr, model.blocks, b.id);
      b.localTail := b.tail;
      nextBlockTail := b.localTail;
      assert nextBlockFront != nextBlockTail;
      c, model := M.CAdvance(op, b.id, nextBlockFront), M.ConsumerStep(model, op);
      Updated(b);
    }

    /** The same for `peek`, which stays where it is. */
    method PeekNext(b: Block<T>, nextBlockFront: nat) returns (v: T)
      requires Valid() && c == M.CNextTail(M.Look, b.id, nextBlockFront) && Known(b)
      modifies this`c, this`model, this`heard
      ensures ConsumerTook(old(model), M.Look)
      ensures c == M.CIdle && Contents() != [] && Contents()[0] == v && heard == old(heard) + [Fifo.Peek(v)]
      ensures Contents() == old(Contents())
    {
      ConsumerGoes(told, heard, model, asked, M.Look);
      Read(blocks, repr, model.blocks, b.id);
      assert nextBlockFront != b.tail;
      v := b.data[nextBlockFront].value;
      c, heard, model := M.CIdle, heard + [Fifo.Peek(v)], M.ConsumerStep(model, M.Look);
    }

    /** The front block is given up to the producer. */
    method StoreFrontBlock(op: M.Op, b: Block<T>, nextBlockFront: nat)
      requires Valid() && c == M.CAdvance(op, b.id, nextBlockFront) && Known(b)
      modifies this`c, this`model, this`frontBlock
      ensures ConsumerTook(old(model), op)
      ensures frontBlock == b && c == M.CTake(op, b.id, nextBlockFront)
      ensures Contents() == old(Contents())
    {
      ConsumerSilently(told, heard, model, asked, op);
      frontBlock := b;
      c, model := M.CTake(op, b.id, nextBlockFront), M.ConsumerStep(model, op);
    }

    method PeekFront(b: Block<T>, blockFront: nat) returns (v: T)
      requires Valid() && c == M.CTake(M.Look, b.id, blockFront) && Known(b)
      modifies this`c, this`model, this`heard
      ensures ConsumerTook(old(model), M.Look)
      ensures c == M.CIdle && Contents() != [] && Contents()[0] == v && heard == old(heard) + [Fifo.Peek(v)]
      ensures Contents() == old(Contents())
    {
      ConsumerGoes(told, heard, model, asked, M.Look);
      Read(blocks, repr, model.blocks, b.id);
      v := b.data[blockFront].value;
      c, heard, model := M.CIdle, heard + [Fifo.Peek(v)], M.ConsumerStep(model, M.Look);
    }

    method MoveOut(b: Block<T>, blockFront: nat) returns (v: T)
      requires Valid() && c == M.CTake(M.Dequeue, b.id, blockFront) && Known(b)
      modifies this`c, this`model, b.data
      ensures ConsumerTook(old(model), M.Dequeue)
      ensures c == M.CDestroy(b.id, blockFront, v)
      ensures Contents() == old(Contents())
    {
      ConsumerGoes(told, heard, model, asked, M.Dequeue);
      Read(blocks, repr, model.blocks, b.id);
      v := b.data[blockFront].value;
      b.data[blockFront] := Moved;
      c, model := M.CDestroy(b.id, blockFront, v), M.ConsumerStep(model, M.Dequeue);
      Updated(b);
    }

    method DestroyMoved(b: Block<T>, blockFront: nat, v: T)
      requires Valid() && c == M.CDestroy(b.id, blockFront, v) && Known(b)
      modifies this`c, this`model, b.data
      ensures ConsumerTook(old(model), M.Dequeue)
      ensures c == M.CStoreFront(b.id, blockFront, v)
      ensures Contents() == old(Contents())
    {
      ConsumerSilently(told, heard, model, asked, M.Dequeue);
      Read(blocks, repr, model.blocks, b.id);
      b.data[blockFront] := Raw;
      c, model := M.CStoreFront(b.id, blockFront, v), M.ConsumerStep(model, M.Dequeue);
      Updated(b);
    }

    /** `pop` destroys the element where it is. */
    method DestroyFront(b: Block<T>, blockFront: nat) returns (ghost v: T)
      requires Valid() && c == M.CTake(M.Discard, b.id, blockFront) && Known(b)
      modifies this`c, this`model, b.data
      ensures ConsumerTook(old(model), M.Discard)
      ensures c == M.CStoreFront(b.id, blockFront, v)
      ensures Contents() == old(Contents())
    {
      ConsumerGoes(told, heard, model, asked, M.Discard);
      Read(blocks, repr, model.blocks, b.id);
      v := b.data[blockFront].value;
      c, model := M.CStoreFront(b.id, blockFront, b.data[blockFront].value), M.ConsumerStep(model, M.Discard);
      b.data[blockFront] := Raw;
      Updated(b);
    }

    /** The oldest element leaves the queue. */
    method StoreFront(b: Block<T>, blockFront: nat, newFront: nat, ghost v: T)
      requires Valid() && c == M.CStoreFront(b.id, blockFront, v) && Known(b)
      requires blockFront < b.size && newFront == Next(b.size, blockFront)
      modifies this`c, this`model, this`heard, b`front
      ensures ConsumerTook(old(model), M.Dequeue)
      ensures c == M.CIdle
      ensures old(Contents()) == [v] + Contents() && heard == old(heard) + [Fifo.Deq(v)]
    {
      ConsumerTakes(told, heard, model, asked);
      GiveUpSlot(b, blockFront, newFront, v);
      heard := heard + [Fifo.Deq(v)];
    }

    method GiveUpSlot(b: Block<T>, blockFront: nat, newFront: nat, ghost v: T)
      requires Valid() && c == M.CStoreFront(b.id, blockFront, v) && Known(b) && M.ConsumerSafe(model)
      requires blockFront < b.size && newFront == Next(b.size, blockFront)
      modifies this`c, this`model, b`front
      ensures Mirrors() && c == M.CIdle && model == old(M.ConsumerStep(model, M.Dequeue))
    {
      Read(blocks, repr, model.blocks, b.id);
      b.front := newFront;
      c, model := M.CIdle, M.ConsumerStep(model, M.Dequeue);
      Updated(b);
    }

    // -------------------------------------------------------------- the other thread

    /** One step of the consumer, wherever it stands; an idle one begins op. */
    method ConsumerMoves(op: M.Op)
      requires Valid()
      modifies this`c, this`frontBlock, this`model, this`heard, repr
      ensures Valid() && Remains(Contents(), old(Contents())) && model.seen == old(model.seen)
    {
      ConsumerPointers(model, asked);
      match c {
        case CIdle => var _ := LoadFrontBlock(op);
        case CLoadFront(o, fb) =>
          var block := BlockAt(fb);
          var _, _ := LoadFrontAsConsumer(o, block);
        case CLoadTail(o, fb, bf) =>
          var block := BlockAt(fb);
          var _ := LoadTailAsConsumer(o, block, bf);
        case CLoadTailBlock(o, fb) =>
          var block := BlockAt(fb);
          var _ := CompareWithTail(o, block);
        case CAgainBlock(o) => var _ := LoadFrontBlockAgain(o);
        case CAgainTail(o, fb) =>
          var block := BlockAt(fb);
          var _ := LoadTailAgain(o, block);
        case CAgainFront(o, fb, bt) =>
          var block := BlockAt(fb);
          var _, _ := LoadFrontAgain(o, block, bt);
        case CLoadNext(o, fb) =>
          var block := BlockAt(fb);
          var _ := LoadNextAsConsumer(o, block);
        case _ => ConsumerMovesOn();
      }
    }

    method ConsumerMovesOn()
      requires Valid()
      requires c.CNextFront? || c.CNextTail? || c.CAdvance? || c.CTake? || c.CDestroy? || c.CStoreFront?
      modifies this`c, this`frontBlock, this`model, this`heard, repr
      ensures Valid() && Remains(Contents(), old(Contents())) && model.seen == old(model.seen)
    {
      ConsumerPointers(model, asked);
      match c {
        case CNextFront(o, nb) =>
          var block := BlockAt(nb);
          var _ := LoadNextFrontAsConsumer(o, block);
        case CNextTail(o, nb, nf) =>
          var block := BlockAt(nb);
          if o.Look? {
            var _ := PeekNext(block, nf);
          } else {
            var _ := LoadNextTailAsConsumer(o, block, nf);
          }
        case CAdvance(o, nb, nf) =>
          var block := BlockAt(nb);
          StoreFrontBlock(o, block, nf);
        case CTake(o, b, f) =>
          var block := BlockAt(b);
          if o.Look? {
            var _ := PeekFront(block, f);
          } else if o.Dequeue? {
            var _ := MoveOut(block, f);
          } else {
            var _ := DestroyFront(block, f);
          }
        case CDestroy(b, f, v) =>
          var block := BlockAt(b);
          DestroyMoved(block, f, v);
        case CStoreFront(b, f, v) =>
          var block := BlockAt(b);
          var newFront := Following(block, f);
          StoreFront(block, f, newFront, v);
      }
    }

    /** One step of the producer, wherever it stands; an idle one begins an enqueue of v. */
    method ProducerMoves(v: T, alloc: bool, memory: bool)
      requires Valid()
      modifies this`p, this`largest, this`blocks, this`repr, this`tailBlock, this`model, this`told, repr
      ensures Valid() && old(Contents()) <= Contents() && model.saw == old(model.saw)
      ensures fresh(repr - old(repr)) && (forall x: Block<T> | Member(old(blocks), old(repr), x) :: Member(blocks, repr, x))
    {
      ProducerPointers(model, asked);
      match p {
        case PIdle => var _ := LoadTailBlock(v, alloc);
        case PLoadTail(x, al, tb) =>
          var block := BlockAt(tb);
          var _, _, _ := LoadTail(x, al, block);
        case PLoadFront(x, al, tb, bt) =>
          var block := BlockAt(tb);
          var nextBlockTail := Following(block, bt);
          var _ := LoadFront(x, al, block, bt, nextBlockTail);
        case PConstruct(_, _, _) => ProducerStores();
        case PStoreTail(_, _, _) => ProducerStores();
        case PAlloc(_, _) => ProducerGrows(memory);
        case PInit(_, _, _) => ProducerLinks();
        case PLinkNew(_, _, _) => ProducerLinks();
        case PLinkTail(_, _, _) => ProducerLinks();
        case _ => ProducerMovesOn();
      }
    }

    method ProducerMovesOn()
      requires Valid()
      requires p.PReuse? || p.PReuseFront? || p.PReuseTail? || p.PReuseConstruct? || p.PReuseStore?
            || p.PPublish? || p.PLoadNext? || p.PCompare?
      modifies this`p, this`tailBlock, this`model, this`told, repr
      ensures Valid() && old(Contents()) <= Contents() && model.saw == old(model.saw)
    {
      ProducerPointers(model, asked);
      match p {
        case PLoadNext(x, al, tb) =>
          var block := BlockAt(tb);
          var _ := LoadNext(x, al, block);
        case PCompare(x, al, tb, nx) =>
          var block := BlockAt(tb);
          var other := BlockAt(nx);
          var _ := CompareWithFront(x, al, block, other);
        case PReuse(x, tb) =>
          var block := BlockAt(tb);
          var _ := LoadNextAgain(x, block);
        case PReuseFront(x, nb) =>
          var block := BlockAt(nb);
          var _ := LoadNextFront(x, block);
        case PReuseTail(x, nb, nf) =>
          var block := BlockAt(nb);
          var _ := LoadNextTail(x, block, nf);
        case PReuseConstruct(x, nb, nt) =>
          var block := BlockAt(nb);
          ConstructInNext(x, block, nt);
        case PReuseStore(x, nb, nt) =>
          var block := BlockAt(nb);
          var newTail := Following(block, nt);
          StoreNextTail(x, block, nt, newTail);
        case PPublish(x, nb) =>
          var block := BlockAt(nb);
          Publish(x, block);
      }
    }

    method ProducerStores()
      requires Valid() && (p.PConstruct? || p.PStoreTail?)
      modifies this`p, this`model, this`told, repr
      ensures Valid() && old(Contents()) <= Contents() && model.saw == old(model.saw)
    {
      ProducerPointers(model, asked);
      match p {
        case PConstruct(x, tb, bt) =>
          var block := BlockAt(tb);
          Construct(x, block, bt);
        case PStoreTail(x, tb, bt) =>
          var block := BlockAt(tb);
          var nextBlockTail := Following(block, bt);
          StoreTail(x, block, bt, nextBlockTail);
      }
    }

    /** `make_block`, if there is memory. */
    method ProducerGrows(memory: bool)
      requires Valid() && p.PAlloc?
      modifies this`p, this`largest, this`blocks, this`repr, this`model, this`told, repr
      ensures Valid() && old(Contents()) <= Contents() && model.saw == old(model.saw)
      ensures fresh(repr - old(repr)) && (forall x: Block<T> | Member(old(blocks), old(repr), x) :: Member(blocks, repr, x))
    {
      ProducerPointers(model, asked);
      var block := BlockAt(p.tb);
      if memory {
        var _ := Allocate(p.v, block);
      } else {
        CannotAllocate(p.v, block);
      }
    }

    method ProducerLinks()
      requires Valid() && (p.PInit? || p.PLinkNew? || p.PLinkTail?)
      modifies this`p, this`tailBlock, this`model, this`told, repr
      ensures Valid() && old(Contents()) <= Contents() && model.saw == old(model.saw)
    {
      ProducerPointers(model, asked);
      match p {
        case PInit(x, tb, nb) =>
          var block := BlockAt(tb);
          var other := BlockAt(nb);
          FillNew(x, block, other);
        case PLinkNew(x, tb, nb) =>
          var block := BlockAt(tb);
          var other := BlockAt(nb);
          LinkNew(x, block, other);
        case PLinkTail(x, tb, nb) =>
          var block := BlockAt(tb);
          var other := BlockAt(nb);
          LinkTail(x, block, other);
      }
    }

    /** The consumer runs for any number of steps: of `was` and what came after it, it leaves the newest. */
    method ConsumerRuns(ghost was: seq<T>)
      requires Valid() && Remains(Contents(), was)
      modifies this`c, this`frontBlock, this`model, this`heard, repr
      ensures Valid() && Remains(Contents(), was) && model.seen == old(model.seen)
    {
      var n: nat := *;
      while n > 0
        invariant Valid() && Remains(Contents(), was) && model.seen == old(model.seen)
      {
        var op: M.Op := *;
        ghost var before := Contents();
        ConsumerMoves(op);
        RemainsTrans(Contents(), before, was);
        n := n - 1;
      }
    }

    /** The producer runs for any number of steps, enqueueing what it likes behind `was`. */
    method ProducerRuns(ghost was: seq<T>)
      requires Valid() && was <= Contents()
      modifies this, repr
      ensures Valid() && was <= Contents() && heard == old(heard)
      ensures c == old(c) && frontBlock == old(frontBlock) && model.saw == old(model.saw)
      ensures fresh(repr - old(repr)) && (forall x: Block<T> | Member(old(blocks), old(repr), x) :: Member(blocks, repr, x))
    {
      var n: nat := *;
      while n > 0
        invariant Valid() && was <= Contents() && heard == old(heard)
        invariant c == old(c) && frontBlock == old(frontBlock) && model.saw == old(model.saw)
        invariant fresh(repr - old(repr)) && (forall x: Block<T> | Member(old(blocks), old(repr), x) :: Member(blocks, repr, x))
      {
        var next: seq<T>, alloc: bool, memory: bool := *, *, *;
        if next != [] {
          ProducerMoves(next[0], alloc, memory);
        }
        n := n - 1;
      }
    }

    // -------------------------------------------------------------- enqueueing

    /**
     `inner_enqueue`. A success puts the element behind everything that was there, and a failure puts
     nothing; meanwhile the consumer takes `gone`, some of the oldest elements, and the rest is still there.
     It fails, or adds a block, only if the queue held at least what it was constructed for; it does not
     fail with leave to allocate and memory.
     */
    method InnerEnqueue(v: T, alloc: bool, memory: bool) returns (ok: bool, ghost gone: seq<T>)
      requires Valid() && p.PIdle?
      modifies this, repr
      ensures Valid() && p.PIdle?
      ensures told == old(told) + [Told(v, ok)]
      ensures Exchanged(old(TheBooks()), TheBooks(), if ok then [v] else [], gone)
      ensures !ok ==> |old(Contents())| >= asked && !(alloc && memory)
      ensures blocks == old(blocks) || (alloc && memory && |old(Contents())| >= asked && OneMore(old(blocks), blocks))
      ensures fresh(repr - old(repr))
    {
      Balances();
      ghost var ins;
      ok, ins := EnqueueSomewhere(v, alloc, memory, Contents());
      Balances();
      ToldPut(old(told), v, ok);
      gone := WhatWent(old(TheBooks()), TheBooks(), ins);
    }

    /** The body of `inner_enqueue`. */
    method EnqueueSomewhere(v: T, alloc: bool, memory: bool, ghost was: seq<T>) returns (ok: bool, ghost ins: seq<T>)
      requires Valid() && p.PIdle? && Contents() == was
      modifies this, repr
      ensures Valid() && p.PIdle? && ins == if ok then [v] else []
      ensures Remains(Contents(), was + ins) && told == old(told) + [Told(v, ok)]
      ensures !ok ==> |was| >= asked && !(alloc && memory)
      ensures blocks == old(blocks) || (alloc && memory && |was| >= asked && OneMore(old(blocks), blocks))
      ensures fresh(repr - old(repr))
    {
      var b, blockTail, nextBlockTail, room := FindRoom(v, alloc, was);
      if room {
        EnqueueHere(v, b, blockTail, nextBlockTail, was);
        return true, [v];
      }
      ok, ins := EnqueueElsewhere(v, alloc, memory, b, was);
    }

    /** Lines 571-641: the tail block is full. */
    method EnqueueElsewhere(v: T, alloc: bool, memory: bool, b: Block<T>, ghost was: seq<T>) returns (ok: bool, ghost ins: seq<T>)
      requires Valid() && p == M.PLoadNext(v, alloc, b.id) && Known(b) && Remains(Contents(), was) && model.seen <= |was|
      modifies this, repr
      ensures Valid() && p.PIdle? && ins == if ok then [v] else []
      ensures Remains(Contents(), was + ins) && told == old(told) + [Told(v, ok)]
      ensures !ok ==> |was| >= asked && !(alloc && memory)
      ensures blocks == old(blocks) || (alloc && memory && |was| >= asked && OneMore(old(blocks), blocks))
      ensures fresh(repr - old(repr))
    {
      var free := SeekSpare(v, alloc, b, was);
      if free {
        EnqueueInSpare(v, b, was);
        return true, [v];
      } else if !alloc {
        assert was + [] == was;
        return false, [];
      }
      ok, ins := EnqueueInNew(v, b, memory, was);
    }

    /** Lines 552-557: whether the tail block has room. If not, the queue held `model.seen` elements. */
    method FindRoom(v: T, alloc: bool, ghost was: seq<T>) returns (b: Block<T>, blockTail: nat, nextBlockTail: nat, room: bool)
      requires Valid() && p.PIdle? && Remains(Contents(), was)
      modifies this`p, this`c, this`frontBlock, this`model, this`heard, repr
      ensures Valid() && Known(b) && Remains(Contents(), was)
      ensures blockTail < b.size && nextBlockTail == Next(b.size, blockTail)
      ensures p == if room then M.PConstruct(v, b.id, blockTail) else M.PLoadNext(v, alloc, b.id)
      ensures !room ==> model.seen <= |was|
    {
      b := LoadTailBlock(v, alloc);
      ConsumerRuns(was);
      blockTail, nextBlockTail, room := LoadTail(v, alloc, b);
      ConsumerRuns(was);
      if !room {
        room := LoadFront(v, alloc, b, blockTail, nextBlockTail);
        ConsumerRuns(was);
      }
    }

    /** Lines 560-568. */
    method EnqueueHere(v: T, b: Block<T>, blockTail: nat, nextBlockTail: nat, ghost was: seq<T>)
      requires Valid() && p == M.PConstruct(v, b.id, blockTail) && Known(b) && Remains(Contents(), was)
      requires blockTail < b.size && nextBlockTail == Next(b.size, blockTail)
      modifies this`p, this`c, this`frontBlock, this`model, this`told, this`heard, repr
      ensures Valid() && p.PIdle? && Remains(Contents(), was + [v]) && told == old(told) + [Fifo.Enq(v)]
    {
      Construct(v, b, blockTail);
      ConsumerRuns(was);
      RemainsAppend(Contents(), was, v);
      StoreTail(v, b, blockTail, nextBlockTail);
    }

    /** Line 572: whether the block ahead is free. It is not only if the queue was full. */
    method SeekSpare(v: T, alloc: bool, b: Block<T>, ghost was: seq<T>) returns (free: bool)
      requires Valid() && p == M.PLoadNext(v, alloc, b.id) && Known(b) && Remains(Contents(), was) && model.seen <= |was|
      modifies this`p, this`c, this`frontBlock, this`model, this`told, this`heard, repr
      ensures Valid() && Remains(Contents(), was)
      ensures p == if free then M.PReuse(v, b.id) else if alloc then M.PAlloc(v, b.id) else M.PIdle
      ensures told == if !free && !alloc then old(told) + [Fifo.EnqFalse] else old(told)
      ensures !free ==> |was| >= asked
    {
      var next := LoadNext(v, alloc, b);
      ConsumerRuns(was);
      free := CompareWithFront(v, alloc, b, next);
    }

    /** Lines 578-601: the block ahead is free. */
    method EnqueueInSpare(v: T, b: Block<T>, ghost was: seq<T>)
      requires Valid() && p == M.PReuse(v, b.id) && Known(b) && Remains(Contents(), was)
      modifies this`p, this`tailBlock, this`c, this`frontBlock, this`model, this`told, this`heard, repr
      ensures Valid() && p.PIdle? && Remains(Contents(), was + [v]) && told == old(told) + [Fifo.Enq(v)]
    {
      ConsumerRuns(was);
      var next := LoadNextAgain(v, b);
      var nextBlockTail := ReadSpare(v, next, was);
      ConstructInNext(v, next, nextBlockTail);
      ConsumerRuns(was);
      PublishSpare(v, next, nextBlockTail, was);
    }

    /** Lines 598-601. */
    method PublishSpare(v: T, next: Block<T>, nextBlockTail: nat, ghost was: seq<T>)
      requires Valid() && p == M.PReuseStore(v, next.id, nextBlockTail) && Known(next) && Remains(Contents(), was)
      modifies this`p, this`tailBlock, this`c, this`frontBlock, this`model, this`told, this`heard, repr
      ensures Valid() && p.PIdle? && Remains(Contents(), was + [v]) && told == old(told) + [Fifo.Enq(v)]
    {
      SpareTail(model, asked);
      Read(blocks, repr, model.blocks, next.id);
      var newTail := Following(next, nextBlockTail);
      StoreNextTail(v, next, nextBlockTail, newTail);
      ConsumerRuns(was);
      RemainsAppend(Contents(), was, v);
      Publish(v, next);
    }

    /** Lines 582-589: the spare block is empty, so its tail is where its front is. */
    method ReadSpare(v: T, next: Block<T>, ghost was: seq<T>) returns (nextBlockTail: nat)
      requires Valid() && p == M.PReuseFront(v, next.id) && Known(next) && Remains(Contents(), was)
      modifies this`p, this`c, this`frontBlock, this`model, this`heard, repr
      ensures Valid() && p == M.PReuseConstruct(v, next.id, nextBlockTail) && Remains(Contents(), was)
    {
      ConsumerRuns(was);
      var nextBlockFront := LoadNextFront(v, next);
      ConsumerRuns(was);
      nextBlockTail := LoadNextTail(v, next, nextBlockFront);
      ConsumerRuns(was);
    }

    /** Lines 604-631: a new block is needed. */
    method EnqueueInNew(v: T, b: Block<T>, memory: bool, ghost was: seq<T>) returns (ok: bool, ghost ins: seq<T>)
      requires Valid() && p == M.PAlloc(v, b.id) && Known(b) && Remains(Contents(), was)
      modifies this, repr
      ensures Valid() && p.PIdle? && ok == memory && ins == if ok then [v] else []
      ensures Remains(Contents(), was + ins) && told == old(told) + [Told(v, ok)]
      ensures if memory then OneMore(old(blocks), blocks) else blocks == old(blocks)
      ensures fresh(repr - old(repr)) && (forall x: Block<T> | Member(old(blocks), old(repr), x) :: Member(blocks, repr, x))
    {
      ConsumerRuns(was);
      if !memory {
        CannotAllocate(v, b);
        assert was + [] == was;
        return false, [];
      }
      EnqueueInAllocated(v, b, was);
      return true, [v];
    }

    /** There is memory. */
    method EnqueueInAllocated(v: T, b: Block<T>, ghost was: seq<T>)
      requires Valid() && p == M.PAlloc(v, b.id) && Known(b) && Remains(Contents(), was)
      modifies this, repr
      ensures Valid() && p.PIdle? && Remains(Contents(), was + [v]) && told == old(told) + [Fifo.Enq(v)]
      ensures OneMore(old(blocks), blocks)
      ensures fresh(repr - old(repr)) && (forall x: Block<T> | Member(old(blocks), old(repr), x) :: Member(blocks, repr, x))
    {
      var newBlock := Allocate(v, b);
      LinkAndPublish(v, b, newBlock, was);
    }

    /** Lines 614-631. */
    method LinkAndPublish(v: T, b: Block<T>, newBlock: Block<T>, ghost was: seq<T>)
      requires Valid() && p == M.PInit(v, b.id, newBlock.id) && Known(b) && Known(newBlock) && Remains(Contents(), was)
      modifies this`p, this`tailBlock, this`c, this`frontBlock, this`model, this`told, this`heard, repr
      ensures Valid() && p.PIdle? && Remains(Contents(), was + [v]) && told == old(told) + [Fifo.Enq(v)]
    {
      FillAndLink(v, b, newBlock, was);
      ConsumerRuns(was);
      LinkTail(v, b, newBlock);
      ConsumerRuns(was);
      RemainsAppend(Contents(), was, v);
      Publish(v, newBlock);
    }

    /** Lines 614-619. */
    method FillAndLink(v: T, b: Block<T>, newBlock: Block<T>, ghost was: seq<T>)
      requires Valid() && p == M.PInit(v, b.id, newBlock.id) && Known(b) && Known(newBlock) && Remains(Contents(), was)
      modifies this`p, this`c, this`frontBlock, this`model, this`heard, repr
      ensures Valid() && p == M.PLinkTail(v, b.id, newBlock.id) && Remains(Contents(), was)
    {
      ConsumerRuns(was);
      FillNew(v, b, newBlock);
      ConsumerRuns(was);
      LinkNew(v, b, newBlock);
    }

    // -------------------------------------------------------------- dequeueing

    /** The consumer is about to take or look at the front element, or has found that there was none. */
    ghost predicate Stands(op: M.Op, place: Place, b: Block<T>, blockFront: nat)
      reads this
    {
      match place
      case InFront => c == M.CTake(op, b.id, blockFront)
      case InNext => c == M.CNextFront(op, b.id)
      case Nowhere => c.CIdle?
    }

    /**
     What `try_dequeue`, `pop` and `peek` have in common: the front element is in the front block, or in
     the one after it, or there was none when the call began.
     */
    method FindFront(op: M.Op) returns (place: Place, b: Block<T>, blockFront: nat)
      requires Valid() && c.CIdle?
      modifies this, repr
      ensures Valid() && old(Contents()) <= Contents() && Known(b)
      ensures Stands(op, place, b, blockFront) && (place.Nowhere? ==> old(Contents()) == [])
      ensures fresh(repr - old(repr))
      ensures heard == if place.Nowhere? then old(heard) + [Fifo.DeqFalse] else old(heard)
    {
      ghost var was := Contents();
      var ready;
      b, blockFront, ready := LookOnce(op, was);
      place := InFront;
      if !ready {
        place, b, blockFront := LookFurther(op, b, was);
      }
    }

    /** Lines 326-340: the front block is empty. */
    method LookFurther(op: M.Op, b: Block<T>, ghost was: seq<T>) returns (place: Place, found: Block<T>, blockFront: nat)
      requires Valid() && c == M.CLoadTailBlock(op, b.id) && Known(b) && was <= Contents() && (model.saw ==> was == [])
      modifies this, repr
      ensures Valid() && was <= Contents() && Known(found)
      ensures Stands(op, place, found, blockFront) && (place.Nowhere? ==> was == [])
      ensures fresh(repr - old(repr))
      ensures heard == if place.Nowhere? then old(heard) + [Fifo.DeqFalse] else old(heard)
    {
      ProducerRuns(was);
      var another := CompareWithTail(op, b);
      place, found, blockFront := Nowhere, b, 0;
      if another {
        place, found, blockFront := LookAgain(op, was);
      }
    }

    /** Lines 308-312. If the block is empty and the queue was empty too, `saw` is set. */
    method LookOnce(op: M.Op, ghost was: seq<T>) returns (b: Block<T>, blockFront: nat, ready: bool)
      requires Valid() && c.CIdle? && was <= Contents()
      modifies this, repr
      ensures Valid() && was <= Contents() && Known(b)
      ensures c == if ready then M.CTake(op, b.id, blockFront) else M.CLoadTailBlock(op, b.id)
      ensures model.saw ==> was == []
      ensures fresh(repr - old(repr)) && heard == old(heard)
    {
      b := LoadFrontBlock(op);
      ProducerRuns(was);
      blockFront, ready := LoadFrontAsConsumer(op, b);
      if !ready {
        ready := LookAtTail(op, b, blockFront, was);
      }
    }

    method LookAtTail(op: M.Op, b: Block<T>, blockFront: nat, ghost was: seq<T>) returns (ready: bool)
      requires Valid() && c == M.CLoadTail(op, b.id, blockFront) && Known(b) && was <= Contents() && !model.saw
      modifies this, repr
      ensures Valid() && was <= Contents() && Known(b)
      ensures c == if ready then M.CTake(op, b.id, blockFront) else M.CLoadTailBlock(op, b.id)
      ensures model.saw ==> was == []
      ensures fresh(repr - old(repr)) && heard == old(heard)
    {
      ProducerRuns(was);
      ready := LoadTailAsConsumer(op, b, blockFront);
    }

    /** Lines 329-340: the front block once more, now that the tail block is known to be another. */
    method LookAgain(op: M.Op, ghost was: seq<T>) returns (place: Place, b: Block<T>, blockFront: nat)
      requires Valid() && c == M.CAgainBlock(op) && was <= Contents()
      modifies this, repr
      ensures Valid() && was <= Contents() && Known(b)
      ensures Stands(op, place, b, blockFront) && !place.Nowhere?
      ensures fresh(repr - old(repr)) && heard == old(heard)
    {
      var blockTail;
      b, blockTail := ReloadFront(op, was);
      ProducerRuns(was);
      place, b, blockFront := Decide(op, b, blockTail, was);
    }

    /** Lines 331-340. */
    method Decide(op: M.Op, b: Block<T>, blockTail: nat, ghost was: seq<T>) returns (place: Place, found: Block<T>, blockFront: nat)
      requires Valid() && c == M.CAgainFront(op, b.id, blockTail) && Known(b) && was <= Contents()
      modifies this, repr
      ensures Valid() && was <= Contents() && Known(found)
      ensures Stands(op, place, found, blockFront) && !place.Nowhere?
      ensures fresh(repr - old(repr)) && heard == old(heard)
    {
      var ready;
      blockFront, ready := LoadFrontAgain(op, b, blockTail);
      place, found := InFront, b;
      if !ready {
        ProducerRuns(was);
        found := LoadNextAsConsumer(op, b);
        place := InNext;
      }
    }

    /** Lines 329-330. */
    method ReloadFront(op: M.Op, ghost was: seq<T>) returns (b: Block<T>, blockTail: nat)
      requires Valid() && c == M.CAgainBlock(op) && was <= Contents()
      modifies this, repr
      ensures Valid() && was <= Contents() && Known(b) && c == M.CAgainFront(op, b.id, blockTail)
      ensures fresh(repr - old(repr)) && heard == old(heard)
    {
      ProducerRuns(was);
      b := LoadFrontBlockAgain(op);
      ProducerRuns(was);
      blockTail := LoadTailAgain(op, b);
    }

    /** Lines 345-356: on to the next block. */
    method GoToNext(op: M.Op, b: Block<T>, ghost was: seq<T>) returns (nextBlockFront: nat)
      requires Valid() && c == M.CNextFront(op, b.id) && !op.Look? && Known(b) && was <= Contents()
      modifies this, repr
      ensures Valid() && was <= Contents() && Known(b)
      ensures c == M.CTake(op, b.id, nextBlockFront) && fresh(repr - old(repr)) && heard == old(heard)
    {
      nextBlockFront := ReadNext(op, b, was);
      ProducerRuns(was);
      StoreFrontBlock(op, b, nextBlockFront);
    }

    /** Lines 345-352: the next block is not empty. */
    method ReadNext(op: M.Op, b: Block<T>, ghost was: seq<T>) returns (nextBlockFront: nat)
      requires Valid() && c == M.CNextFront(op, b.id) && !op.Look? && Known(b) && was <= Contents()
      modifies this, repr
      ensures Valid() && was <= Contents() && Known(b) && c == M.CAdvance(op, b.id, nextBlockFront)
      ensures fresh(repr - old(repr)) && heard == old(heard)
    {
      ProducerRuns(was);
      nextBlockFront := LoadNextFrontAsConsumer(op, b);
      ProducerRuns(was);
      var nextBlockTail := LoadNextTailAsConsumer(op, b, nextBlockFront);
    }

    /** The way of `try_dequeue` and `pop` to the front element. */
    method ReachFront(op: M.Op) returns (found: bool, b: Block<T>, blockFront: nat)
      requires Valid() && c.CIdle? && !op.Look?
      modifies this, repr
      ensures Valid() && old(Contents()) <= Contents() && Known(b)
      ensures if found then c == M.CTake(op, b.id, blockFront) else c.CIdle? && old(Contents()) == []
      ensures fresh(repr - old(repr))
      ensures heard == if found then old(heard) else old(heard) + [Fifo.DeqFalse]
    {
      ghost var was := Contents();
      var place;
      place, b, blockFront := FindFront(op);
      if place.Nowhere? {
        return false, b, blockFront;
      } else if place.InNext? {
        blockFront := GoToNext(op, b, was);
      }
      ProducerRuns(was);
      return true, b, blockFront;
    }

    /** Lines 317-319. */
    method MoveOutAndDestroy(b: Block<T>, blockFront: nat, ghost was: seq<T>) returns (v: T)
      requires Valid() && c == M.CTake(M.Dequeue, b.id, blockFront) && Known(b) && was <= Contents()
      modifies this, repr
      ensures Valid() && c == M.CStoreFront(b.id, blockFront, v) && Known(b) && was <= Contents()
      ensures fresh(repr - old(repr)) && heard == old(heard)
    {
      v := MoveOut(b, blockFront);
      ProducerRuns(was);
      DestroyMoved(b, blockFront, v);
      ProducerRuns(was);
    }

    /** Lines 321-324: the front slot is given up. */
    method FinishDequeue(b: Block<T>, blockFront: nat, ghost v: T)
      requires Valid() && c == M.CStoreFront(b.id, blockFront, v) && Known(b)
      modifies this`c, this`model, this`heard, b`front
      ensures Valid() && c == M.CIdle && old(Contents()) == [v] + Contents() && heard == old(heard) + [Fifo.Deq(v)]
    {
      FrontInRange(model, asked);
      Read(blocks, repr, model.blocks, b.id);
      var newFront := Following(b, blockFront);
      StoreFront(b, blockFront, newFront, v);
    }

    /**
     `try_dequeue` takes the oldest element out and returns it, or takes nothing and fails because the
     queue was empty when it was called; meanwhile the producer puts `came` behind, which is still there.
     */
    method TryDequeue() returns (ok: bool, result: seq<T>, ghost came: seq<T>)
      requires Valid() && c.CIdle?
      modifies this, repr
      ensures Valid() && c.CIdle?
      ensures if ok then |result| == 1 else result == [] && old(Contents()) == []
      ensures heard == old(heard) + [Heard(result)]
      ensures Exchanged(old(TheBooks()), TheBooks(), came, result)
      ensures fresh(repr - old(repr))
    {
      Balances();
      ok, result := TakeOldest(Contents());
      Balances();
      HeardTaken(old(heard), result);
      came := WhatCame(old(TheBooks()), TheBooks(), result);
    }

    /** Its body. */
    method TakeOldest(ghost was: seq<T>) returns (ok: bool, result: seq<T>)
      requires Valid() && c.CIdle? && Contents() == was
      modifies this, repr
      ensures Valid() && c.CIdle?
      ensures if ok then |result| == 1 else result == [] && was == []
      ensures heard == old(heard) + [Heard(result)] && was <= result + Contents()
      ensures fresh(repr - old(repr))
    {
      var found, b, blockFront := ReachFront(M.Dequeue);
      if !found {
        return false, [];
      }
      var v := TakeFrom(b, blockFront, was);
      return true, [v];
    }

    /** Lines 317-324. */
    method TakeFrom(b: Block<T>, blockFront: nat, ghost was: seq<T>) returns (v: T)
      requires Valid() && c == M.CTake(M.Dequeue, b.id, blockFront) && Known(b) && was <= Contents()
      modifies this, repr
      ensures Valid() && c.CIdle? && heard == old(heard) + [Fifo.Deq(v)] && was <= [v] + Contents()
      ensures fresh(repr - old(repr))
    {
      v := MoveOutAndDestroy(b, blockFront, was);
      FinishDequeue(b, blockFront, v);
    }

    /** `pop` does the same without returning the element, which is `gone`. */
    method Pop() returns (ok: bool, ghost gone: seq<T>, ghost came: seq<T>)
      requires Valid() && c.CIdle?
      modifies this, repr
      ensures Valid() && c.CIdle?
      ensures if ok then |gone| == 1 else gone == [] && old(Contents()) == []
      ensures heard == old(heard) + [Heard(gone)]
      ensures Exchanged(old(TheBooks()), TheBooks(), came, gone)
      ensures fresh(repr - old(repr))
    {
      Balances();
      ok, gone := DropOldest(Contents());
      Balances();
      HeardTaken(old(heard), gone);
      came := WhatCame(old(TheBooks()), TheBooks(), gone);
    }

    /** Its body. */
    method DropOldest(ghost was: seq<T>) returns (ok: bool, ghost gone: seq<T>)
      requires Valid() && c.CIdle? && Contents() == was
      modifies this, repr
      ensures Valid() && c.CIdle?
      ensures if ok then |gone| == 1 else gone == [] && was == []
      ensures heard == old(heard) + [Heard(gone)] && was <= gone + Contents()
      ensures fresh(repr - old(repr))
    {
      var found, b, blockFront := ReachFront(M.Discard);
      if !found {
        return false, [];
      }
      ghost var v := DropFrom(b, blockFront, was);
      return true, [v];
    }

    /** Where `pop` finds the oldest element. */
    method DropFrom(b: Block<T>, blockFront: nat, ghost was: seq<T>) returns (ghost v: T)
      requires Valid() && c == M.CTake(M.Discard, b.id, blockFront) && Known(b) && was <= Contents()
      modifies this, repr
      ensures Valid() && c.CIdle? && heard == old(heard) + [Fifo.Deq(v)] && was <= [v] + Contents()
      ensures fresh(repr - old(repr))
    {
      v := DestroyFront(b, blockFront);
      ProducerRuns(was);
      FinishDequeue(b, blockFront, v);
    }

    /**
     `peek` answers the oldest element, or nothing because the queue was empty when it was called; it takes
     nothing, and the producer puts `came` behind.
     */
    method Peek() returns (ok: bool, result: seq<T>, ghost came: seq<T>)
      requires Valid() && c.CIdle?
      modifies this, repr
      ensures Valid() && c.CIdle?
      ensures if ok then |result| == 1 && result <= Contents() else result == [] && old(Contents()) == []
      ensures heard == old(heard) + [Shown(result)]
      ensures Exchanged(old(TheBooks()), TheBooks(), came, [])
      ensures fresh(repr - old(repr))
    {
      Balances();
      ok, result := LookAtOldest(Contents());
      Balances();
      ShownTakesNothing(old(heard), result);
      assert TheBooks().taken == old(TheBooks()).taken + [] && Contents() == [] + Contents();
      came := WhatCame(old(TheBooks()), TheBooks(), []);
    }

    /** Its body. */
    method LookAtOldest(ghost was: seq<T>) returns (ok: bool, result: seq<T>)
      requires Valid() && c.CIdle? && Contents() == was
      modifies this, repr
      ensures Valid() && c.CIdle? && heard == old(heard) + [Shown(result)] && was <= Contents()
      ensures if ok then |result| == 1 && result <= Contents() else result == [] && was == []
      ensures fresh(repr - old(repr))
    {
      var place, b, blockFront := FindFront(M.Look);
      ok, result := !place.Nowhere?, [];
      if ok {
        ProducerRuns(was);
        var v := LookAt(place, b, blockFront, was);
        result := [v];
      }
    }

    /** Line 398, or lines 413-417. */
    method LookAt(place: Place, b: Block<T>, blockFront: nat, ghost was: seq<T>) returns (v: T)
      requires Valid() && Stands(M.Look, place, b, blockFront) && !place.Nowhere? && Known(b) && was <= Contents()
      modifies this, repr
      ensures Valid() && c.CIdle? && was <= Contents() && Contents() != [] && Contents()[0] == v
      ensures fresh(repr - old(repr)) && heard == old(heard) + [Fifo.Peek(v)]
    {
      if place.InFront? {
        v := PeekFront(b, blockFront);
      } else {
        var nextBlockFront := LoadNextFrontAsConsumer(M.Look, b);
        ProducerRuns(was);
        v := PeekNext(b, nextBlockFront);
      }
    }

    // -------------------------------------------------------------- ring walks, with no operation in flight

    /** `size_approx` is then exact. */
    method SizeApprox() returns (result: nat)
      requires Valid() && p.PIdle? && c.CIdle?
      ensures result == |Contents()|
    {
      result := 0;
      var block: Block<T> := frontBlock;
      ghost var i := 0;
      RingStart(model, asked);
      while true
        invariant i < |model.ring| && Known(block) && block.id == model.ring[i]
        invariant result == |M.Contents(model.blocks, model.ring[..i])|
        decreases |model.ring| - i
      {
        Read(blocks, repr, model.blocks, block.id);
        Masks(model, asked, block.id);
        I.AtTail(model.blocks, model.ring, i);
        result := result + And(Sub64(block.tail, block.front), block.size - 1);
        RingNext(model, asked, i);
        Read(blocks, repr, model.blocks, model.blocks[block.id].next);
        block, i := block.next, i + 1;
        if block == frontBlock {
          break;
        }
      }
      RingIsQueue(model, asked);
      assert model.ring[..i] == model.ring;
    }

    /** `max_capacity` adds up what every block can hold, each block once. */
    method MaxCapacity() returns (result: nat)
      requires Valid() && p.PIdle? && c.CIdle?
      ensures result == Sum(model.blocks, Room)
    {
      result := 0;
      var block: Block<T> := frontBlock;
      ghost var i := 0;
      RingStart(model, asked);
      while true
        invariant i < |model.ring| && Known(block) && block.id == model.ring[i]
        invariant result == RingSum(model.blocks, model.ring[..i], Room)
        decreases |model.ring| - i
      {
        Read(blocks, repr, model.blocks, block.id);
        Masks(model, asked, block.id);
        RingSumNext(model.blocks, model.ring, i, Room);
        result := result + (block.size - 1);
        RingNext(model, asked, i);
        Read(blocks, repr, model.blocks, model.blocks[block.id].next);
        block, i := block.next, i + 1;
        if block == frontBlock {
          break;
        }
      }
      RingIsWhole(model, asked);
      RingSumIsSum(model.blocks, model.ring, Room);
      assert model.ring[..i] == model.ring;
    }

    /**
     The destructor destroys every element of the queue, oldest first, each exactly once, and frees every
     block exactly once: as many frees as blocks, and no block missing. It is the walk of
     `BlockRingWalks.Destruct`.
     */
    method Destroy() returns (ghost destroyed: seq<T>, ghost freed: seq<nat>)
      requires Valid() && p.PIdle? && c.CIdle?
      modifies set b | b in blocks :: b.data
      ensures destroyed == Contents() && Covers(freed, |blocks|) && |freed| == |blocks|
      ensures var walk := Destruct(model.blocks, model.frontBlock, model.frontBlock, |model.blocks|);
              destroyed == walk.0 && freed == walk.1
      ensures forall i | 0 <= i < |blocks| :: AllRaw(blocks[i].data[..])
    {
      Count(blocks, repr, model.blocks);
      QuietRing(model, asked);
      destroyed, freed := DestroyRing(model.blocks, model.ring);
    }

    /** Its loop, over blocks that are as ms says and linked as ring says. */
    method DestroyRing(ghost ms: seq<M.Block<T>>, ghost ring: seq<nat>) returns (ghost destroyed: seq<T>, ghost freed: seq<nat>)
      requires Tied(blocks, repr, ms) && |ms| == |blocks| && Covers(ring, |blocks|) && Circle(ms, ring)
      requires 0 < |ring| && frontBlock == blocks[ring[0]] && forall b | 0 <= b < |ms| :: Quiet(ms[b])
      modifies set b | b in blocks :: b.data
      ensures destroyed == M.Contents(ms, ring) && freed == ring
      ensures forall i | 0 <= i < |blocks| :: AllRaw(blocks[i].data[..])
    {
      destroyed, freed := [], [];
      var block: Block<T> := frontBlock;
      ghost var i := 0;
      assert TiedParts(blocks, repr, ms);
      forall j | 0 <= j < |ring|
        ensures blocks[ring[j]].id == ring[j] && Untouched(blocks, ms, ring[j])
      {
        assert CellAt(blocks, repr, ms, ring[j]);
      }
      while true
        invariant i < |ring| && block == blocks[ring[i]]
        invariant freed == ring[..i] && destroyed == M.Contents(ms, ring[..i])
        invariant forall j | i <= j < |ring| :: Untouched(blocks, ms, ring[j])
        invariant forall j | 0 <= j < i :: AllRaw(blocks[ring[j]].data[..])
        decreases |ring| - i
      {
        NextOnce(ms, ring, i);
        Apart(blocks, ring, i);
        I.AtTail(ms, ring, i);
        assert old(CellAt(blocks, repr, ms, ring[i]));
        assert Untouched(blocks, ms, ring[i]);
        assert ring[i] !in freed;
        ghost var gone;
        freed := freed + [ring[i]];
        gone, block := DestroyBlock(block, ms[ring[i]]);
        destroyed, i := destroyed + gone, i + 1;
        if block == frontBlock {
          break;
        }
      }
      assert ring[..i] == ring;
      Everywhere(blocks, ring);
    }

    /** Lines 213-226 for one block; the next block is read before this one is gone. */
    method DestroyBlock(block: Block<T>, ghost m: M.Block<T>) returns (ghost gone: seq<T>, nextBlock: Block<T>)
      requires block.Is(m) && m.next != M.NULL && Points(blocks, block.next, m.next) && Quiet(m)
      modifies block.data
      ensures gone == m.q && AllRaw(block.data[..]) && 0 <= m.next < |blocks| && nextBlock == blocks[m.next]
    {
      nextBlock := block.next;
      gone := block.DestroyElements(m.q);
    }
  }
}
