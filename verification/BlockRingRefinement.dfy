/** Every run of the block ring refines the unbounded FIFO, for any interleaving of the two threads. */
module BlockRingRefinement {
  import opened BlockRing
  import opened BlockRingInvariant
  import opened BlockRingSteps
  import Fifo
  import opened Circular

  /** What a producer step is to establish: the invariant, and the queue its event says. */
  predicate ProducerDone<T(==)>(s: State<T>, t: State<T>, e: Fifo.Event<T>) {
    && Inv(t) && t.saw == s.saw
    && Q(t) == (if e.Enq? then Q(s) + [e.v] else Q(s))
    && (e.Tau? || e.Enq? || e.EnqFalse?)
  }

  lemma ProducerInTailBlock<T>(s: State<T>, t: State<T>, v: T, alloc: bool, memory: bool)
    requires Inv(s) && ProducerSafe(s) && t == ProducerStep(s, v, alloc, memory)
    requires s.p.PLoadFront? || s.p.PConstruct? || s.p.PStoreTail?
    ensures ProducerDone(s, t, ProducerEvent(s, memory))
  {
    match s.p
    case PLoadFront(x, al, tb, bt) =>
      ProducerLoadFront(s, t, x, al, tb, bt);
      PutQueue(s, t, tb, t.blocks[tb]);
    case PConstruct(x, tb, bt) =>
      ProducerConstruct(s, x, tb, bt);
      PutQueue(s, t, tb, t.blocks[tb]);
    case PStoreTail(x, tb, bt) =>
      ProducerStoreTail(s, t, x, tb, bt);
  }

  lemma ProducerInSpareBlock<T>(s: State<T>, t: State<T>, v: T, alloc: bool, memory: bool)
    requires Inv(s) && ProducerSafe(s) && t == ProducerStep(s, v, alloc, memory)
    requires s.p.PReuseFront? || s.p.PReuseTail? || s.p.PReuseConstruct? || s.p.PReuseStore?
    ensures ProducerDone(s, t, ProducerEvent(s, memory))
  {
    match s.p
    case PReuseFront(x, nb) =>
      ProducerReuseFront(s, x, nb);
      PutQueue(s, t, nb, t.blocks[nb]);
    case PReuseTail(x, nb, nf) =>
      ProducerReuseTail(s, x, nb, nf);
      PutQueue(s, t, nb, t.blocks[nb]);
    case PReuseConstruct(x, nb, nt) =>
      ProducerReuseConstruct(s, x, nb, nt);
      PutQueue(s, t, nb, t.blocks[nb]);
    case PReuseStore(x, nb, nt) =>
      ProducerReuseStore(s, t, x, nb, nt);
  }

  lemma ProducerInNewBlock<T>(s: State<T>, t: State<T>, v: T, alloc: bool, memory: bool)
    requires Inv(s) && ProducerSafe(s) && t == ProducerStep(s, v, alloc, memory)
    requires (s.p.PAlloc? && memory) || s.p.PInit? || s.p.PLinkNew? || s.p.PLinkTail?
    ensures ProducerDone(s, t, ProducerEvent(s, memory))
  {
    match s.p
    case PAlloc(x, tb) => ProducerAllocate(s, t, x, tb);
    case PInit(x, tb, nb) => ProducerInit(s, t, x, tb, nb);
    case PLinkNew(x, tb, nb) =>
      ProducerLinkNew(s, x, tb, nb);
      PutQueue(s, t, nb, t.blocks[nb]);
    case PLinkTail(x, tb, nb) => ProducerLinkTail(s, t, x, tb, nb);
  }

  /** Each producer step is safe, keeps the invariant, and does to the queue what its event says. */
  lemma ProducerKeeps<T>(s: State<T>, v: T, alloc: bool, memory: bool)
    requires Inv(s)
    ensures ProducerSafe(s)
    ensures ProducerDone(s, ProducerStep(s, v, alloc, memory), ProducerEvent(s, memory))
  {
    ProducerIsSafe(s);
    var t := ProducerStep(s, v, alloc, memory);
    if s.p.PLoadFront? || s.p.PConstruct? || s.p.PStoreTail? {
      ProducerInTailBlock(s, t, v, alloc, memory);
    } else if s.p.PReuseFront? || s.p.PReuseTail? || s.p.PReuseConstruct? || s.p.PReuseStore? {
      ProducerInSpareBlock(s, t, v, alloc, memory);
    } else if (s.p.PAlloc? && memory) || s.p.PInit? || s.p.PLinkNew? || s.p.PLinkTail? {
      ProducerInNewBlock(s, t, v, alloc, memory);
    } else if s.p.PPublish? {
      ProducerPublish(s, t, s.p.v, s.p.nb);
    } else if s.p.PLoadNext? || s.p.PReuse? {
      ProducerLoadNext(s, t, v, alloc);
    } else {
      ProducerQuietStep(s, t, v, alloc);
    }
  }

  /** What a consumer step does to the queue, by its event. */
  predicate ConsumerDone<T(==)>(s: State<T>, t: State<T>, e: Fifo.Event<T>) {
    && Inv(t)
    && (e.Deq? ==> Q(s) != [] && Q(s)[0] == e.v && Q(t) == Q(s)[1..])
    && (!e.Deq? ==> Q(t) == Q(s))
    && (e.Peek? ==> Q(s) != [] && Q(s)[0] == e.v)
  }

  lemma ConsumerInFrontBlock<T>(s: State<T>, t: State<T>, op: Op)
    requires Inv(s) && ConsumerSafe(s) && t == ConsumerStep(s, op)
    requires s.c.CLoadTail? || s.c.CAgainTail? || s.c.CAgainFront?
    ensures ConsumerDone(s, t, ConsumerEvent(s))
  {
    if s.c.CLoadTail? {
      ConsumerLoadTail(s, t, s.c.op, s.c.fb, s.c.bf);
    } else if s.c.CAgainTail? {
      ConsumerAgainTail(s, t, s.c.op, s.c.fb);
    } else {
      ConsumerAgainFront(s, t, s.c.op, s.c.fb, s.c.bt);
    }
  }

  lemma ConsumerRemoving<T>(s: State<T>, t: State<T>, op: Op)
    requires Inv(s) && ConsumerSafe(s) && t == ConsumerStep(s, op)
    requires (s.c.CTake? && !s.c.op.Look?) || s.c.CDestroy? || s.c.CStoreFront?
    ensures ConsumerDone(s, t, ConsumerEvent(s))
  {
    if s.c.CTake? {
      ConsumerTake(s, t, s.c.op, s.c.b, s.c.f);
    } else if s.c.CDestroy? {
      ConsumerDestroy(s, t, op, s.c.b, s.c.f, s.c.v);
    } else {
      ConsumerStoreFront(s, t, op, s.c.b, s.c.f, s.c.v);
    }
  }

  lemma ConsumerMovingOn<T>(s: State<T>, t: State<T>, op: Op)
    requires Inv(s) && ConsumerSafe(s) && t == ConsumerStep(s, op)
    requires s.c.CNextTail? || s.c.CAdvance? || (s.c.CTake? && s.c.op.Look?)
    ensures ConsumerDone(s, t, ConsumerEvent(s))
  {
    if s.c.CAdvance? {
      ConsumerAdvance(s, t, s.c.op, s.c.nb, s.c.nf);
    } else if s.c.op.Look? {
      ConsumerPeekStep(s, t, op);
    } else {
      ConsumerNextTail(s, t, s.c.op, s.c.nb, s.c.nf);
    }
  }

  /** Each consumer step is safe, keeps the invariant, and does to the queue what its event says. */
  lemma ConsumerKeeps<T>(s: State<T>, op: Op)
    requires Inv(s)
    ensures ConsumerSafe(s)
    ensures ConsumerDone(s, ConsumerStep(s, op), ConsumerEvent(s))
  {
    ConsumerIsSafe(s);
    var t := ConsumerStep(s, op);
    if s.c.CLoadTail? || s.c.CAgainTail? || s.c.CAgainFront? {
      ConsumerInFrontBlock(s, t, op);
    } else if s.c.CNextTail? || s.c.CAdvance? || (s.c.CTake? && s.c.op.Look?) {
      ConsumerMovingOn(s, t, op);
    } else if s.c.CTake? || s.c.CDestroy? || s.c.CStoreFront? {
      ConsumerRemoving(s, t, op);
    } else {
      ConsumerQuietStep(s, t, op);
    }
  }

  /** An "empty" answer is given only when the queue was seen empty during the call. */
  lemma EmptyOnlyIfSeen<T>(s: State<T>)
    requires Inv(s) && ConsumerSafe(s) && ConsumerEvent(s).DeqFalse?
    ensures s.saw
  {
  }

  /** `saw` records exactly what the abstract queue records about the running consumer call. */
  lemma SawFollows<T>(s: State<T>, op: Op)
    requires ConsumerSafe(s)
    ensures var e := ConsumerEvent(s);
            && ConsumerStep(s, op).saw == Fifo.Apply(Fifo.Spec([], s.saw), e).saw
            && (e.Observe? ==> Q(s) == []) && !e.Enq? && !e.EnqFalse?
  {
  }

  lemma FollowsFifo<T>(a: Fifo.Spec<T>, e: Fifo.Event<T>, b: Fifo.Spec<T>)
    requires e.Deq? ==> a.q != [] && a.q[0] == e.v && b.q == a.q[1..]
    requires e.Peek? ==> a.q != [] && a.q[0] == e.v
    requires e.Enq? ==> b.q == a.q + [e.v]
    requires !e.Deq? && !e.Enq? ==> b.q == a.q
    requires e.Observe? ==> a.q == []
    requires e.DeqFalse? ==> a.saw
    requires b.saw == Fifo.Apply(Fifo.Spec([], a.saw), e).saw
    ensures Fifo.Step(Fifo.None, a, e, b)
  {
  }

  /** Every step of either thread is safe, keeps the invariant, and is a step of the FIFO. */
  lemma StepRefines<T>(s: State<T>, a: Action<T>)
    requires Inv(s)
    ensures Safe(s, a) && Inv(Step(s, a))
    ensures Fifo.Step(Fifo.None, Fifo.Spec(Q(s), s.saw), EventOf(s, a), Fifo.Spec(Q(Step(s, a)), Step(s, a).saw))
  {
    match a
    case Produce(v, alloc, memory) =>
      ProducerKeeps(s, v, alloc, memory);
      var t := ProducerStep(s, v, alloc, memory);
      FollowsFifo(Fifo.Spec(Q(s), s.saw), ProducerEvent(s, memory), Fifo.Spec(Q(t), t.saw));
    case Consume(op) =>
      ConsumerKeeps(s, op);
      if ConsumerEvent(s).DeqFalse? {
        EmptyOnlyIfSeen(s);
      }
      SawFollows(s, op);
      var t := ConsumerStep(s, op);
      FollowsFifo(Fifo.Spec(Q(s), s.saw), ConsumerEvent(s), Fifo.Spec(Q(t), t.saw));
  }

  // ---------------------------------------------------------------- whole runs

  /** The state after a schedule of steps together with what the callers saw; an unsafe step would halt it. */
  function Exec<T(==)>(s: State<T>, schedule: seq<Action<T>>): (State<T>, seq<Fifo.Event<T>>) {
    if schedule == [] then (s, [])
    else Extend(Exec(s, schedule[..|schedule| - 1]), schedule[|schedule| - 1])
  }

  function Extend<T(==)>(r: (State<T>, seq<Fifo.Event<T>>), a: Action<T>): (State<T>, seq<Fifo.Event<T>>) {
    if Safe(r.0, a) then (Step(r.0, a), r.1 + [EventOf(r.0, a)]) else r
  }

  /** The machine and its trace agree with the abstract queue. */
  ghost predicate Agrees<T>(r: (State<T>, seq<Fifo.Event<T>>)) {
    && Inv(r.0)
    && Fifo.Legal(Fifo.None, Fifo.Spec([], false), r.1)
    && Fifo.Run(Fifo.Spec([], false), r.1) == Fifo.Spec(Q(r.0), r.0.saw)
  }

  lemma ExtendAgrees<T>(r: (State<T>, seq<Fifo.Event<T>>), a: Action<T>)
    requires Agrees(r)
    ensures Agrees(Extend(r, a))
  {
    StepRefines(r.0, a);
    var e := EventOf(r.0, a);
    assert (r.1 + [e])[..|r.1 + [e]| - 1] == r.1;
  }

  /** A freshly constructed queue, of blocks that hold at least one element each, is empty and well-formed. */
  lemma InitInv<T>(s: State<T>, count: nat, size: nat)
    requires Init(s, count, size) && size >= 2
    ensures Inv(s) && Q(s) == []
  {
    forall b | 0 <= b < |s.blocks|
      ensures b in s.ring
    {
      assert s.ring[b] == b;
    }
    ContentsOne(s.blocks, 0);
    assert s.ring[..1] == [0];
  }

  /**
   Every interleaving of `inner_enqueue` with `try_dequeue`, `pop` and `peek` refines a FIFO queue whose
   contents are the blocks concatenated from `frontBlock` to `tailBlock`.
   */
  lemma {:induction false} RunRefines<T>(s: State<T>, count: nat, size: nat, schedule: seq<Action<T>>)
    requires Init(s, count, size) && size >= 2
    ensures Agrees(Exec(s, schedule))
  {
    if schedule == [] {
      InitInv(s, count, size);
    } else {
      RunRefines(s, count, size, schedule[..|schedule| - 1]);
      ExtendAgrees(Exec(s, schedule[..|schedule| - 1]), schedule[|schedule| - 1]);
    }
  }

  /** No run reaches a bad pointer, an index out of its block, a live object overwritten, or a failing assertion. */
  lemma RunNeverUnsafe<T>(s: State<T>, count: nat, size: nat, schedule: seq<Action<T>>, a: Action<T>)
    requires Init(s, count, size) && size >= 2
    ensures Safe(Exec(s, schedule).0, a)
  {
    RunRefines(s, count, size, schedule);
    StepRefines(Exec(s, schedule).0, a);
  }

  /** What was enqueued is what was dequeued followed by what the blocks still hold. */
  lemma RunIsFifo<T>(s: State<T>, count: nat, size: nat, schedule: seq<Action<T>>)
    requires Init(s, count, size) && size >= 2
    ensures var (end, trace) := Exec(s, schedule); Fifo.Enqs(trace) == Fifo.Deqs(trace) + Q(end)
  {
    RunRefines(s, count, size, schedule);
    Fifo.NothingLost(Fifo.None, Exec(s, schedule).1);
  }

  /** A consumer call answers "empty" only if the queue was empty at some instant of that call. */
  lemma RunEmptyIsTrue<T>(s: State<T>, count: nat, size: nat, schedule: seq<Action<T>>, k: nat) returns (i: nat)
    requires Init(s, count, size) && size >= 2
    requires k < |Exec(s, schedule).1| && Exec(s, schedule).1[k].DeqFalse?
    ensures i <= k && Fifo.Run(Fifo.Spec([], false), Exec(s, schedule).1[..i]).q == []
    ensures forall j | i <= j <= k :: !Exec(s, schedule).1[j].Invoke?
  {
    RunRefines(s, count, size, schedule);
    i := Fifo.EmptyAnswerIsTrue(Fifo.None, Exec(s, schedule).1, k);
  }

  /** Once `peek` has answered v, the next consumer call to complete succeeds on v, whatever the producer does. */
  lemma RunPeekIsBinding<T>(s: State<T>, count: nat, size: nat, schedule: seq<Action<T>>,
                            pre: seq<Fifo.Event<T>>, v: T, mid: seq<Fifo.Event<T>>, e: Fifo.Event<T>)
    requires Init(s, count, size) && size >= 2
    requires Exec(s, schedule).1 == pre + [Fifo.Peek(v)] + mid + [e]
    requires forall i | 0 <= i < |mid| :: Fifo.Harmless(mid[i])
    ensures !e.DeqFalse?
    ensures e.Deq? || e.Peek? ==> e.v == v
  {
    RunRefines(s, count, size, schedule);
    Fifo.PeekIsBinding(Fifo.None, pre, v, mid, e);
  }

  /**
   In every reachable state, in every block, the caches are conservative: walking round the block one
   meets localFront, front, localTail and tail in that order within one lap, and what lies from front to
   tail are the block's elements.
   */
  lemma RunCachesConservative<T>(s: State<T>, count: nat, size: nat, schedule: seq<Action<T>>, i: nat)
    requires Init(s, count, size) && size >= 2 && i < |Exec(s, schedule).0.blocks|
    ensures var b := Exec(s, schedule).0.blocks[i];
            && b.localFront < b.size && b.front < b.size && b.localTail < b.size && b.tail < b.size
            && Dist(b.size, b.localFront, b.front) + Dist(b.size, b.front, b.localTail)
               + Dist(b.size, b.localTail, b.tail) <= b.size - 1
            && Dist(b.size, b.front, b.tail) == |b.q|
  {
    RunRefines(s, count, size, schedule);
    var end := Exec(s, schedule).0;
    assert BlockOk(end.blocks[i], i == TakenBlock(end.c), i == BuiltBlock(end.p));
  }

  /**
   In every reachable state, also mid-operation and mid-insertion: the blocks strictly between the front
   block and the tail block are exactly full, the tail block is not empty unless it is the front block,
   and every block behind it is empty, except the one in which the producer has stored an element it has
   not published yet.
   */
  lemma RunRingFilled<T>(s: State<T>, count: nat, size: nat, schedule: seq<Action<T>>, i: nat)
    requires Init(s, count, size) && size >= 2 && i < |Exec(s, schedule).0.ring|
    ensures var end := Exec(s, schedule).0;
            && end.t < |end.ring| && end.ring[0] == end.frontBlock && end.ring[end.t] == end.tailBlock
            && end.ring[i] < |end.blocks|
            && var b := end.blocks[end.ring[i]];
            && b.next == end.ring[if i + 1 == |end.ring| then 0 else i + 1]
            && (0 < i < end.t ==> |b.q| == b.size - 1)
            && (0 < i == end.t ==> b.q != [])
            && (end.t < i ==> b.q == [] || (end.p.PPublish? && i == end.t + 1 && b.q == [end.p.v]))
  {
    RunRefines(s, count, size, schedule);
    PlaceInRing(Exec(s, schedule).0, i);
    FillOfPlace(Exec(s, schedule).0, i);
  }

  lemma PlaceInRing<T>(s: State<T>, i: nat)
    requires Inv(s) && i < |s.ring|
    ensures s.t < |s.ring| && s.ring[0] == s.frontBlock && s.ring[s.t] == s.tailBlock && s.ring[i] < |s.blocks|
    ensures s.blocks[s.ring[i]].next == s.ring[Next(|s.ring|, i)]
  {
    assert LinkAt(s.blocks, s.ring, i);
  }

  lemma FillOfPlace<T>(s: State<T>, i: nat)
    requires Inv(s) && i < |s.ring|
    ensures s.ring[i] < |s.blocks|
    ensures var b := s.blocks[s.ring[i]];
            && (0 < i < s.t ==> |b.q| == b.size - 1)
            && (0 < i == s.t ==> b.q != [])
            && (s.t < i ==> b.q == [] || (s.p.PPublish? && i == s.t + 1 && b.q == [s.p.v]))
  {
    assert RingOk(s.blocks, s.ring, s.t, s.frontBlock, s.tailBlock);
    assert Filled(s.blocks, s.ring, s.t, s.p.PPublish?);
    if s.p.PPublish? && i == s.t + 1 {
      assert IsSpare(s, s.p.nb);
    }
  }
}
