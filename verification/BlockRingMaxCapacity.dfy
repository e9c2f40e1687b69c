/**
 What `max_capacity` promises: how many elements the queue takes without allocating when the consumer
 stands still. It is every block's room, less what is already queued, less the room left in the block the
 consumer is in when the producer has moved on from it; from an empty queue it is the whole room, exactly.
 */
module BlockRingMaxCapacity {
  import opened Circular
  import opened BlockRing
  import opened BlockRingInvariant
  import opened BlockRingRefinement
  import opened BlockRingWalks
  import Fifo
  import C = BlockRingCapacity
  import BlockRingSteps

  // ---------------------------------------------------------------- the producer alone

  /** The producer is inside an enqueue that may not allocate, or outside. */
  predicate NoLeave<T>(p: Producer<T>) {
    match p
    case PLoadTail(_, alloc, _) => !alloc
    case PLoadFront(_, alloc, _, _) => !alloc
    case PLoadNext(_, alloc, _) => !alloc
    case PCompare(_, alloc, _, _) => !alloc
    case PAlloc(_, _) => false
    case PInit(_, _, _) => false
    case PLinkNew(_, _, _) => false
    case PLinkTail(_, _, _) => false
    case _ => true
  }

  /** The producer has found the tail block full. */
  predicate FoundFull<T>(p: Producer<T>) {
    !p.PIdle? && !p.PLoadTail? && !p.PLoadFront? && !p.PConstruct? && !p.PStoreTail?
  }

  /** Room in the front block that the producer has left behind: it comes back only when the block has been emptied. */
  function Lost<T>(s: State<T>): int
    requires RingOk(s.blocks, s.ring, s.t, s.frontBlock, s.tailBlock)
  {
    if s.t > 0 then Room(s.blocks[s.frontBlock]) - |s.blocks[s.frontBlock].q| else 0
  }

  /** What holds while the consumer stands still and no block is allocated. (Compared with `true` to keep it whole.) */
  ghost predicate Solo<T>(s: State<T>, lost: int, room: nat) {
    SoloParts(s, lost, room) == true
  }

  ghost predicate SoloParts<T>(s: State<T>, lost: int, room: nat) {
    && Inv(s) && NoLeave(s.p) && Lost(s) == lost && Sum(s.blocks, Room) == room
    && (FoundFull(s.p) ==> Full(s.blocks[s.tailBlock]))
  }

  // ---------------------------------------------------------------- how much is there

  /** With no block still private, every block is linked. */
  lemma EveryBlockLinked<T>(s: State<T>)
    requires Inv(s) && NoLeave(s.p)
    ensures Covers(s.ring, |s.blocks|)
  {
  }

  lemma {:induction false} RingSumAtMost<T>(blocks: seq<Block<T>>, ids: seq<nat>, f: Block<T> -> nat, g: Block<T> -> nat)
    requires forall i | 0 <= i < |ids| :: ids[i] < |blocks| && f(blocks[ids[i]]) <= g(blocks[ids[i]])
    ensures RingSum(blocks, ids, f) <= RingSum(blocks, ids, g)
  {
    if ids != [] {
      RingSumAtMost(blocks, ids[1..], f, g);
    }
  }

  lemma {:induction false} RingSumEqual<T>(blocks: seq<Block<T>>, ids: seq<nat>, f: Block<T> -> nat, g: Block<T> -> nat)
    requires forall i | 0 <= i < |ids| :: ids[i] < |blocks| && f(blocks[ids[i]]) == g(blocks[ids[i]])
    ensures RingSum(blocks, ids, f) == RingSum(blocks, ids, g)
  {
    if ids != [] {
      RingSumEqual(blocks, ids[1..], f, g);
    }
  }

  lemma NeverOverfull<T>(s: State<T>, b: nat)
    requires Inv(s) && b < |s.blocks|
    ensures Length(s.blocks[b]) <= Room(s.blocks[b])
  {
    assert BlockOk(s.blocks[b], b == TakenBlock(s.c), b == BuiltBlock(s.p));
  }

  /** The room of the whole ring, the front block's apart. */
  lemma RoomSplit<T>(s: State<T>)
    requires Inv(s) && NoLeave(s.p)
    ensures Sum(s.blocks, Room) == Room(s.blocks[s.frontBlock]) + RingSum(s.blocks, s.ring[1..], Room)
  {
    EveryBlockLinked(s);
    RingSumIsSum(s.blocks, s.ring, Room);
  }

  /** The contents, the front block's apart. */
  lemma QueueSplit<T>(s: State<T>)
    requires Inv(s)
    ensures |Q(s)| == |s.blocks[s.frontBlock].q| + RingSum(s.blocks, s.ring[1..s.t + 1], Length)
  {
    AtFront(s.blocks, s.ring, s.t);
    ContentsLength(s.blocks, s.ring[1..s.t + 1]);
  }

  /** Some of the blocks hold no more than all of them have room for. */
  lemma SomeHoldNoMore<T>(s: State<T>, n: nat)
    requires Inv(s) && 1 <= n <= |s.ring|
    ensures RingSum(s.blocks, s.ring[1..n], Length) <= RingSum(s.blocks, s.ring[1..], Room)
  {
    var some, others := s.ring[1..n], s.ring[n..];
    assert s.ring[1..] == some + others;
    RingSumConcat(s.blocks, some, others, Room);
    forall i | 0 <= i < |some|
      ensures some[i] < |s.blocks| && Length(s.blocks[some[i]]) <= Room(s.blocks[some[i]])
    {
      NeverOverfull(s, s.ring[i + 1]);
    }
    RingSumAtMost(s.blocks, some, Length, Room);
  }

  /** The queue never holds more than the room that is not lost. */
  lemma AtMostRoom<T>(s: State<T>, lost: int, room: nat)
    requires Solo(s, lost, room)
    ensures |Q(s)| + lost <= room
  {
    RoomSplit(s);
    QueueSplit(s);
    NeverOverfull(s, s.frontBlock);
    SomeHoldNoMore(s, s.t + 1);
  }

  /** The next block is the front block only if the tail block is the last of the ring. */
  lemma TailIsLast<T>(s: State<T>)
    requires Inv(s) && s.p.PCompare? && s.p.nx == s.frontBlock
    ensures s.t + 1 == |s.ring| && forall i | 0 < i < |s.ring| :: s.ring[i] < |s.blocks|
  {
    assert s.p.nx == s.ring[Next(|s.ring|, s.t)];
  }

  /** When the producer finds no spare block, it holds exactly that. */
  lemma NoSpareMeansAll<T>(s: State<T>, lost: int, room: nat)
    requires Solo(s, lost, room) && s.p.PCompare? && s.p.nx == s.frontBlock
    ensures |Q(s)| + lost == room
  {
    TailIsLast(s);
    RoomSplit(s);
    QueueSplit(s);
    OthersFull(s);
    assert s.ring[1..s.t + 1] == s.ring[1..];
  }

  lemma OthersFull<T>(s: State<T>)
    requires Inv(s) && s.p.PCompare? && s.t + 1 == |s.ring|
    ensures RingSum(s.blocks, s.ring[1..], Length) == RingSum(s.blocks, s.ring[1..], Room)
  {
    var others := s.ring[1..];
    forall i | 0 <= i < |others|
      ensures others[i] < |s.blocks| && Length(s.blocks[others[i]]) == Room(s.blocks[others[i]])
    {
      FullPlace(s, i + 1);
    }
    RingSumEqual(s.blocks, others, Length, Room);
  }

  lemma FullPlace<T>(s: State<T>, i: nat)
    requires Inv(s) && s.p.PCompare? && 0 < i <= s.t
    ensures i < |s.ring| && s.ring[i] < |s.blocks| && Length(s.blocks[s.ring[i]]) == Room(s.blocks[s.ring[i]])
  {
    assert Filled(s.blocks, s.ring, s.t, false);
  }

  // ---------------------------------------------------------------- one step

  /** Blocks of equal sizes have equal room. */
  lemma {:induction false} SameRoom<T>(xs: seq<Block<T>>, ys: seq<Block<T>>)
    requires |xs| == |ys| && forall i | 0 <= i < |xs| :: xs[i].size == ys[i].size
    ensures Sum(xs, Room) == Sum(ys, Room)
  {
    if xs != [] {
      SameRoom(xs[..|xs| - 1], ys[..|ys| - 1]);
    }
  }

  /** A block without room behind its tail is full. */
  lemma NoRoomIsFull<T>(b: Block<T>, taken: bool, built: bool)
    requires BlockOk(b, taken, built) && Next(b.size, b.tail) == b.front
    ensures Full(b)
  {
  }

  lemma LoadFrontFinds<T>(s: State<T>, v: T)
    requires Inv(s) && ProducerSafe(s) && s.p.PLoadFront? && ProducerStep(s, v, false, false).p.PLoadNext?
    ensures Full(s.blocks[s.tailBlock])
  {
    var b := s.blocks[s.tailBlock];
    assert BlockOk(b, s.tailBlock == TakenBlock(s.c), s.tailBlock == BuiltBlock(s.p));
    NoRoomIsFull(b, s.tailBlock == TakenBlock(s.c), s.tailBlock == BuiltBlock(s.p));
  }

  /** A step of the producer touches the elements of no block but the tail block and the spare one. */
  lemma FrontUntouched<T>(s: State<T>, v: T)
    requires Inv(s) && NoLeave(s.p) && ProducerSafe(s) && s.t > 0
    ensures var t := ProducerStep(s, v, false, false);
            && |t.blocks| == |s.blocks|
            && t.blocks[s.frontBlock].q == s.blocks[s.frontBlock].q && t.blocks[s.frontBlock].size == s.blocks[s.frontBlock].size
  {
    assert s.ring[0] != s.ring[s.t];
    if s.p.PReuseStore? {
      assert s.ring[0] != s.ring[s.t + 1];
    }
  }

  lemma PlacesKept<T>(s: State<T>, v: T)
    requires ProducerSafe(s) && NoLeave(s.p)
    ensures var t := ProducerStep(s, v, false, false);
            t.frontBlock == s.frontBlock && t.ring == s.ring && t.t == (if s.p.PPublish? then s.t + 1 else s.t)
  {
  }

  lemma LeavingFull<T>(s: State<T>, v: T)
    requires Inv(s) && s.p.PPublish? && s.t == 0 && Full(s.blocks[s.tailBlock]) && ProducerSafe(s)
    ensures Length(s.blocks[s.frontBlock]) == Room(s.blocks[s.frontBlock])
    ensures ProducerStep(s, v, false, false).blocks == s.blocks
  {
  }

  /** The room lost is settled when the producer leaves the front block, full, and never changes after. */
  lemma LostStays<T>(s: State<T>, v: T)
    requires Inv(s) && NoLeave(s.p) && (FoundFull(s.p) ==> Full(s.blocks[s.tailBlock]))
    requires ProducerSafe(s) && Inv(ProducerStep(s, v, false, false))
    ensures Lost(ProducerStep(s, v, false, false)) == Lost(s)
  {
    PlacesKept(s, v);
    if s.t > 0 {
      FrontUntouched(s, v);
    } else if s.p.PPublish? {
      LeavingFull(s, v);
    }
  }

  lemma TailUntouched<T>(s: State<T>, v: T)
    requires Inv(s) && NoLeave(s.p) && ProducerSafe(s) && FoundFull(s.p) && !s.p.PPublish?
    ensures var t := ProducerStep(s, v, false, false);
            && |t.blocks| == |s.blocks| && t.tailBlock == s.tailBlock
            && t.blocks[s.tailBlock].q == s.blocks[s.tailBlock].q && t.blocks[s.tailBlock].size == s.blocks[s.tailBlock].size
  {
    if s.p.PReuseStore? {
      assert s.ring[s.t] != s.ring[s.t + 1];
    }
  }

  /** Only from `PLoadFront` does the producer come to know that the tail block is full. */
  lemma FindsFullHow<T>(s: State<T>, v: T)
    requires ProducerSafe(s) && NoLeave(s.p)
    ensures var t := ProducerStep(s, v, false, false);
            && NoLeave(t.p) && |t.blocks| == |s.blocks|
            && (FoundFull(t.p) ==> (FoundFull(s.p) && !s.p.PPublish?) || (s.p.PLoadFront? && t.p.PLoadNext?))
            && (s.p.PLoadFront? ==> t.tailBlock == s.tailBlock && forall i | 0 <= i < |s.blocks| ::
                 t.blocks[i].q == s.blocks[i].q && t.blocks[i].size == s.blocks[i].size)
  {
  }

  lemma TailStaysFull<T>(s: State<T>, v: T)
    requires Inv(s) && NoLeave(s.p) && (FoundFull(s.p) ==> Full(s.blocks[s.tailBlock])) && ProducerSafe(s)
    ensures var t := ProducerStep(s, v, false, false);
            && NoLeave(t.p) && |t.blocks| == |s.blocks|
            && (FoundFull(t.p) ==> Valid(t, t.tailBlock) && Full(t.blocks[t.tailBlock]))
  {
    FindsFullHow(s, v);
    if FoundFull(s.p) && !s.p.PPublish? {
      TailUntouched(s, v);
    } else if s.p.PLoadFront? && ProducerStep(s, v, false, false).p.PLoadNext? {
      LoadFrontFinds(s, v);
    }
  }

  /** What one step of the producer does to the number of elements, and when it refuses. */
  lemma SoloStep<T>(s: State<T>, v: T, memory: bool, lost: int, room: nat)
    requires Solo(s, lost, room)
    ensures ProducerSafe(s)
    ensures var t, e := ProducerStep(s, v, false, memory), ProducerEvent(s, memory);
            && Solo(t, lost, room) && (e.Tau? || e.Enq? || e.EnqFalse?)
            && |Q(t)| == |Q(s)| + (if e.Enq? then 1 else 0)
            && (e.EnqFalse? ==> |Q(s)| + lost == room)
  {
    ProducerKeeps(s, v, false, memory);
    var t := ProducerStep(s, v, false, memory);
    assert t == ProducerStep(s, v, false, false);
    TailStaysFull(s, v);
    LostStays(s, v);
    C.StepSizes(s, Produce(v, false, memory));
    SameRoom(t.blocks, s.blocks);
    if ProducerEvent(s, memory).EnqFalse? {
      NoSpareMeansAll(s, lost, room);
    }
  }

  // ---------------------------------------------------------------- whole runs

  /** The producer enqueues without leave to allocate, and the consumer stands still. */
  predicate WithoutLeave<T>(schedule: seq<Action<T>>) {
    forall i | 0 <= i < |schedule| :: schedule[i].Produce? && !schedule[i].alloc
  }

  /** How many enqueues have returned. */
  function Returns<T>(trace: seq<Fifo.Event<T>>): nat {
    if trace == [] then 0
    else
      var e := trace[|trace| - 1];
      Returns(trace[..|trace| - 1]) + (if e.Enq? || e.EnqFalse? then 1 else 0)
  }

  function Least(a: nat, b: nat): nat { if a <= b then a else b }

  /** Of the enqueues that have returned, n succeeded, or all if they are fewer. */
  predicate TookExactly<T(==)>(s: State<T>, n: nat, schedule: seq<Action<T>>) {
    var trace := Exec(s, schedule).1;
    |Fifo.Enqs(trace)| == Least(Returns(trace), n)
  }

  /** How much has been put and how much is there; once an enqueue was refused, all the room is taken. */
  lemma {:induction false} SoloRun<T>(s: State<T>, lost: int, room: nat, schedule: seq<Action<T>>)
    requires Solo(s, lost, room) && WithoutLeave(schedule)
    ensures var (end, trace) := Exec(s, schedule);
            && Solo(end, lost, room)
            && |Q(end)| == |Q(s)| + |Fifo.Enqs(trace)|
            && |Fifo.Enqs(trace)| <= Returns(trace)
            && (|Fifo.Enqs(trace)| < Returns(trace) ==> |Q(end)| + lost == room)
  {
    if schedule != [] {
      var before, a := schedule[..|schedule| - 1], schedule[|schedule| - 1];
      SoloRun(s, lost, room, before);
      var r := Exec(s, before);
      SoloStep(r.0, a.v, a.memory, lost, room);
      var e := EventOf(r.0, a);
      assert (r.1 + [e])[..|r.1 + [e]| - 1] == r.1;
      AtMostRoom(Step(r.0, a), lost, room);
    }
  }

  /**
   With the consumer standing still, wherever it is, the enqueues without leave to allocate succeed exactly
   until the room of all blocks is used up, but for the room left in the front block if the producer has
   moved on from it.
   */
  lemma TakesTheRest<T>(s: State<T>, schedule: seq<Action<T>>)
    requires Inv(s) && s.p.PIdle? && WithoutLeave(schedule)
    ensures |Q(s)| + Lost(s) <= Sum(s.blocks, Room)
    ensures TookExactly(s, Sum(s.blocks, Room) - Lost(s) - |Q(s)|, schedule)
  {
    var lost, room := Lost(s), Sum(s.blocks, Room);
    AtMostRoom(s, lost, room);
    SoloRun(s, lost, room, schedule);
    AtMostRoom(Exec(s, schedule).0, lost, room);
  }

  lemma TailNotEmpty<T>(s: State<T>)
    requires Inv(s) && s.t > 0
    ensures Q(s) != []
  {
    AtTail(s.blocks, s.ring, s.t);
    assert Filled(s.blocks, s.ring, s.t, s.p.PPublish?);
    assert s.blocks[s.ring[s.t]].q != [];
  }

  /** From an empty queue, that is the room of every block. */
  lemma EmptyTakesAll<T>(s: State<T>, schedule: seq<Action<T>>)
    requires Inv(s) && s.p.PIdle? && Q(s) == [] && WithoutLeave(schedule)
    ensures TookExactly(s, Sum(s.blocks, Room), schedule)
  {
    if s.t > 0 {
      TailNotEmpty(s);
    }
    TakesTheRest(s, schedule);
  }

  // ---------------------------------------------------------------- enqueues end

  /** How many steps an enqueue without leave to allocate still has before it. */
  function Left<T>(p: Producer<T>): (n: nat)
    ensures n >= 1
  {
    match p
    case PIdle => 11
    case PLoadTail(_, _, _) => 10
    case PLoadFront(_, _, _, _) => 9
    case PLoadNext(_, _, _) => 8
    case PCompare(_, _, _, _) => 7
    case PReuse(_, _) => 6
    case PReuseFront(_, _) => 5
    case PReuseTail(_, _, _) => 4
    case PReuseConstruct(_, _, _) => 3
    case PReuseStore(_, _, _) => 2
    case PPublish(_, _) => 1
    case PConstruct(_, _, _) => 2
    case PStoreTail(_, _, _) => 1
    case _ => 1
  }

  lemma StepsRunOut<T>(s: State<T>, v: T, memory: bool)
    requires ProducerSafe(s) && NoLeave(s.p)
    ensures var t, e := ProducerStep(s, v, false, memory), ProducerEvent(s, memory);
            if e.Enq? || e.EnqFalse? then t.p.PIdle? else Left(t.p) < Left(s.p)
  {
  }

  lemma RunSafe<T>(s: State<T>, schedule: seq<Action<T>>)
    requires Inv(s) && s.p.PIdle? && WithoutLeave(schedule)
    ensures ProducerSafe(Exec(s, schedule).0) && NoLeave(Exec(s, schedule).0.p)
  {
    SoloRun(s, Lost(s), Sum(s.blocks, Room), schedule);
    BlockRingSteps.ProducerIsSafe(Exec(s, schedule).0);
  }

  lemma ReturnsOfOne<T>(trace: seq<Fifo.Event<T>>, e: Fifo.Event<T>)
    ensures Returns(trace + [e]) == Returns(trace) + (if e.Enq? || e.EnqFalse? then 1 else 0)
  {
    assert (trace + [e])[..|trace + [e]| - 1] == trace;
  }

  /** An enqueue without leave to allocate is over within eleven steps of its own: it never waits for the consumer. */
  lemma {:induction false} EnqueuesEnd<T>(s: State<T>, schedule: seq<Action<T>>)
    requires Inv(s) && s.p.PIdle? && WithoutLeave(schedule)
    ensures |schedule| + Left(Exec(s, schedule).0.p) <= 11 * Returns(Exec(s, schedule).1) + 11
  {
    if schedule != [] {
      var before, a := schedule[..|schedule| - 1], schedule[|schedule| - 1];
      EnqueuesEnd(s, before);
      RunSafe(s, before);
      var r := Exec(s, before);
      StepsRunOut(r.0, a.v, a.memory);
      ReturnsOfOne(r.1, EventOf(r.0, a));
    }
  }

  /**
   What `max_capacity` promises: in an empty queue, with the consumer standing still, enqueues without leave
   to allocate put exactly as many elements as the blocks have room for. After steps enough for one more,
   all of them are there and an enqueue has been refused.
   */
  lemma RunFillsExactly<T>(s: State<T>, schedule: seq<Action<T>>)
    requires Inv(s) && s.p.PIdle? && Q(s) == [] && WithoutLeave(schedule)
    requires |schedule| >= 11 * (Sum(s.blocks, Room) + 1)
    ensures var (end, trace) := Exec(s, schedule);
            && |Fifo.Enqs(trace)| == Sum(s.blocks, Room) == |Q(end)|
            && Returns(trace) > |Fifo.Enqs(trace)|
  {
    var room := Sum(s.blocks, Room);
    EmptyTakesAll(s, schedule);
    EnqueuesEnd(s, schedule);
    SoloRun(s, Lost(s), room, schedule);
  }

  /** As constructed for `size` elements, from 1 to 2^63 - 1, the queue has room for at least that many. */
  lemma ConstructedRoom<T>(s: State<T>, size: nat)
    requires C.Constructed(s, size) && C.MaxOk(s.max) && C.Fits(size)
    ensures Inv(s) && s.p.PIdle? && Q(s) == []
    ensures Sum(s.blocks, Room) == C.InitialCount(size, s.max) * (C.InitialSize(size, s.max) - 1) >= size
  {
    var count, each := C.InitialCount(size, s.max), C.InitialSize(size, s.max);
    C.ConstructorSuffices(size, s.max);
    InitInv(s, count, each);
    EqualRoom(s.blocks, each);
    if count > 1 {
      C.MulGrows(count - 1, count, each - 1);
    }
  }

  lemma {:induction false} EqualRoom<T>(blocks: seq<Block<T>>, each: nat)
    requires each >= 1 && forall i | 0 <= i < |blocks| :: blocks[i].size == each
    ensures Sum(blocks, Room) == |blocks| * (each - 1)
  {
    if blocks != [] {
      EqualRoom(blocks[..|blocks| - 1], each);
      assert |blocks| * (each - 1) == (|blocks| - 1) * (each - 1) + (each - 1);
    }
  }
}
