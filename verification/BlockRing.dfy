/**
 `moodycamel::ReaderWriterQueue` of include/moodycammel_queue.hpp as a machine of micro-steps.

 The queue is a circular linked list of blocks, each a circular buffer. Blocks are known by their
 allocation number and linked by `next`. Every load or store of a shared variable is one step, and
 the producer's and the consumer's steps interleave arbitrarily; fields that one thread alone reads
 and writes (`localFront`, `localTail`) are handled inside the neighbouring step of that thread.

 `ring`, `t`, `q`, `saw` and `seen` are bookkeeping for the proofs and never decide a branch: `ring`
 lists the linked blocks in `next` order from the front block, `ring[t]` is the tail block, a
 block's `q` is what it holds, `saw` says that the running consumer call has met an empty queue, and
 `seen` is the length of the queue when the producer last found its block full.
 */
module BlockRing {
  import opened Circular
  import Fifo

  const NULL: int := -1

  datatype Block<T> = Block(
    size: nat,
    front: nat,       // owned by the consumer
    tail: nat,        // owned by the producer
    localFront: nat,  // the producer's copy of front
    localTail: nat,   // the consumer's copy of tail
    next: int,
    data: seq<Cell<T>>,
    q: seq<T>)

  /** The three operations of the consumer: `try_dequeue`, `pop` and `peek`. */
  datatype Op = Dequeue | Discard | Look

  /** Where the producer stands inside `inner_enqueue`, named by what it does next. */
  datatype Producer<T> =
    | PIdle
    | PLoadTail(v: T, alloc: bool, tb: int)
    | PLoadFront(v: T, alloc: bool, tb: int, bt: nat)
    | PConstruct(v: T, tb: int, bt: nat)
    | PStoreTail(v: T, tb: int, bt: nat)
    | PLoadNext(v: T, alloc: bool, tb: int)
    | PCompare(v: T, alloc: bool, tb: int, nx: int)
    | PReuse(v: T, tb: int)
    | PReuseFront(v: T, nb: int)
    | PReuseTail(v: T, nb: int, nf: nat)
    | PReuseConstruct(v: T, nb: int, nt: nat)
    | PReuseStore(v: T, nb: int, nt: nat)
    | PAlloc(v: T, tb: int)
    | PInit(v: T, tb: int, nb: int)
    | PLinkNew(v: T, tb: int, nb: int)
    | PLinkTail(v: T, tb: int, nb: int)
    | PPublish(v: T, nb: int)

  /** Where the consumer stands inside one of its operations, named by what it does next. */
  datatype Consumer<T> =
    | CIdle
    | CLoadFront(op: Op, fb: int)
    | CLoadTail(op: Op, fb: int, bf: nat)
    | CLoadTailBlock(op: Op, fb: int)
    | CAgainBlock(op: Op)
    | CAgainTail(op: Op, fb: int)
    | CAgainFront(op: Op, fb: int, bt: nat)
    | CLoadNext(op: Op, fb: int)
    | CNextFront(op: Op, nb: int)
    | CNextTail(op: Op, nb: int, nf: nat)
    | CAdvance(op: Op, nb: int, nf: nat)
    | CTake(op: Op, b: int, f: nat)
    | CDestroy(b: int, f: nat, v: T)
    | CStoreFront(b: int, f: nat, v: T)

  datatype State<T> = State(
    max: nat,             // MAX_BLOCK_SIZE
    blocks: seq<Block<T>>,
    frontBlock: int,
    tailBlock: int,
    largest: nat,         // largestBlockSize
    p: Producer<T>,
    c: Consumer<T>,
    ring: seq<nat>,
    t: nat,
    saw: bool,
    seen: nat)

  /**
   Who moves next. The arguments are read only where the thread needs them: an idle thread is told
   what to do, and an allocation is told whether there is memory.
   */
  datatype Action<T> = Produce(v: T, alloc: bool, memory: bool) | Consume(op: Op)

  // ---------------------------------------------------------------- helpers

  predicate Valid<T>(s: State<T>, b: int) {
    0 <= b < |s.blocks|
  }

  function Put<T>(s: State<T>, b: int, x: Block<T>): State<T>
    requires Valid(s, b)
  {
    s.(blocks := s.blocks[b := x])
  }

  /** What a list of blocks holds, in order. */
  function Contents<T>(blocks: seq<Block<T>>, ids: seq<nat>): seq<T> {
    if ids == [] then []
    else (if ids[0] < |blocks| then blocks[ids[0]].q else []) + Contents(blocks, ids[1..])
  }

  /** What the queue holds: the blocks concatenated from `frontBlock` to `tailBlock`. */
  function Q<T>(s: State<T>): seq<T> {
    if s.t < |s.ring| then Contents(s.blocks, s.ring[..s.t + 1]) else []
  }

  /** The ring with nb linked behind place t. */
  function Inserted(ring: seq<nat>, t: nat, nb: nat): (r: seq<nat>)
    requires t < |ring|
    ensures |r| == |ring| + 1
    ensures forall i | 0 <= i < |r| :: r[i] == if i <= t then ring[i] else if i == t + 1 then nb else ring[i - 1]
  {
    seq(|ring| + 1, i requires 0 <= i < |ring| + 1 => if i <= t then ring[i] else if i == t + 1 then nb else ring[i - 1])
  }

  /** The same ring, named from the next block on. */
  function Rotated(ring: seq<nat>): (r: seq<nat>)
    requires ring != []
    ensures |r| == |ring|
    ensures forall i | 0 <= i < |r| :: r[i] == ring[Next(|ring|, i)]
  {
    seq(|ring|, i requires 0 <= i < |ring| => ring[Next(|ring|, i)])
  }

  function FreshBlock<T>(size: nat): Block<T> {
    Block(size, 0, 0, 0, 0, NULL, seq(size, _ => Raw), [])
  }

  function GrownSize(largest: nat, max: nat): nat {
    if largest >= max then largest else largest * 2
  }

  /** The source's indices stay below the block size; a step that would break this is unsafe. */
  predicate Shaped<T>(x: Block<T>) {
    x.front < x.size && x.tail < x.size && x.localFront < x.size && x.localTail < x.size && |x.data| == x.size
  }

  // ---------------------------------------------------------------- steps

  /**
   What the code demands of the producer's next step: pointers are valid, indices are inside the block,
   elements are constructed only in raw storage, and the assertions at lines 588 and 618 hold.
   */
  predicate ProducerSafe<T(==)>(s: State<T>) {
    match s.p
    case PIdle => true
    case PLoadTail(_, _, tb) => Valid(s, tb) && Shaped(s.blocks[tb])
    case PLoadFront(_, _, tb, bt) => Valid(s, tb) && bt < s.blocks[tb].size
    case PConstruct(_, tb, bt) => Valid(s, tb) && bt < |s.blocks[tb].data| && s.blocks[tb].data[bt] == Raw
    case PStoreTail(_, tb, bt) => Valid(s, tb) && bt < s.blocks[tb].size
    case PLoadNext(_, _, tb) => Valid(s, tb)
    case PCompare(_, _, tb, _) => true
    case PReuse(_, tb) => Valid(s, tb)
    case PReuseFront(_, nb) => Valid(s, nb)
    case PReuseTail(_, nb, nf) => Valid(s, nb) && nf == s.blocks[nb].tail
    case PReuseConstruct(_, nb, nt) => Valid(s, nb) && nt < |s.blocks[nb].data| && s.blocks[nb].data[nt] == Raw
    case PReuseStore(_, nb, nt) => Valid(s, nb) && nt < s.blocks[nb].size
    case PAlloc(_, tb) => true
    case PInit(_, tb, nb) =>
      && Valid(s, nb) && s.blocks[nb].front == 0
      && |s.blocks[nb].data| > 1 && s.blocks[nb].data[0] == Raw
    case PLinkNew(_, tb, nb) => Valid(s, tb) && Valid(s, nb)
    case PLinkTail(_, tb, nb) => Valid(s, tb) && Valid(s, nb)
    case PPublish(_, nb) => Valid(s, nb)
  }

  /** The same for the consumer; the assertions are those at lines 351, 416 and 467. */
  predicate ConsumerSafe<T(==)>(s: State<T>) {
    match s.c
    case CIdle => true
    case CLoadFront(_, fb) => Valid(s, fb)
    case CLoadTail(_, fb, _) => Valid(s, fb)
    case CLoadTailBlock(_, _) => true
    case CAgainBlock(_) => true
    case CAgainTail(_, fb) => Valid(s, fb)
    case CAgainFront(_, fb, _) => Valid(s, fb)
    case CLoadNext(_, fb) => Valid(s, fb)
    case CNextFront(_, nb) => Valid(s, nb)
    case CNextTail(op, nb, nf) =>
      && Valid(s, nb) && nf != s.blocks[nb].tail
      && (op.Look? ==> nf < |s.blocks[nb].data| && s.blocks[nb].data[nf].Live?)
    case CAdvance(_, nb, _) => Valid(s, nb)
    case CTake(_, b, f) => Valid(s, b) && f < |s.blocks[b].data| && s.blocks[b].data[f].Live?
    case CDestroy(b, f, _) => Valid(s, b) && f < |s.blocks[b].data| && s.blocks[b].data[f] == Moved
    case CStoreFront(b, f, _) => Valid(s, b) && f < s.blocks[b].size
  }

  predicate Safe<T(==)>(s: State<T>, a: Action<T>) {
    match a
    case Produce(_, _, _) => ProducerSafe(s)
    case Consume(_) => ConsumerSafe(s)
  }

  function ProducerStep<T(==)>(s: State<T>, v: T, alloc: bool, memory: bool): State<T>
    requires ProducerSafe(s)
  {
    match s.p
    case PIdle => s.(p := PLoadTail(v, alloc, s.tailBlock))
    case PLoadTail(x, al, tb) =>
      var b := s.blocks[tb];
      if Next(b.size, b.tail) != b.localFront then s.(p := PConstruct(x, tb, b.tail))
      else s.(p := PLoadFront(x, al, tb, b.tail))
    case PLoadFront(x, al, tb, bt) =>
      var b := s.blocks[tb].(localFront := s.blocks[tb].front);
      if Next(b.size, bt) != b.localFront then Put(s, tb, b).(p := PConstruct(x, tb, bt))
      else Put(s, tb, b).(p := PLoadNext(x, al, tb), seen := |Q(s)|)
    case PConstruct(x, tb, bt) =>
      var b := s.blocks[tb];
      Put(s, tb, b.(data := b.data[bt := Live(x)])).(p := PStoreTail(x, tb, bt))
    case PStoreTail(x, tb, bt) =>
      var b := s.blocks[tb];
      Put(s, tb, b.(tail := Next(b.size, bt), q := b.q + [x])).(p := PIdle)
    case PLoadNext(x, al, tb) => s.(p := PCompare(x, al, tb, s.blocks[tb].next))
    case PCompare(x, al, tb, nx) =>
      if nx != s.frontBlock then s.(p := PReuse(x, tb))
      else if al then s.(p := PAlloc(x, tb))
      else s.(p := PIdle)
    case PReuse(x, tb) => s.(p := PReuseFront(x, s.blocks[tb].next))
    case PReuseFront(x, nb) =>
      var b := s.blocks[nb];
      Put(s, nb, b.(localFront := b.front)).(p := PReuseTail(x, nb, b.front))
    case PReuseTail(x, nb, nf) =>
      var b := s.blocks[nb];
      Put(s, nb, b.(localFront := nf)).(p := PReuseConstruct(x, nb, b.tail))
    case PReuseConstruct(x, nb, nt) =>
      var b := s.blocks[nb];
      Put(s, nb, b.(data := b.data[nt := Live(x)])).(p := PReuseStore(x, nb, nt))
    case PReuseStore(x, nb, nt) =>
      var b := s.blocks[nb];
      Put(s, nb, b.(tail := Next(b.size, nt), q := b.q + [x])).(p := PPublish(x, nb))
    case PAlloc(x, tb) =>
      if memory then
        s.(blocks := s.blocks + [FreshBlock(GrownSize(s.largest, s.max))],
           largest := GrownSize(s.largest, s.max), p := PInit(x, tb, |s.blocks|))
      else s.(p := PIdle)
    case PInit(x, tb, nb) =>
      var b := s.blocks[nb];
      Put(s, nb, b.(data := b.data[0 := Live(x)], tail := 1, localTail := 1, q := [x])).(p := PLinkNew(x, tb, nb))
    case PLinkNew(x, tb, nb) =>
      Put(s, nb, s.blocks[nb].(next := s.blocks[tb].next)).(p := PLinkTail(x, tb, nb))
    case PLinkTail(x, tb, nb) =>
      Put(s, tb, s.blocks[tb].(next := nb)).(p := PPublish(x, nb),
        ring := if s.t < |s.ring| && 0 <= nb then Inserted(s.ring, s.t, nb) else s.ring)
    case PPublish(x, nb) => s.(tailBlock := nb, t := s.t + 1, p := PIdle)
  }

  function ConsumerStep<T(==)>(s: State<T>, op: Op): State<T>
    requires ConsumerSafe(s)
  {
    match s.c
    case CIdle => s.(c := CLoadFront(op, s.frontBlock), saw := false)
    case CLoadFront(o, fb) =>
      var b := s.blocks[fb];
      if b.front != b.localTail then s.(c := CTake(o, fb, b.front)) else s.(c := CLoadTail(o, fb, b.front))
    case CLoadTail(o, fb, bf) =>
      var b := s.blocks[fb].(localTail := s.blocks[fb].tail);
      if bf != b.localTail then Put(s, fb, b).(c := CTake(o, fb, bf))
      else Put(s, fb, b).(c := CLoadTailBlock(o, fb), saw := s.saw || Q(s) == [])
    case CLoadTailBlock(o, fb) =>
      if fb != s.tailBlock then s.(c := CAgainBlock(o)) else s.(c := CIdle, saw := false)
    case CAgainBlock(o) => s.(c := CAgainTail(o, s.frontBlock))
    case CAgainTail(o, fb) =>
      var b := s.blocks[fb];
      Put(s, fb, b.(localTail := b.tail)).(c := CAgainFront(o, fb, b.tail))
    case CAgainFront(o, fb, bt) =>
      var b := s.blocks[fb];
      if b.front != bt then s.(c := CTake(o, fb, b.front)) else s.(c := CLoadNext(o, fb))
    case CLoadNext(o, fb) => s.(c := CNextFront(o, s.blocks[fb].next))
    case CNextFront(o, nb) => s.(c := CNextTail(o, nb, s.blocks[nb].front))
    case CNextTail(o, nb, nf) =>
      var b := s.blocks[nb];
      if o.Look? then s.(c := CIdle, saw := false)
      else Put(s, nb, b.(localTail := b.tail)).(c := CAdvance(o, nb, nf))
    case CAdvance(o, nb, nf) =>
      s.(frontBlock := nb, c := CTake(o, nb, nf), t := if s.t > 0 then s.t - 1 else 0,
         ring := if s.ring == [] then [] else Rotated(s.ring))
    case CTake(o, b, f) =>
      var x := s.blocks[b];
      (match o
       case Dequeue => Put(s, b, x.(data := x.data[f := Moved])).(c := CDestroy(b, f, x.data[f].value))
       case Discard => Put(s, b, x.(data := x.data[f := Raw])).(c := CStoreFront(b, f, x.data[f].value))
       case Look => s.(c := CIdle, saw := false))
    case CDestroy(b, f, v) =>
      var x := s.blocks[b];
      Put(s, b, x.(data := x.data[f := Raw])).(c := CStoreFront(b, f, v))
    case CStoreFront(b, f, v) =>
      var x := s.blocks[b];
      Put(s, b, x.(front := Next(x.size, f), q := if x.q == [] then [] else x.q[1..])).(c := CIdle, saw := false)
  }

  function Step<T(==)>(s: State<T>, a: Action<T>): State<T>
    requires Safe(s, a)
  {
    match a
    case Produce(v, alloc, memory) => ProducerStep(s, v, alloc, memory)
    case Consume(op) => ConsumerStep(s, op)
  }

  // ---------------------------------------------------------------- results

  /** The results the producer's caller sees; a successful enqueue takes effect at the `tail` or `tailBlock` store. */
  function ProducerEvent<T(==)>(s: State<T>, memory: bool): Fifo.Event<T>
    requires ProducerSafe(s)
  {
    match s.p
    case PStoreTail(x, _, _) => Fifo.Enq(x)
    case PPublish(x, _) => Fifo.Enq(x)
    case PCompare(_, al, _, nx) => if nx == s.frontBlock && !al then Fifo.EnqFalse else Fifo.Tau
    case PAlloc(_, _) => if memory then Fifo.Tau else Fifo.EnqFalse
    case _ => Fifo.Tau
  }

  /** The results the consumer's caller sees; a dequeue takes effect at the `front` store. */
  function ConsumerEvent<T(==)>(s: State<T>): Fifo.Event<T>
    requires ConsumerSafe(s)
  {
    match s.c
    case CIdle => Fifo.Invoke
    case CLoadTail(_, fb, bf) => if bf == s.blocks[fb].tail && Q(s) == [] then Fifo.Observe else Fifo.Tau
    case CLoadTailBlock(_, fb) => if fb == s.tailBlock then Fifo.DeqFalse else Fifo.Tau
    case CNextTail(op, nb, nf) => if op.Look? then Fifo.Peek(s.blocks[nb].data[nf].value) else Fifo.Tau
    case CTake(op, b, f) => if op.Look? then Fifo.Peek(s.blocks[b].data[f].value) else Fifo.Tau
    case CStoreFront(_, _, v) => Fifo.Deq(v)
    case _ => Fifo.Tau
  }

  function EventOf<T(==)>(s: State<T>, a: Action<T>): Fifo.Event<T>
    requires Safe(s, a)
  {
    match a
    case Produce(_, _, memory) => ProducerEvent(s, memory)
    case Consume(_) => ConsumerEvent(s)
  }

  // ---------------------------------------------------------------- the constructor

  /** `initialBlockCount` blocks of equal size, linked in a circle, as lines 116-157 leave them. */
  function InitialBlock<T>(count: nat, size: nat, i: nat): Block<T>
    requires i < count
  {
    FreshBlock<T>(size).(next := Next(count, i))
  }

  predicate Init<T(==)>(s: State<T>, count: nat, size: nat) {
    && count >= 1 && |s.blocks| == count && s.max >= 2
    && (forall i | 0 <= i < count :: s.blocks[i] == InitialBlock(count, size, i))
    && s.frontBlock == 0 && s.tailBlock == 0 && s.largest == size
    && s.p == PIdle && s.c == CIdle
    && |s.ring| == count && (forall i | 0 <= i < count :: s.ring[i] == i)
    && s.t == 0 && !s.saw
  }
}
