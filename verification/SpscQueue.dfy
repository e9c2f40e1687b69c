/**
 The single-producer single-consumer queue of include/spsc_queue.hpp as a machine of micro-steps.

 Every atomic load or store and every access to a slot is one step, and the steps of the two threads
 interleave arbitrarily. The two counters run freely and wrap at 2^64; a slot is selected by a mask.
 */
module SpscQueue {
  import opened Words
  import opened Circular
  import opened Accounting
  import Fifo

  /** Where the producer stands inside `try_push`. */
  datatype Producer<T> =
    | PIdle
    | PHaveWriter(v: T, w: nat)   // writer_ loaded, reader_ not yet
    | PRoom(v: T, w: nat)         // there was room; about to construct
    | PBuilt(v: T, w: nat)        // constructed; about to store writer_

  /** Where the consumer stands inside `try_pop`. */
  datatype Consumer<T> =
    | CIdle
    | CHaveReader(r: nat)         // reader_ loaded, writer_ not yet
    | CReady(r: nat)              // not empty; about to move the element out
    | CTaken(r: nat, v: T)        // moved out; about to destroy it
    | CDestroyed(r: nat, v: T)    // destroyed; about to store reader_

  /** The shared memory, the two threads' registers, and the abstract contents q. */
  datatype State<T> = State(
    k: nat,               // there are 2^k slots
    slots: seq<Cell<T>>,
    reader: nat,
    writer: nat,
    p: Producer<T>,
    c: Consumer<T>,
    q: seq<T>)

  /** Who moves next; an idle producer is given the value to push. */
  datatype Action<T> = Produce(v: T) | Consume

  /** `x & wrapMask_`. */
  function Mask(k: nat, x: nat): nat {
    And(x, Pow2(k) - 1)
  }

  function Used(writer: nat, reader: nat): nat
    requires writer < W && reader < W
  {
    Sub64(writer, reader)
  }

  function FreeSpace(slots: nat, writer: nat, reader: nat): nat
    requires 1 <= slots <= W && writer < W && reader < W
  {
    Sub64(slots - 1, Used(writer, reader))
  }

  /**
   What the machine demands of the next step: it stays inside memory, an element is constructed only in
   raw storage, and only a live element is moved from or destroyed.
   */
  predicate Safe<T(==)>(s: State<T>, a: Action<T>) {
    && 1 <= |s.slots| <= W && s.reader < W && s.writer < W
    && match a
       case Produce(_) =>
         (match s.p
          case PIdle => true
          case PHaveWriter(_, w) => w < W
          case PRoom(_, w) => Mask(s.k, w) < |s.slots| && s.slots[Mask(s.k, w)] == Raw
          case PBuilt(_, w) => w < W)
       case Consume =>
         (match s.c
          case CIdle => true
          case CHaveReader(r) => true
          case CReady(r) => Mask(s.k, r) < |s.slots| && s.slots[Mask(s.k, r)].Live?
          case CTaken(r, _) => Mask(s.k, r) < |s.slots| && s.slots[Mask(s.k, r)] == Moved
          case CDestroyed(r, _) => r < W)
  }

  function ProducerStep<T(==)>(s: State<T>, v: T): State<T>
    requires Safe(s, Produce(v))
  {
    match s.p
    case PIdle => s.(p := PHaveWriter(v, s.writer))
    case PHaveWriter(x, w) =>
      if FreeSpace(|s.slots|, w, s.reader) < 1 then s.(p := PIdle) else s.(p := PRoom(x, w))
    case PRoom(x, w) => s.(slots := s.slots[Mask(s.k, w) := Live(x)], p := PBuilt(x, w))
    case PBuilt(x, w) => s.(writer := Add64(w, 1), p := PIdle, q := s.q + [x])
  }

  function ConsumerStep<T(==)>(s: State<T>): State<T>
    requires Safe(s, Consume)
  {
    match s.c
    case CIdle => s.(c := CHaveReader(s.reader))
    case CHaveReader(r) => if r == s.writer then s.(c := CIdle) else s.(c := CReady(r))
    case CReady(r) =>
      s.(slots := s.slots[Mask(s.k, r) := Moved], c := CTaken(r, s.slots[Mask(s.k, r)].value))
    case CTaken(r, v) => s.(slots := s.slots[Mask(s.k, r) := Raw], c := CDestroyed(r, v))
    case CDestroyed(r, v) =>
      s.(reader := Add64(r, 1), c := CIdle, q := if s.q == [] then [] else s.q[1..])
  }

  function Step<T(==)>(s: State<T>, a: Action<T>): State<T>
    requires Safe(s, a)
  {
    match a
    case Produce(v) => ProducerStep(s, v)
    case Consume => ConsumerStep(s)
  }

  /** What a step shows to the callers: the results that `try_push` and `try_pop` return. */
  function EventOf<T(==)>(s: State<T>, a: Action<T>): Fifo.Event<T>
    requires Safe(s, a)
  {
    match a
    case Produce(_) =>
      (match s.p
       case PHaveWriter(_, w) => if FreeSpace(|s.slots|, w, s.reader) < 1 then Fifo.EnqFalse else Fifo.Tau
       case PBuilt(x, _) => Fifo.Enq(x)
       case _ => Fifo.Tau)
    case Consume =>
      (match s.c
       case CIdle => Fifo.Invoke
       case CHaveReader(r) => if r == s.writer then Fifo.DeqFalse else Fifo.Tau
       case CDestroyed(_, v) => Fifo.Deq(v)
       case _ => Fifo.Tau)
  }

  predicate Init<T(==)>(s: State<T>) {
    && s.k <= 64 && |s.slots| == Pow2(s.k)
    && (forall i | 0 <= i < |s.slots| :: s.slots[i] == Raw)
    && s.reader == 0 && s.writer == 0 && s.p == PIdle && s.c == CIdle && s.q == []
  }

  // ---------------------------------------------------------------- the invariant

  predicate ProducerInv<T(==)>(s: State<T>)
    requires |s.slots| >= 1
  {
    match s.p
    case PIdle => true
    case PHaveWriter(_, w) => w == s.writer
    case PRoom(_, w) => w == s.writer && |s.q| + 1 < |s.slots|
    case PBuilt(v, w) =>
      && w == s.writer && |s.q| + 1 < |s.slots|
      && Mask(s.k, w) < |s.slots| && s.slots[Mask(s.k, w)] == Live(v)
  }

  predicate ConsumerInv<T(==)>(s: State<T>)
    requires |s.slots| >= 1
  {
    match s.c
    case CIdle => true
    case CHaveReader(r) => r == s.reader
    case CReady(r) => r == s.reader && s.q != []
    case CTaken(r, v) =>
      && r == s.reader && s.q != [] && v == s.q[0]
      && Mask(s.k, r) < |s.slots| && s.slots[Mask(s.k, r)] == Moved
    case CDestroyed(r, v) =>
      && r == s.reader && s.q != [] && v == s.q[0]
      && Mask(s.k, r) < |s.slots| && s.slots[Mask(s.k, r)] == Raw
  }

  predicate Taken<T>(s: State<T>) { s.c.CTaken? || s.c.CDestroyed? }

  predicate Inv<T(==)>(s: State<T>) {
    && s.k <= 64 && |s.slots| == Pow2(s.k)
    && s.reader < W && s.writer < W
    && Sub64(s.writer, s.reader) == |s.q|
    && Holds(s.slots, Mask(s.k, s.reader), s.q, Taken(s), s.p.PBuilt?)
    && ProducerInv(s) && ConsumerInv(s)
  }

  lemma ModAdd(x: nat, d: nat, n: nat)
    requires d < n
    ensures (x + d) % n == At(n, x % n, d)
  {
    var q, r := x / n, x % n;
    assert x + d == q * n + (r + d);
    if r + d < n {
      DivModUnique(x + d, n, q, r + d);
    } else {
      assert x + d == (q + 1) * n + (r + d - n);
      DivModUnique(x + d, n, q + 1, r + d - n);
    }
  }

  /** Moving a free-running counter moves the masked index the same way round the ring, wrap or no wrap. */
  lemma MaskAdd(k: nat, x: nat, d: nat)
    requires k <= 64 && x < W && d < Pow2(k)
    ensures Pow2(k) <= W && Mask(k, x) < Pow2(k)
    ensures Mask(k, Add64(x, d)) == At(Pow2(k), Mask(k, x), d)
  {
    Pow2At64();
    Pow2Monotone(k, 64);
    MaskIsMod(x, k);
    MaskIsMod(Add64(x, d), k);
    ModAdd(x, d, Pow2(k));
    if x + d >= W {
      WrapKeepsMod(x + d, k);
    }
  }

  /** The masked writer is the slot just past the elements. */
  lemma WriterSlot<T>(s: State<T>)
    requires Inv(s)
    ensures 1 <= |s.slots| <= W
    ensures Mask(s.k, s.reader) < |s.slots|
    ensures Mask(s.k, s.writer) == At(|s.slots|, Mask(s.k, s.reader), |s.q|)
  {
    MaskAdd(s.k, s.reader, |s.q|);
  }

  lemma NextSlot(k: nat, x: nat)
    requires k <= 64 && x < W
    ensures Pow2(k) <= W && Mask(k, x) < Pow2(k)
    ensures k > 0 ==> Mask(k, Add64(x, 1)) == Next(Pow2(k), Mask(k, x))
  {
    MaskAdd(k, x, 0);
    if k > 0 {
      assert Pow2(k) >= 2;
      MaskAdd(k, x, 1);
    }
  }

  lemma InitInv<T>(s: State<T>)
    requires Init(s)
    ensures Inv(s)
  {
    MaskAdd(s.k, 0, 0);
  }

  /** `bufferSizeSlots_ - 1 - avail` never underflows: it is the number of slots still free. */
  lemma FreeSpaceExact<T>(s: State<T>)
    requires Inv(s)
    ensures 1 <= |s.slots| <= W
    ensures Used(s.writer, s.reader) == |s.q|
    ensures FreeSpace(|s.slots|, s.writer, s.reader) == |s.slots| - 1 - |s.q|
  {
    WriterSlot(s);
  }

  /** No step of either thread ever leaves memory or breaks an object's lifetime. */
  lemma InvSafe<T>(s: State<T>, a: Action<T>)
    requires Inv(s)
    ensures Safe(s, a)
  {
    WriterSlot(s);
    if a.Produce? && s.p.PRoom? {
      Construct(s.slots, Mask(s.k, s.reader), s.q, Taken(s), Mask(s.k, s.writer), s.p.v);
    }
    if a.Consume? && s.c.CReady? {
      Take(s.slots, Mask(s.k, s.reader), s.q, false, s.p.PBuilt?, Moved);
    }
  }

  /** The slot the producer is about to fill is never the slot the consumer is working on. */
  lemma SlotsDisjoint<T>(s: State<T>)
    requires Inv(s)
    requires s.p.PRoom? || s.p.PBuilt?
    requires s.c.CReady? || s.c.CTaken? || s.c.CDestroyed?
    ensures Mask(s.k, s.p.w) != Mask(s.k, s.c.r)
  {
    WriterSlot(s);
  }

  lemma ProducerKeeps<T>(s: State<T>, v: T)
    requires Inv(s) && Safe(s, Produce(v))
    ensures Inv(ProducerStep(s, v))
  {
    WriterSlot(s);
    FreeSpaceExact(s);
    var head, tail := Mask(s.k, s.reader), Mask(s.k, s.writer);
    match s.p
    case PRoom(x, w) =>
      Construct(s.slots, head, s.q, Taken(s), tail, x);
    case PBuilt(x, w) =>
      Publish(s.slots, head, s.q, Taken(s), tail, x);
    case _ =>
  }

  lemma ConsumerKeeps<T>(s: State<T>)
    requires Inv(s) && Safe(s, Consume)
    ensures Inv(ConsumerStep(s))
  {
    WriterSlot(s);
    var head := Mask(s.k, s.reader);
    match s.c
    case CReady(r) =>
      Take(s.slots, head, s.q, false, s.p.PBuilt?, Moved);
    case CTaken(r, v) =>
      Take(s.slots, head, s.q, true, s.p.PBuilt?, Raw);
    case CDestroyed(r, v) =>
      assert |s.slots| >= 2;
      NextSlot(s.k, s.reader);
      Advance(s.slots, head, s.q, s.p.PBuilt?);
    case _ =>
  }

  /** Every step refines the bounded FIFO: the machine's contents follow the event, and the event was allowed. */
  lemma StepRefines<T>(s: State<T>, a: Action<T>)
    requires Inv(s) && Safe(s, a)
    ensures Inv(Step(s, a))
    ensures Fifo.Allowed(Fifo.Some(|s.slots| - 1), Fifo.Spec(s.q, false), EventOf(s, a))
    ensures Step(s, a).q == Fifo.Apply(Fifo.Spec(s.q, false), EventOf(s, a)).q
    ensures |Step(s, a).slots| == |s.slots|
    ensures !EventOf(s, a).Observe?
  {
    FreeSpaceExact(s);
    match a
    case Produce(v) => ProducerKeeps(s, v);
    case Consume => ConsumerKeeps(s);
  }

  // ---------------------------------------------------------------- whole runs

  /** The state after a schedule of steps together with what the callers saw; an unsafe step would halt it. */
  function Exec<T(==)>(s: State<T>, schedule: seq<Action<T>>): (r: (State<T>, seq<Fifo.Event<T>>)) {
    if schedule == [] then (s, [])
    else Extend(Exec(s, schedule[..|schedule| - 1]), schedule[|schedule| - 1])
  }

  function Extend<T(==)>(r: (State<T>, seq<Fifo.Event<T>>), a: Action<T>): (State<T>, seq<Fifo.Event<T>>) {
    if Safe(r.0, a) then (Step(r.0, a), r.1 + [EventOf(r.0, a)]) else r
  }

  /** The machine state r.0 and the trace r.1 agree with the abstract queue of capacity `bound`. */
  ghost predicate Agrees<T>(bound: nat, r: (State<T>, seq<Fifo.Event<T>>)) {
    && Inv(r.0) && |r.0.slots| == bound + 1
    && Fifo.Legal(Fifo.Some(bound), Fifo.Spec([], false), r.1)
    && Fifo.Run(Fifo.Spec([], false), r.1) == Fifo.Spec(r.0.q, false)
  }

  /** One more step keeps the correspondence between the machine and the abstract queue. */
  lemma ExtendAgrees<T>(bound: nat, r: (State<T>, seq<Fifo.Event<T>>), a: Action<T>)
    requires Agrees(bound, r)
    ensures Agrees(bound, Extend(r, a))
  {
    InvSafe(r.0, a);
    StepRefines(r.0, a);
    var e := EventOf(r.0, a);
    assert (r.1 + [e])[..|r.1 + [e]| - 1] == r.1;
  }

  /**
   Every interleaving of pushes and pops refines a FIFO of capacity (slots - 1): the results returned
   are those of the abstract queue, and `q` is what the abstract queue holds.
   */
  lemma {:induction false} RunRefines<T>(s: State<T>, schedule: seq<Action<T>>)
    requires Init(s)
    ensures |s.slots| >= 1 && Agrees(|s.slots| - 1, Exec(s, schedule))
  {
    if schedule == [] {
      InitInv(s);
    } else {
      RunRefines(s, schedule[..|schedule| - 1]);
      ExtendAgrees(|s.slots| - 1, Exec(s, schedule[..|schedule| - 1]), schedule[|schedule| - 1]);
    }
  }

  /** No schedule is ever halted by an unsafe step. */
  lemma RunNeverUnsafe<T>(s: State<T>, schedule: seq<Action<T>>, a: Action<T>)
    requires Init(s)
    ensures Safe(Exec(s, schedule).0, a)
  {
    RunRefines(s, schedule);
    InvSafe(Exec(s, schedule).0, a);
  }

  /** What came out is a prefix of what went in, and at most (slots - 1) values are in between. */
  lemma RunIsFifo<T>(s: State<T>, schedule: seq<Action<T>>)
    requires Init(s)
    ensures var (end, trace) := Exec(s, schedule);
            && Fifo.Enqs(trace) == Fifo.Deqs(trace) + end.q
            && |Fifo.Enqs(trace)| - |Fifo.Deqs(trace)| <= |s.slots| - 1
  {
    RunRefines(s, schedule);
    var (end, trace) := Exec(s, schedule);
    Fifo.NothingLost(Fifo.Some(|s.slots| - 1), trace);
    Fifo.WithinBound(|s.slots| - 1, trace);
  }

  // ---------------------------------------------------------------- interference

  /** What consumer steps may do to the state while the producer looks away. */
  predicate ConsumerRely<T(==)>(s: State<T>, t: State<T>) {
    && Inv(t) && t.k == s.k && |t.slots| == |s.slots| && t.p == s.p && t.writer == s.writer
    && Remains(t.q, s.q)
  }

  /** What producer steps may do to the state while the consumer looks away. */
  predicate ProducerRely<T(==)>(s: State<T>, t: State<T>) {
    && Inv(t) && t.k == s.k && |t.slots| == |s.slots| && t.c == s.c && t.reader == s.reader && s.q <= t.q
  }

  lemma ConsumerStepRely<T>(s: State<T>, t: State<T>)
    requires ConsumerRely(s, t)
    ensures Safe(t, Consume) && ConsumerRely(s, ConsumerStep(t))
  {
    InvSafe(t, Consume);
    ConsumerKeeps(t);
  }

  lemma ProducerStepRely<T>(s: State<T>, t: State<T>, v: T)
    requires ProducerRely(s, t)
    ensures Safe(t, Produce(v)) && ProducerRely(s, ProducerStep(t, v))
  {
    InvSafe(t, Produce(v));
    ProducerKeeps(t, v);
  }

  // ---------------------------------------------------------------- the destructor

  /** The destructor's loop: the elements it destroys, in order, and the slots afterwards. */
  function Destruct<T(==)>(slots: seq<Cell<T>>, k: nat, reader: nat, writer: nat): (seq<T>, seq<Cell<T>>)
    requires reader < W && writer < W
    decreases Sub64(writer, reader)
  {
    var i := Mask(k, reader);
    if reader == writer || i >= |slots| then ([], slots)
    else
      var rest := Destruct(slots[i := Raw], k, Add64(reader, 1), writer);
      ((if slots[i].Live? then [slots[i].value] else []) + rest.0, rest.1)
  }

  /** One round: the oldest element is in the slot of r, and when it is gone the rest start at r + 1. */
  lemma OldestGoes<T>(slots: seq<Cell<T>>, k: nat, r: nat, w: nat, left: seq<T>)
    requires k <= 64 && |slots| == Pow2(k) && r < W && w < W && left != []
    requires Mask(k, r) < |slots| && Holds(slots, Mask(k, r), left, false, false) && Sub64(w, r) == |left| < W
    ensures slots[Mask(k, r)] == Live(left[0])
    ensures Holds(slots[Mask(k, r) := Raw], Mask(k, Add64(r, 1)), left[1..], false, false)
    ensures Sub64(w, Add64(r, 1)) == |left| - 1
  {
    DropOldest(slots, Mask(k, r), left);
    NextSlot(k, r);
  }

  lemma {:induction false} DestructFrom<T>(slots: seq<Cell<T>>, k: nat, r: nat, w: nat, left: seq<T>)
    requires k <= 64 && |slots| == Pow2(k) && r < W && w < W
    requires Mask(k, r) < |slots| && Holds(slots, Mask(k, r), left, false, false) && Sub64(w, r) == |left| < W
    ensures var (destroyed, after) := Destruct(slots, k, r, w);
            destroyed == left && |after| == |slots| && AllRaw(after)
    decreases |left|
  {
    if left == [] {
      EmptyIsRaw(slots, Mask(k, r));
    } else {
      OldestGoes(slots, k, r, w, left);
      DestructFrom(slots[Mask(k, r) := Raw], k, Add64(r, 1), w, left[1..]);
      assert left == [left[0]] + left[1..];
    }
  }

  /** With no call in flight, the destructor destroys the contents, oldest first, and leaves no object. */
  lemma DestructIs<T>(s: State<T>)
    requires Inv(s) && s.p.PIdle? && s.c.CIdle?
    ensures s.reader < W && s.writer < W
    ensures var (destroyed, after) := Destruct(s.slots, s.k, s.reader, s.writer);
            destroyed == s.q && |after| == |s.slots| && AllRaw(after)
  {
    WriterSlot(s);
    FreeSpaceExact(s);
    DestructFrom(s.slots, s.k, s.reader, s.writer, s.q);
  }
}
