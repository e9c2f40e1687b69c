/**
 `BlockingReaderWriterQueue` of include/moodycammel_queue.hpp: the block ring and the semaphore run
 together. The producer signals after each enqueue; the consumer dequeues after each grant.

 Every step of the combined machine is one step of the ring or one step of the semaphore, so all the
 interleavings of the two are covered.
 */
module BlockingQueue {
  import Ring = BlockRing
  import RingInv = BlockRingInvariant
  import RingRef = BlockRingRefinement
  import RingCap = BlockRingCapacity
  import Sema = Semaphore
  import Fifo

  /**
   The consumer's calls: `try_dequeue` and `wait_dequeue_timed` are a dequeue behind a wait, `wait_dequeue`
   (`Await`) is one behind as many waits as it takes, `pop` is behind a `tryWait`, and `peek` does not wait.
   */
  datatype Call = Dequeue(r: Sema.Request) | Await | Pop | Peek

  /** Where the producer stands between the two parts of an enqueue. */
  datatype Producer = PIdle | PEnqueue | PSignal | PPost

  /** Where the consumer stands between the two parts of a call; at `CAgain`, `wait_dequeue` is about to wait once more. */
  datatype Consumer = CIdle | CWait(call: Call) | CAgain | CDequeue(call: Call) | CPeek

  datatype State<T> = State(ring: Ring.State<T>, sema: Sema.State, p: Producer, c: Consumer)

  /** Who moves next, with the choices that the caller, the allocator or the kernel makes. */
  datatype Action<T> = Produce(v: T, alloc: bool, memory: bool) | Consume(call: Call, gaveUp: bool)

  /**
   The next step is safe in the ring or the semaphore, and the assertions at lines 865, 881, 900 and 938
   hold: a dequeue behind a grant does not report "empty".
   */
  predicate Safe<T(==)>(s: State<T>, a: Action<T>) {
    match a
    case Produce(v, alloc, memory) =>
      (match s.p
       case PIdle => Ring.ProducerSafe(s.ring)
       case PEnqueue => Ring.ProducerSafe(s.ring)
       case PSignal => Sema.Safe(s.sema, Sema.Signal(1))
       case PPost => Sema.Safe(s.sema, Sema.Post))
    case Consume(call, gaveUp) =>
      (match s.c
       case CIdle => if call.Peek? then Ring.ConsumerSafe(s.ring) else Sema.Safe(s.sema, Sema.Begin(RequestOf(call)))
       case CWait(_) => Sema.Safe(s.sema, Sema.Proceed(gaveUp))
       case CAgain => Sema.Safe(s.sema, Sema.Begin(RequestOf(Await)))
       case CDequeue(_) => Ring.ConsumerSafe(s.ring) && !Ring.ConsumerEvent(s.ring).DeqFalse?
       case CPeek => Ring.ConsumerSafe(s.ring))
  }

  /** One step of the ring's consumer behind a wait, or of a peek. */
  function RingConsumer<T(==)>(s: State<T>, op: Ring.Op, more: Consumer): State<T>
    requires Ring.ConsumerSafe(s.ring)
  {
    var t := Ring.ConsumerStep(s.ring, op);
    s.(ring := t, c := if t.c.CIdle? then CIdle else more)
  }

  function OpOf(call: Call): Ring.Op {
    match call
    case Dequeue(_) => Ring.Dequeue
    case Await => Ring.Dequeue
    case Pop => Ring.Discard
    case Peek => Ring.Look
  }

  function RequestOf(call: Call): Sema.Request {
    match call
    case Dequeue(r) => r
    case Await => Sema.Wait(-1)
    case Pop => Sema.Try
    case Peek => Sema.Try
  }

  function Step<T(==)>(s: State<T>, a: Action<T>): State<T>
    requires Safe(s, a)
  {
    match a
    case Produce(v, alloc, memory) =>
      (match s.p
       case PIdle => s.(ring := Ring.ProducerStep(s.ring, v, alloc, memory), p := PEnqueue)
       case PEnqueue =>
         var e := Ring.ProducerEvent(s.ring, memory);
         s.(ring := Ring.ProducerStep(s.ring, v, alloc, memory),
            p := if e.Enq? then PSignal else if e.EnqFalse? then PIdle else PEnqueue)
       case PSignal =>
         var t := Sema.Step(s.sema, Sema.Signal(1));
         s.(sema := t, p := if t.post then PPost else PIdle)
       case PPost => s.(sema := Sema.Step(s.sema, Sema.Post), p := PIdle))
    case Consume(call, gaveUp) =>
      (match s.c
       case CIdle =>
         if call.Peek? then RingConsumer(s, Ring.Look, CPeek)
         else s.(sema := Sema.Step(s.sema, Sema.Begin(RequestOf(call))), c := CWait(call))
       case CWait(now) =>
         var e := Sema.EventOf(s.sema, Sema.Proceed(gaveUp));
         s.(sema := Sema.Step(s.sema, Sema.Proceed(gaveUp)),
            c := if e.Granted? then CDequeue(now)
                 else if !e.Refused? then CWait(now)
                 else if now.Await? then CAgain
                 else CIdle)
       case CAgain => s.(sema := Sema.Step(s.sema, Sema.Begin(RequestOf(Await))), c := CWait(Await))
       case CDequeue(now) => RingConsumer(s, OpOf(now), CDequeue(now))
       case CPeek => RingConsumer(s, Ring.Look, CPeek))
  }

  /** What a step shows of the queue: the result of the ring's step, if it is one. */
  function EventOf<T(==)>(s: State<T>, a: Action<T>): Fifo.Event<T>
    requires Safe(s, a)
  {
    match a
    case Produce(_, _, memory) => if s.p.PEnqueue? then Ring.ProducerEvent(s.ring, memory) else Fifo.Tau
    case Consume(call, _) =>
      if s.c.CDequeue? || s.c.CPeek? || (s.c.CIdle? && call.Peek?) then Ring.ConsumerEvent(s.ring) else Fifo.Tau
  }

  /** The step at which `try_dequeue`, `pop` or `wait_dequeue_timed` decides to return false, or `wait_dequeue` to wait once more. */
  predicate Refuses<T>(s: State<T>, a: Action<T>) {
    a.Consume? && s.c.CWait? && !s.sema.w.WIdle? && Sema.EventOf(s.sema, Sema.Proceed(a.gaveUp)).Refused?
  }

  predicate Init<T(==)>(s: State<T>, count: nat, size: nat) {
    Ring.Init(s.ring, count, size) && Sema.Init(s.sema) && s.sema.count == 0 && s.p == PIdle && s.c == CIdle
  }

  // ---------------------------------------------------------------- the invariant

  /** How many tokens stand for elements not yet signalled or grants not yet used. */
  function Unsignalled<T>(s: State<T>): nat { if s.p.PSignal? then 1 else 0 }
  function Unused<T>(s: State<T>): nat { if s.c.CDequeue? then 1 else 0 }

  /** The three parts are where the outer calls say they are. */
  predicate InStep<T>(s: State<T>) {
    && (s.p.PEnqueue? <==> !s.ring.p.PIdle?)
    && (s.p.PPost? <==> s.sema.post)
    && (s.c.CWait? <==> !s.sema.w.WIdle?)
    && (s.c.CIdle? || s.c.CWait? || s.c.CAgain? ==> s.ring.c.CIdle?)
    && (s.c.CWait? ==> s.sema.call == RequestOf(s.c.call))
    && (s.c.CWait? || s.c.CDequeue? ==> !s.c.call.Peek?)
    && (s.c.CDequeue? && !s.ring.c.CIdle? ==> !s.ring.saw && Takes(s.ring.c))
    && (s.c.CPeek? ==> !s.ring.c.CIdle? && Looks(s.ring.c))
  }

  /** The ring's consumer is inside `try_dequeue` or `pop`. */
  predicate Takes<T>(c: Ring.Consumer<T>) {
    c.CIdle? || c.CDestroy? || c.CStoreFront? || !c.op.Look?
  }

  /** The ring's consumer is inside `peek`. */
  predicate Looks<T>(c: Ring.Consumer<T>) {
    c.CIdle? || (!c.CDestroy? && !c.CStoreFront? && c.op.Look? && !c.CAdvance?)
  }

  /** Elements enqueued are tokens signalled plus those about to be; elements removed are grants less one not yet used. */
  predicate Balanced<T>(s: State<T>) {
    |Ring.Q(s.ring)| == s.sema.signalled + Unsignalled(s) - (s.sema.granted - Unused(s))
  }

  predicate Inv<T(==)>(s: State<T>) {
    RingInv.Inv(s.ring) && Sema.Inv(s.sema) && InStep(s) && Balanced(s)
  }

  /** While a grant is unused there is an element for it. */
  lemma GrantFindsElement<T>(s: State<T>)
    requires Inv(s) && s.c.CDequeue?
    ensures Ring.Q(s.ring) != []
  {
  }

  lemma InitInv<T>(s: State<T>, count: nat, size: nat)
    requires Init(s, count, size) && size >= 2
    ensures Inv(s)
  {
    RingRef.InitInv(s.ring, count, size);
  }

  /** The dequeue behind a grant never fails: the assertions on `success` and `result` hold. */
  lemma AlwaysSafe<T>(s: State<T>, a: Action<T>)
    requires Inv(s)
    ensures Safe(s, a)
  {
    match a
    case Produce(v, alloc, memory) =>
      RingRef.ProducerKeeps(s.ring, v, alloc, memory);
    case Consume(call, _) =>
      RingRef.ConsumerKeeps(s.ring, OpOf(call));
      if s.c.CDequeue? {
        DequeueSafe(s);
      }
  }

  lemma DequeueSafe<T>(s: State<T>)
    requires Inv(s) && s.c.CDequeue? && Ring.ConsumerSafe(s.ring)
    ensures !Ring.ConsumerEvent(s.ring).DeqFalse?
  {
    GrantFindsElement(s);
    NeverEmptyAnswer(s);
  }

  lemma NeverEmptyAnswer<T>(s: State<T>)
    requires Inv(s) && s.c.CDequeue? && Ring.ConsumerSafe(s.ring) && Ring.Q(s.ring) != []
    ensures !Ring.ConsumerEvent(s.ring).DeqFalse?
  {
    if Ring.ConsumerEvent(s.ring).DeqFalse? {
      RingRef.EmptyOnlyIfSeen(s.ring);
    }
  }

  lemma ProducerKeeps<T>(s: State<T>, a: Action<T>)
    requires Inv(s) && Safe(s, a) && a.Produce?
    ensures Inv(Step(s, a))
  {
    if s.p.PIdle? || s.p.PEnqueue? {
      RingRef.ProducerKeeps(s.ring, a.v, a.alloc, a.memory);
      ProducerPlace(s.ring, a.v, a.alloc, a.memory);
    } else if s.p.PSignal? {
      Sema.StepKeeps(s.sema, Sema.Signal(1));
    } else {
      Sema.StepKeeps(s.sema, Sema.Post);
    }
  }

  /** The inner enqueue ends exactly with its result. */
  lemma ProducerPlace<T>(s: Ring.State<T>, v: T, alloc: bool, memory: bool)
    requires Ring.ProducerSafe(s)
    ensures var t, e := Ring.ProducerStep(s, v, alloc, memory), Ring.ProducerEvent(s, memory);
            && t.c == s.c && t.saw == s.saw
            && (s.p.PIdle? ==> !t.p.PIdle? && e.Tau?)
            && (!s.p.PIdle? ==> (t.p.PIdle? <==> e.Enq? || e.EnqFalse?))
  {
  }

  /** The inner dequeue ends exactly with its result; while the queue is not empty it never sees it empty. */
  lemma ConsumerPlace<T>(s: Ring.State<T>, op: Ring.Op)
    requires Ring.ConsumerSafe(s)
    ensures var t, e := Ring.ConsumerStep(s, op), Ring.ConsumerEvent(s);
            && t.p == s.p
            && (s.c.CIdle? ==> !t.c.CIdle? && e.Invoke?)
            && (!s.c.CIdle? ==> (t.c.CIdle? <==> e.Deq? || e.DeqFalse? || e.Peek?))
            && (Ring.Q(s) != [] && (s.c.CIdle? || !s.saw) ==> !t.saw)
  {
  }

  lemma ConsumerOp<T>(s: Ring.State<T>, op: Ring.Op)
    requires Ring.ConsumerSafe(s)
    ensures var t, e := Ring.ConsumerStep(s, op), Ring.ConsumerEvent(s);
            && (Takes(s.c) && !op.Look? ==> Takes(t.c) && !e.Peek?)
            && (Looks(s.c) && op.Look? ==> Looks(t.c) && !e.Deq?)
  {
  }

  lemma ConsumerKeeps<T>(s: State<T>, a: Action<T>)
    requires Inv(s) && Safe(s, a) && a.Consume?
    ensures Inv(Step(s, a))
  {
    match s.c
    case CIdle =>
      if a.call.Peek? {
        PeekKeeps(s, a);
      } else {
        Sema.StepKeeps(s.sema, Sema.Begin(RequestOf(a.call)));
      }
    case CPeek => PeekKeeps(s, a);
    case CAgain => Sema.StepKeeps(s.sema, Sema.Begin(RequestOf(Await)));
    case CWait(_) =>
      Sema.StepKeeps(s.sema, Sema.Proceed(a.gaveUp));
      Sema.StepCounts(s.sema, Sema.Proceed(a.gaveUp));
      WaitPlace(s.sema, a.gaveUp);
    case CDequeue(now) =>
      RingRef.ConsumerKeeps(s.ring, OpOf(now));
      ConsumerPlace(s.ring, OpOf(now));
      ConsumerOp(s.ring, OpOf(now));
  }

  /** A wait ends exactly with its result. */
  lemma WaitPlace(s: Sema.State, gaveUp: bool)
    requires !s.w.WIdle?
    ensures var t, e := Sema.WaiterStep(s, gaveUp), Sema.EventOf(s, Sema.Proceed(gaveUp));
            && t.post == s.post && t.call == s.call
            && (t.w.WIdle? <==> e.Granted? || e.Refused?)
  {
  }

  lemma PeekKeeps<T>(s: State<T>, a: Action<T>)
    requires Inv(s) && Safe(s, a) && a.Consume? && (s.c.CPeek? || (s.c.CIdle? && a.call.Peek?))
    ensures Inv(Step(s, a))
  {
    RingRef.ConsumerKeeps(s.ring, Ring.Look);
    ConsumerPlace(s.ring, Ring.Look);
    ConsumerOp(s.ring, Ring.Look);
  }

  // ---------------------------------------------------------------- whole runs

  /** The state after a schedule of steps together with the results seen; an unsafe step would halt it. */
  function Exec<T(==)>(s: State<T>, schedule: seq<Action<T>>): (State<T>, seq<Fifo.Event<T>>) {
    if schedule == [] then (s, [])
    else Extend(Exec(s, schedule[..|schedule| - 1]), schedule[|schedule| - 1])
  }

  function Extend<T(==)>(r: (State<T>, seq<Fifo.Event<T>>), a: Action<T>): (State<T>, seq<Fifo.Event<T>>) {
    if Safe(r.0, a) then (Step(r.0, a), r.1 + [EventOf(r.0, a)]) else r
  }

  /** The results so far are a legal history of the queue, and every grant that has been used has delivered one element. */
  ghost predicate Agrees<T>(r: (State<T>, seq<Fifo.Event<T>>)) {
    && Inv(r.0)
    && Fifo.Legal(Fifo.None, Fifo.Spec([], false), r.1)
    && Fifo.Run(Fifo.Spec([], false), r.1) == Fifo.Spec(Ring.Q(r.0.ring), r.0.ring.saw)
    && |Fifo.Deqs(r.1)| == r.0.sema.granted - Unused(r.0)
  }

  /** A step does to the queue what the FIFO does at its event. */
  lemma StepIsFifo<T>(s: State<T>, a: Action<T>)
    requires Inv(s) && Safe(s, a)
    ensures Fifo.Step(Fifo.None, Fifo.Spec(Ring.Q(s.ring), s.ring.saw), EventOf(s, a),
                      Fifo.Spec(Ring.Q(Step(s, a).ring), Step(s, a).ring.saw))
  {
    match a
    case Produce(v, alloc, memory) =>
      if s.p.PIdle? || s.p.PEnqueue? {
        RingRef.StepRefines(s.ring, Ring.Produce(v, alloc, memory));
      }
    case Consume(call, _) =>
      if s.c.CDequeue? || s.c.CPeek? {
        RingRef.StepRefines(s.ring, Ring.Consume(if s.c.CPeek? then Ring.Look else OpOf(s.c.call)));
      } else if s.c.CIdle? && call.Peek? {
        RingRef.StepRefines(s.ring, Ring.Consume(Ring.Look));
      }
  }

  /** An element is delivered exactly when a grant is used. */
  lemma StepDelivers<T>(s: State<T>, a: Action<T>)
    requires Inv(s) && Safe(s, a)
    ensures var t := Step(s, a);
            t.sema.granted - Unused(t) == s.sema.granted - Unused(s) + (if EventOf(s, a).Deq? then 1 else 0)
  {
    match a
    case Produce(v, alloc, memory) =>
      if s.p.PIdle? || s.p.PEnqueue? {
        ProducerPlace(s.ring, v, alloc, memory);
      }
    case Consume(call, gaveUp) =>
      if s.c.CWait? {
        Sema.StepCounts(s.sema, Sema.Proceed(gaveUp));
        WaitPlace(s.sema, gaveUp);
      } else {
        var op := if s.c.CDequeue? then OpOf(s.c.call) else Ring.Look;
        if Ring.ConsumerSafe(s.ring) {
          ConsumerPlace(s.ring, op);
          ConsumerOp(s.ring, op);
        }
      }
  }

  lemma StepKeeps<T>(s: State<T>, a: Action<T>)
    requires Inv(s) && Safe(s, a)
    ensures Inv(Step(s, a))
  {
    if a.Produce? {
      ProducerKeeps(s, a);
    } else {
      ConsumerKeeps(s, a);
    }
  }

  lemma ExtendAgrees<T>(r: (State<T>, seq<Fifo.Event<T>>), a: Action<T>)
    requires Agrees(r)
    ensures Agrees(Extend(r, a))
  {
    AlwaysSafe(r.0, a);
    StepKeeps(r.0, a);
    StepIsFifo(r.0, a);
    StepDelivers(r.0, a);
    var e := EventOf(r.0, a);
    assert (r.1 + [e])[..|r.1 + [e]| - 1] == r.1;
  }

  lemma {:induction false} RunAgrees<T>(s: State<T>, count: nat, size: nat, schedule: seq<Action<T>>)
    requires Init(s, count, size) && size >= 2
    ensures Agrees(Exec(s, schedule))
  {
    if schedule == [] {
      InitInv(s, count, size);
    } else {
      RunAgrees(s, count, size, schedule[..|schedule| - 1]);
      ExtendAgrees(Exec(s, schedule[..|schedule| - 1]), schedule[|schedule| - 1]);
    }
  }

  /**
   In every run of the blocking queue every semaphore grant finds an element: no dequeue or pop behind
   a grant ever reports "empty", and nothing else the code asserts ever fails.
   */
  lemma RunGrantsFindElements<T>(s: State<T>, count: nat, size: nat, schedule: seq<Action<T>>, a: Action<T>)
    requires Init(s, count, size) && size >= 2
    ensures Safe(Exec(s, schedule).0, a)
    ensures Exec(s, schedule).0.c.CDequeue? ==> Ring.Q(Exec(s, schedule).0.ring) != []
  {
    RunAgrees(s, count, size, schedule);
    AlwaysSafe(Exec(s, schedule).0, a);
  }

  /**
   The blocking queue delivers in order: in every run the elements enqueued are those delivered followed
   by those still queued, and as many have been delivered as grants have been used.
   */
  lemma RunDeliversInOrder<T>(s: State<T>, count: nat, size: nat, schedule: seq<Action<T>>)
    requires Init(s, count, size) && size >= 2
    ensures var (end, trace) := Exec(s, schedule);
            && Fifo.Enqs(trace) == Fifo.Deqs(trace) + Ring.Q(end.ring)
            && |Fifo.Deqs(trace)| == end.sema.granted - Unused(end)
  {
    RunAgrees(s, count, size, schedule);
    Fifo.NothingLost(Fifo.None, Exec(s, schedule).1);
  }

  /** At a refusal every token signalled has been granted, so only an element whose signal is still to come can be in the queue. */
  lemma RefusalMeans<T>(s: State<T>, a: Action<T>)
    requires Inv(s) && Refuses(s, a)
    ensures s.sema.signalled == s.sema.granted
    ensures |Ring.Q(s.ring)| == if s.p.PSignal? then 1 else 0
    ensures Safe(s, a) && (if s.c.call.Await? then Awaits(Step(s, a).c) else Step(s, a).c.CIdle?)
  {
  }

  /**
   In every run, at the load of `m_count` that makes `try_dequeue` or `pop` return false, and at the
   `fetch_add` that makes `wait_dequeue_timed` return false, the queue is empty, but for the one element
   of an enqueue that has stored it and has not signalled yet. The call is over then, and `wait_dequeue` is not.
   */
  lemma RunRefusalIsTrue<T>(s: State<T>, count: nat, size: nat, schedule: seq<Action<T>>, a: Action<T>)
    requires Init(s, count, size) && size >= 2 && Refuses(Exec(s, schedule).0, a)
    ensures var end := Exec(s, schedule).0;
            && |Ring.Q(end.ring)| == (if end.p.PSignal? then 1 else 0)
            && Safe(end, a) && (if end.c.call.Await? then Awaits(Step(end, a).c) else Step(end, a).c.CIdle?)
  {
    RunAgrees(s, count, size, schedule);
    RefusalMeans(Exec(s, schedule).0, a);
  }

  /**
   In every run `wait_dequeue_timed` with a timeout other than 0 returns false, and `wait_dequeue` waits once
   more, only after the kernel gave up waiting in that very wait.
   */
  lemma RunWaitsItsTime<T>(s: State<T>, count: nat, size: nat, schedule: seq<Action<T>>, a: Action<T>)
    requires Init(s, count, size) && size >= 2 && Refuses(Exec(s, schedule).0, a)
    ensures var end := Exec(s, schedule).0;
            end.sema.failed || end.c.call.Pop? || end.c.call == Dequeue(Sema.Try) || end.c.call == Dequeue(Sema.Wait(0))
  {
    RunAgrees(s, count, size, schedule);
    Sema.RefusedOnlyThen(Exec(s, schedule).0.sema, a.gaveUp);
  }

  /** In every run `pop` and `try_dequeue` never spin or block: the wait before them is over within two steps of its own. */
  lemma RunTryNeverWaits<T>(s: State<T>, count: nat, size: nat, schedule: seq<Action<T>>)
    requires Init(s, count, size) && size >= 2
    requires var c := Exec(s, schedule).0.c; c.CWait? && (c.call.Pop? || c.call == Dequeue(Sema.Try))
    ensures Exec(s, schedule).0.sema.w.WTry? || Exec(s, schedule).0.sema.w.WTryTake?
  {
    RunAgrees(s, count, size, schedule);
    Sema.TryIsShort(Exec(s, schedule).0.sema, false, false);
  }

  /** The consumer is inside `wait_dequeue`. */
  predicate Awaits(c: Consumer) {
    c.CAgain? || c == CWait(Await) || c == CDequeue(Await)
  }

  /** A call that got its grant, and `wait_dequeue` in any case, ends only by delivering an element. */
  lemma EndsWithElement<T>(s: State<T>, a: Action<T>)
    requires Inv(s) && Safe(s, a) && (Awaits(s.c) || s.c.CDequeue?)
    ensures var c := Step(s, a).c;
            if c.CIdle? then EventOf(s, a).Deq?
            else (Awaits(s.c) ==> Awaits(c)) && (s.c.CDequeue? ==> c == s.c)
  {
    if a.Consume? && s.c.CDequeue? {
      ConsumerPlace(s.ring, OpOf(s.c.call));
      ConsumerOp(s.ring, OpOf(s.c.call));
    }
  }

  /** In every run `wait_dequeue` ends only by delivering an element, however often the kernel gives up, and so does a call with its grant. */
  lemma RunEndsWithElement<T>(s: State<T>, count: nat, size: nat, schedule: seq<Action<T>>, a: Action<T>)
    requires Init(s, count, size) && size >= 2
    requires Awaits(Exec(s, schedule).0.c) || Exec(s, schedule).0.c.CDequeue?
    ensures var end := Exec(s, schedule).0;
            Safe(end, a) && (Step(end, a).c.CIdle? ==> EventOf(end, a).Deq?)
  {
    RunAgrees(s, count, size, schedule);
    AlwaysSafe(Exec(s, schedule).0, a);
    EndsWithElement(Exec(s, schedule).0, a);
  }

  /** With no call in flight, `size_approx` is exact: the semaphore's count is the length of the queue. */
  lemma QuietSizeIsExact<T>(s: State<T>)
    requires Inv(s) && s.p.PIdle? && s.c.CIdle?
    ensures (if s.sema.count > 0 then s.sema.count else 0) == |Ring.Q(s.ring)|
  {
  }

  // ---------------------------------------------------------------- the two parts of a run

  /** What a step is to the ring, if it is anything. */
  function RingStepOf<T>(s: State<T>, a: Action<T>): seq<Ring.Action<T>> {
    match a
    case Produce(v, alloc, memory) => if s.p.PIdle? || s.p.PEnqueue? then [Ring.Produce(v, alloc, memory)] else []
    case Consume(call, _) =>
      if s.c.CDequeue? then [Ring.Consume(OpOf(s.c.call))]
      else if s.c.CPeek? || (s.c.CIdle? && call.Peek?) then [Ring.Consume(Ring.Look)]
      else []
  }

  /** What a step is to the semaphore, if it is anything. */
  function SemaStepOf<T>(s: State<T>, a: Action<T>): seq<Sema.Action> {
    match a
    case Produce(_, _, _) => if s.p.PSignal? then [Sema.Signal(1)] else if s.p.PPost? then [Sema.Post] else []
    case Consume(call, gaveUp) =>
      if s.c.CWait? then [Sema.Proceed(gaveUp)]
      else if s.c.CAgain? then [Sema.Begin(RequestOf(Await))]
      else if s.c.CIdle? && !call.Peek? then [Sema.Begin(RequestOf(call))]
      else []
  }

  /** What a run is to the ring, and to the semaphore. */
  function RingPart<T(==)>(s: State<T>, schedule: seq<Action<T>>): seq<Ring.Action<T>> {
    if schedule == [] then []
    else
      var before, a := schedule[..|schedule| - 1], schedule[|schedule| - 1];
      RingPart(s, before) + (if Safe(Exec(s, before).0, a) then RingStepOf(Exec(s, before).0, a) else [])
  }

  function SemaPart<T(==)>(s: State<T>, schedule: seq<Action<T>>): seq<Sema.Action> {
    if schedule == [] then []
    else
      var before, a := schedule[..|schedule| - 1], schedule[|schedule| - 1];
      SemaPart(s, before) + (if Safe(Exec(s, before).0, a) then SemaStepOf(Exec(s, before).0, a) else [])
  }

  lemma RingGoesOn<T>(s: Ring.State<T>, schedule: seq<Ring.Action<T>>, more: seq<Ring.Action<T>>)
    requires more == [] || (|more| == 1 && Ring.Safe(RingRef.Exec(s, schedule).0, more[0]))
    ensures var before := RingRef.Exec(s, schedule).0;
            RingRef.Exec(s, schedule + more).0 == if more == [] then before else Ring.Step(before, more[0])
  {
    if more == [] {
      assert schedule + more == schedule;
    } else {
      assert (schedule + more)[..|schedule + more| - 1] == schedule;
    }
  }

  lemma SemaGoesOn(s: Sema.State, schedule: seq<Sema.Action>, more: seq<Sema.Action>)
    requires more == [] || (|more| == 1 && Sema.Safe(Sema.Exec(s, schedule).0, more[0]))
    ensures var before := Sema.Exec(s, schedule).0;
            Sema.Exec(s, schedule + more).0 == if more == [] then before else Sema.Step(before, more[0])
  {
    if more == [] {
      assert schedule + more == schedule;
    } else {
      assert (schedule + more)[..|schedule + more| - 1] == schedule;
    }
  }

  /** A step is at most one step of one of the two. */
  lemma StepIsOne<T>(s: State<T>, a: Action<T>)
    requires Safe(s, a)
    ensures var t, ring := Step(s, a), RingStepOf(s, a);
            (ring == [] && t.ring == s.ring) || (|ring| == 1 && Ring.Safe(s.ring, ring[0]) && t.ring == Ring.Step(s.ring, ring[0]))
    ensures var t, sema := Step(s, a), SemaStepOf(s, a);
            (sema == [] && t.sema == s.sema) || (|sema| == 1 && Sema.Safe(s.sema, sema[0]) && t.sema == Sema.Step(s.sema, sema[0]))
    ensures forall x <- SemaStepOf(s, a) :: Sema.Sends(x)
  {
  }

  /**
   A run of the blocking queue is a run of the ring and a run of the semaphore: whatever was proved of every
   run of either of them holds here.
   */
  lemma {:induction false} RunIsBoth<T>(s: State<T>, schedule: seq<Action<T>>)
    ensures RingRef.Exec(s.ring, RingPart(s, schedule)).0 == Exec(s, schedule).0.ring
    ensures Sema.Exec(s.sema, SemaPart(s, schedule)).0 == Exec(s, schedule).0.sema
    ensures forall x <- SemaPart(s, schedule) :: Sema.Sends(x)
  {
    if schedule != [] {
      var before, a := schedule[..|schedule| - 1], schedule[|schedule| - 1];
      RunIsBoth(s, before);
      var was := Exec(s, before).0;
      if Safe(was, a) {
        StepIsOne(was, a);
        RingGoesOn(s.ring, RingPart(s, before), RingStepOf(was, a));
        SemaGoesOn(s.sema, SemaPart(s, before), SemaStepOf(was, a));
      } else {
        assert RingPart(s, before) + [] == RingPart(s, before) && SemaPart(s, before) + [] == SemaPart(s, before);
      }
    }
  }

  /**
   In every run of a blocking queue constructed for `size` elements an enqueue fails, or adds a block, only if
   the queue held at least `size` elements at some instant of that very call.
   */
  lemma RunCapacity<T>(s: State<T>, size: nat, schedule: seq<Action<T>>, memory: bool) returns (i: nat)
    requires RingCap.Constructed(s.ring, size) && RingCap.MaxOk(s.ring.max) && RingCap.Fits(size)
    requires var end := Exec(s, schedule).0.ring;
             end.p.PAlloc? || (Ring.ProducerSafe(end) && Ring.ProducerEvent(end, memory).EnqFalse?)
    ensures RingCap.SameEnqueue(s.ring, RingPart(s, schedule), i)
    ensures |Ring.Q(RingRef.Exec(s.ring, RingPart(s, schedule)[..i]).0)| >= size
  {
    RunIsBoth(s, schedule);
    i := RingCap.RunCapacity(s.ring, size, RingPart(s, schedule), memory);
  }
}
