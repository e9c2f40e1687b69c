/**
 Object lifetimes over whole runs: every element constructed in a slot is destroyed exactly once, by the
 consumer or, when the run is over, by the destructor. (A step that constructs over an object or destroys
 raw storage is unsafe in either machine, and no run takes one.)
 */
module Lifetimes {
  import opened Circular
  import Words
  import Fifo
  import S = SpscQueue
  import M = BlockRing
  import I = BlockRingInvariant
  import R = BlockRingRefinement
  import Walks = BlockRingWalks

  /** The elements constructed in slots so far and those destroyed there, each in order. */
  datatype Ledger<T> = Ledger(built: seq<T>, gone: seq<T>)

  function Enter<T>(n: Ledger<T>, built: seq<T>, gone: seq<T>): Ledger<T> {
    Ledger(n.built + built, n.gone + gone)
  }

  /** What has been constructed has been destroyed, or is held, or is about to be made part of the queue. */
  predicate Balanced<T(==)>(n: Ledger<T>, held: seq<T>, pending: seq<T>) {
    n.built == n.gone + held + pending
  }

  /** Elements go from being constructed to pending, and from pending to held. */
  lemma Produced<T>(n: Ledger<T>, held: seq<T>, pending: seq<T>, built: seq<T>, entered: seq<T>, pending': seq<T>)
    requires Balanced(n, held, pending) && pending + built == entered + pending'
    ensures Balanced(Enter(n, built, []), held + entered, pending')
  {
    assert n.gone + held + pending + built == n.gone + held + (pending + built);
    assert n.gone + held + (entered + pending') == n.gone + (held + entered) + pending';
  }

  /** And from being held to being destroyed. */
  lemma Consumed<T>(n: Ledger<T>, held: seq<T>, pending: seq<T>, gone: seq<T>, held': seq<T>)
    requires Balanced(n, held, pending) && held == gone + held'
    ensures Balanced(Enter(n, [], gone), held', pending)
  {
    assert n.gone + (gone + held') == n.gone + gone + held';
  }

  // ---------------------------------------------------------------- the fixed queue

  /** What a step constructs, and what it destroys: an element that has been moved from is still an object. */
  function SpscBuilt<T>(s: S.State<T>, a: S.Action<T>): seq<T> {
    if a.Produce? && s.p.PRoom? then [s.p.v] else []
  }

  function SpscGone<T>(s: S.State<T>, a: S.Action<T>): seq<T> {
    if a.Consume? && s.c.CTaken? then [s.c.v] else []
  }

  function SpscLedger<T(==)>(s: S.State<T>, schedule: seq<S.Action<T>>): Ledger<T> {
    if schedule == [] then Ledger([], [])
    else
      var before := S.Exec(s, schedule[..|schedule| - 1]).0;
      var n := SpscLedger(s, schedule[..|schedule| - 1]);
      var a := schedule[|schedule| - 1];
      if S.Safe(before, a) then Enter(n, SpscBuilt(before, a), SpscGone(before, a)) else n
  }

  function SpscPending<T>(p: S.Producer<T>): seq<T> { if p.PBuilt? then [p.v] else [] }

  /** What the queue holds and has not destroyed. */
  function SpscHeld<T>(s: S.State<T>): seq<T> {
    if s.c.CDestroyed? && s.q != [] then s.q[1..] else s.q
  }

  /** The element moved out is the oldest. */
  predicate SpscTaken<T(==)>(s: S.State<T>) {
    s.c.CTaken? || s.c.CDestroyed? ==> s.q != [] && s.c.v == s.q[0]
  }

  lemma SpscStepTally<T>(s: S.State<T>, a: S.Action<T>)
    requires S.Safe(s, a)
    ensures Objects(S.Step(s, a).slots) + |SpscGone(s, a)| == Objects(s.slots) + |SpscBuilt(s, a)|
  {
    match a
    case Produce(v) =>
      if s.p.PRoom? {
        ObjectsPut(s.slots, S.Mask(s.k, s.p.w), Live(s.p.v));
      }
    case Consume =>
      if s.c.CReady? {
        ObjectsPut(s.slots, S.Mask(s.k, s.c.r), Moved);
      } else if s.c.CTaken? {
        ObjectsPut(s.slots, S.Mask(s.k, s.c.r), Raw);
      }
  }

  lemma SpscStepTaken<T>(s: S.State<T>, a: S.Action<T>)
    requires S.Inv(s) && S.Safe(s, a) && SpscTaken(s)
    ensures SpscTaken(S.Step(s, a))
  {
    S.WriterSlot(s);
    if a.Consume? && s.c.CReady? {
      Take(s.slots, S.Mask(s.k, s.reader), s.q, false, s.p.PBuilt?, Moved);
    }
  }

  lemma SpscMoves<T>(s: S.State<T>, a: S.Action<T>)
    requires S.Safe(s, a) && SpscTaken(s)
    ensures var t := S.Step(s, a);
            if a.Produce? then
              var entered := if s.p.PBuilt? then [s.p.v] else [];
              SpscPending(s.p) + SpscBuilt(s, a) == entered + SpscPending(t.p) && SpscHeld(t) == SpscHeld(s) + entered
            else
              SpscPending(t.p) == SpscPending(s.p) && SpscHeld(s) == SpscGone(s, a) + SpscHeld(t)
  {
    if s.q != [] {
      assert s.q == [s.q[0]] + s.q[1..];
    }
  }

  lemma SpscStepBalanced<T>(s: S.State<T>, a: S.Action<T>, n: Ledger<T>)
    requires S.Safe(s, a) && SpscTaken(s) && Balanced(n, SpscHeld(s), SpscPending(s.p))
    ensures var t := S.Step(s, a);
            Balanced(Enter(n, SpscBuilt(s, a), SpscGone(s, a)), SpscHeld(t), SpscPending(t.p))
  {
    var t := S.Step(s, a);
    SpscMoves(s, a);
    if a.Produce? {
      Produced(n, SpscHeld(s), SpscPending(s.p), SpscBuilt(s, a), if s.p.PBuilt? then [s.p.v] else [], SpscPending(t.p));
    } else {
      Consumed(n, SpscHeld(s), SpscPending(s.p), SpscGone(s, a), SpscHeld(t));
    }
  }

  lemma {:induction false} SpscRunBalanced<T>(s: S.State<T>, schedule: seq<S.Action<T>>)
    requires S.Init(s)
    ensures var end, n := S.Exec(s, schedule).0, SpscLedger(s, schedule);
            SpscTaken(end) && Balanced(n, SpscHeld(end), SpscPending(end.p))
  {
    if schedule != [] {
      var before := schedule[..|schedule| - 1];
      var a := schedule[|schedule| - 1];
      SpscRunBalanced(s, before);
      S.RunRefines(s, before);
      if S.Safe(S.Exec(s, before).0, a) {
        SpscStepTaken(S.Exec(s, before).0, a);
        SpscStepBalanced(S.Exec(s, before).0, a, SpscLedger(s, before));
      }
    }
  }

  /**
   A run followed by destruction: the elements constructed are, in order, those destroyed by `try_pop`
   and then those destroyed by the destructor, each once; afterwards no slot holds an object.
   */
  lemma SpscDestroyedOnce<T>(s: S.State<T>, schedule: seq<S.Action<T>>)
    requires S.Init(s)
    requires S.Exec(s, schedule).0.p.PIdle? && S.Exec(s, schedule).0.c.CIdle?
    ensures var end, n := S.Exec(s, schedule).0, SpscLedger(s, schedule);
            && end.reader < Words.W && end.writer < Words.W
            && var (destroyed, after) := S.Destruct(end.slots, end.k, end.reader, end.writer);
            n.built == n.gone + destroyed && AllRaw(after)
  {
    SpscRunBalanced(s, schedule);
    S.RunRefines(s, schedule);
    S.DestructIs(S.Exec(s, schedule).0);
  }

  /** At every moment of a run the objects alive are as many as have been constructed and not yet destroyed. */
  lemma {:induction false} SpscRunAlive<T>(s: S.State<T>, schedule: seq<S.Action<T>>)
    requires S.Init(s)
    ensures var n := SpscLedger(s, schedule);
            |n.built| == |n.gone| + Objects(S.Exec(s, schedule).0.slots)
  {
    if schedule == [] {
      NoObjects(s.slots);
    } else {
      var before := schedule[..|schedule| - 1];
      var a := schedule[|schedule| - 1];
      SpscRunAlive(s, before);
      if S.Safe(S.Exec(s, before).0, a) {
        SpscStepTally(S.Exec(s, before).0, a);
      }
    }
  }

  // ---------------------------------------------------------------- the block ring

  function RingBuilt<T>(s: M.State<T>, a: M.Action<T>): seq<T> {
    if a.Produce? && (s.p.PConstruct? || s.p.PReuseConstruct? || s.p.PInit?) then [s.p.v] else []
  }

  function RingGone<T>(s: M.State<T>, a: M.Action<T>): seq<T>
    requires a.Consume? ==> M.ConsumerSafe(s)
  {
    if a.Consume? && s.c.CDestroy? then [s.c.v]
    else if a.Consume? && s.c.CTake? && s.c.op.Discard? then [s.blocks[s.c.b].data[s.c.f].value]
    else []
  }

  function RingLedger<T(==)>(s: M.State<T>, schedule: seq<M.Action<T>>): Ledger<T> {
    if schedule == [] then Ledger([], [])
    else
      var before := R.Exec(s, schedule[..|schedule| - 1]).0;
      var n := RingLedger(s, schedule[..|schedule| - 1]);
      var a := schedule[|schedule| - 1];
      if M.Safe(before, a) then Enter(n, RingBuilt(before, a), RingGone(before, a)) else n
  }

  /** The element the producer has constructed and not yet made part of the queue. */
  function Pending<T>(p: M.Producer<T>): seq<T> {
    if p.PStoreTail? || p.PReuseStore? || p.PLinkNew? || p.PLinkTail? || p.PPublish? then [p.v] else []
  }

  /** What the queue holds and has not destroyed. */
  function Held<T>(s: M.State<T>): seq<T> {
    if s.c.CStoreFront? && M.Q(s) != [] then M.Q(s)[1..] else M.Q(s)
  }

  function Living<T>(s: M.State<T>): nat { Walks.Sum(s.blocks, Walks.Alive) }

  /** One block changed, one slot of it at most. */
  lemma OneBlock<T>(s: M.State<T>, t: M.State<T>, b: int, x: M.Block<T>)
    requires M.Valid(s, b) && t.blocks == s.blocks[b := x]
    ensures Living(t) + Objects(s.blocks[b].data) == Living(s) + Objects(x.data)
  {
    Walks.SumPut(s.blocks, b, x, Walks.Alive);
  }

  /** Steps of an enqueue in the tail block, or in the spare block. */
  lemma TailTally<T>(s: M.State<T>, v: T, alloc: bool, memory: bool)
    requires M.ProducerSafe(s) && (s.p.PLoadFront? || s.p.PConstruct? || s.p.PStoreTail?)
    ensures Living(M.ProducerStep(s, v, alloc, memory)) == Living(s) + (if s.p.PConstruct? then 1 else 0)
  {
    var t := M.ProducerStep(s, v, alloc, memory);
    OneBlock(s, t, s.p.tb, t.blocks[s.p.tb]);
    if s.p.PConstruct? {
      ObjectsPut(s.blocks[s.p.tb].data, s.p.bt, Live(s.p.v));
    }
  }

  lemma SpareTally<T>(s: M.State<T>, v: T, alloc: bool, memory: bool)
    requires M.ProducerSafe(s) && (s.p.PReuseFront? || s.p.PReuseTail? || s.p.PReuseConstruct? || s.p.PReuseStore?)
    ensures Living(M.ProducerStep(s, v, alloc, memory)) == Living(s) + (if s.p.PReuseConstruct? then 1 else 0)
  {
    var t := M.ProducerStep(s, v, alloc, memory);
    OneBlock(s, t, s.p.nb, t.blocks[s.p.nb]);
    if s.p.PReuseConstruct? {
      ObjectsPut(s.blocks[s.p.nb].data, s.p.nt, Live(s.p.v));
    }
  }

  lemma GrowTally<T>(s: M.State<T>, v: T, alloc: bool, memory: bool)
    requires M.ProducerSafe(s) && (s.p.PAlloc? || s.p.PInit? || s.p.PLinkNew? || s.p.PLinkTail?)
    ensures Living(M.ProducerStep(s, v, alloc, memory)) == Living(s) + (if s.p.PInit? then 1 else 0)
  {
    var t := M.ProducerStep(s, v, alloc, memory);
    match s.p
    case PAlloc(_, _) =>
      if memory {
        assert t.blocks[..|t.blocks| - 1] == s.blocks;
        NoObjects(t.blocks[|s.blocks|].data);
      }
    case PInit(x, _, nb) =>
      OneBlock(s, t, nb, t.blocks[nb]);
      ObjectsPut(s.blocks[nb].data, 0, Live(x));
    case PLinkNew(_, _, nb) => OneBlock(s, t, nb, t.blocks[nb]);
    case PLinkTail(_, tb, _) => OneBlock(s, t, tb, t.blocks[tb]);
  }

  lemma ProducerTally<T>(s: M.State<T>, v: T, alloc: bool, memory: bool)
    requires M.ProducerSafe(s)
    ensures Living(M.ProducerStep(s, v, alloc, memory)) == Living(s) + |RingBuilt(s, M.Produce(v, alloc, memory))|
  {
    if s.p.PAlloc? || s.p.PInit? || s.p.PLinkNew? || s.p.PLinkTail? {
      GrowTally(s, v, alloc, memory);
    } else if s.p.PLoadFront? || s.p.PConstruct? || s.p.PStoreTail? {
      TailTally(s, v, alloc, memory);
    } else if s.p.PReuseFront? || s.p.PReuseTail? || s.p.PReuseConstruct? || s.p.PReuseStore? {
      SpareTally(s, v, alloc, memory);
    }
  }

  /** Steps of the consumer that only look. */
  lemma LookTally<T>(s: M.State<T>, op: M.Op)
    requires M.ConsumerSafe(s) && !s.c.CTake? && !s.c.CDestroy? && !s.c.CStoreFront?
    ensures Living(M.ConsumerStep(s, op)) == Living(s)
  {
    var t := M.ConsumerStep(s, op);
    match s.c
    case CLoadTail(_, fb, _) => OneBlock(s, t, fb, t.blocks[fb]);
    case CAgainTail(_, fb) => OneBlock(s, t, fb, t.blocks[fb]);
    case CNextTail(o, nb, _) =>
      if !o.Look? {
        OneBlock(s, t, nb, t.blocks[nb]);
      }
    case _ =>
  }

  lemma ConsumerTally<T>(s: M.State<T>, op: M.Op)
    requires M.ConsumerSafe(s)
    ensures Living(M.ConsumerStep(s, op)) + |RingGone(s, M.Consume(op))| == Living(s)
  {
    var t := M.ConsumerStep(s, op);
    match s.c
    case CTake(o, b, f) =>
      if !o.Look? {
        OneBlock(s, t, b, t.blocks[b]);
        ObjectsPut(s.blocks[b].data, f, if o.Dequeue? then Moved else Raw);
      }
    case CDestroy(b, f, _) =>
      OneBlock(s, t, b, t.blocks[b]);
      ObjectsPut(s.blocks[b].data, f, Raw);
    case CStoreFront(b, _, _) => OneBlock(s, t, b, t.blocks[b]);
    case _ => LookTally(s, op);
  }

  lemma {:induction false} NothingYet<T>(blocks: seq<M.Block<T>>)
    requires forall i | 0 <= i < |blocks| :: AllRaw(blocks[i].data)
    ensures Walks.Sum(blocks, Walks.Alive) == 0
  {
    if blocks != [] {
      NothingYet(blocks[..|blocks| - 1]);
      NoObjects(blocks[|blocks| - 1].data);
    }
  }

  /** While the head is destroyed and not yet given up, the queue is not empty. */
  lemma HeadTaken<T>(s: M.State<T>)
    requires I.Inv(s) && s.c.CStoreFront?
    ensures M.Q(s) != [] && M.Q(s)[0] == s.c.v
  {
    R.ConsumerKeeps(s, M.Dequeue);
  }

  lemma PendingMoves<T>(s: M.State<T>, v: T, alloc: bool, memory: bool)
    requires M.ProducerSafe(s)
    ensures var t, e := M.ProducerStep(s, v, alloc, memory), M.ProducerEvent(s, memory);
            && Pending(s.p) + RingBuilt(s, M.Produce(v, alloc, memory)) == (if e.Enq? then [e.v] else []) + Pending(t.p)
            && t.c == s.c
  {
  }

  lemma HeldGrows<T>(s: M.State<T>, t: M.State<T>, entered: seq<T>)
    requires M.Q(t) == M.Q(s) + entered && t.c == s.c && (s.c.CStoreFront? ==> M.Q(s) != [])
    ensures Held(t) == Held(s) + entered
  {
  }

  /** A producer step moves elements only from `Pending` to the queue. */
  lemma ProducerBalanced<T>(s: M.State<T>, v: T, alloc: bool, memory: bool, n: Ledger<T>)
    requires I.Inv(s) && M.ProducerSafe(s) && Balanced(n, Held(s), Pending(s.p))
    ensures var t := M.ProducerStep(s, v, alloc, memory);
            Balanced(Enter(n, RingBuilt(s, M.Produce(v, alloc, memory)), []), Held(t), Pending(t.p))
  {
    R.ProducerKeeps(s, v, alloc, memory);
    PendingMoves(s, v, alloc, memory);
    var t, e := M.ProducerStep(s, v, alloc, memory), M.ProducerEvent(s, memory);
    var entered := if e.Enq? then [e.v] else [];
    if s.c.CStoreFront? {
      HeadTaken(s);
    }
    HeldGrows(s, t, entered);
    Produced(n, Held(s), Pending(s.p), RingBuilt(s, M.Produce(v, alloc, memory)), entered, Pending(t.p));
  }

  lemma HeadMoves<T>(s: M.State<T>, op: M.Op)
    requires M.ConsumerSafe(s)
    ensures var t, e := M.ConsumerStep(s, op), M.ConsumerEvent(s);
            && t.p == s.p && (e.Deq? <==> s.c.CStoreFront?) && (s.c.CStoreFront? ==> t.c == M.CIdle)
            && RingGone(s, M.Consume(op)) == (if t.c.CStoreFront? then [t.c.v] else [])
  {
  }

  /** A consumer step moves elements only from the queue to those destroyed. */
  lemma ConsumerBalanced<T>(s: M.State<T>, op: M.Op, n: Ledger<T>)
    requires I.Inv(s) && M.ConsumerSafe(s) && Balanced(n, Held(s), Pending(s.p))
    ensures var t := M.ConsumerStep(s, op);
            Balanced(Enter(n, [], RingGone(s, M.Consume(op))), Held(t), Pending(t.p))
  {
    var t := M.ConsumerStep(s, op);
    R.ConsumerKeeps(s, op);
    HeadMoves(s, op);
    HeldMoves(s, t, RingGone(s, M.Consume(op)), M.ConsumerEvent(s));
    Consumed(n, Held(s), Pending(s.p), RingGone(s, M.Consume(op)), Held(t));
  }

  lemma HeldMoves<T>(s: M.State<T>, t: M.State<T>, gone: seq<T>, e: Fifo.Event<T>)
    requires I.Inv(s) && R.ConsumerDone(s, t, e) && (e.Deq? <==> s.c.CStoreFront?) && (s.c.CStoreFront? ==> t.c == M.CIdle)
    requires gone == if t.c.CStoreFront? then [t.c.v] else []
    ensures Held(s) == gone + Held(t)
  {
    if s.c.CStoreFront? {
      HeadTaken(s);
    } else if t.c.CStoreFront? {
      HeadTaken(t);
      assert M.Q(s) == [M.Q(s)[0]] + M.Q(s)[1..];
    }
  }

  lemma {:induction false} RingRunBalanced<T>(s: M.State<T>, count: nat, size: nat, schedule: seq<M.Action<T>>)
    requires M.Init(s, count, size) && size >= 2
    ensures var end, n := R.Exec(s, schedule).0, RingLedger(s, schedule);
            Balanced(n, Held(end), Pending(end.p))
  {
    if schedule == [] {
      R.InitInv(s, count, size);
    } else {
      var before := schedule[..|schedule| - 1];
      RingRunBalanced(s, count, size, before);
      R.RunRefines(s, count, size, before);
      var r := R.Exec(s, before).0;
      var a := schedule[|schedule| - 1];
      if M.Safe(r, a) {
        match a
        case Produce(v, alloc, memory) => ProducerBalanced(r, v, alloc, memory, RingLedger(s, before));
        case Consume(op) => ConsumerBalanced(r, op, RingLedger(s, before));
      }
    }
  }

  /**
   The same for the growing queue, `pop` and `try_dequeue` alike: a run followed by destruction destroys
   every element constructed, in order and exactly once, frees every block exactly once, and leaves no
   object in any block.
   */
  lemma RingDestroyedOnce<T>(s: M.State<T>, count: nat, size: nat, schedule: seq<M.Action<T>>)
    requires M.Init(s, count, size) && size >= 2
    requires R.Exec(s, schedule).0.p.PIdle? && R.Exec(s, schedule).0.c.CIdle?
    ensures var end, n := R.Exec(s, schedule).0, RingLedger(s, schedule);
            var (destroyed, freed, after) := Walks.Destruct(end.blocks, end.frontBlock, end.frontBlock, |end.blocks|);
            && n.built == n.gone + destroyed && Walks.Covers(freed, |end.blocks|)
            && forall b | 0 <= b < |after| :: AllRaw(after[b].data)
  {
    RingRunBalanced(s, count, size, schedule);
    R.RunRefines(s, count, size, schedule);
    Walks.DestructIs(R.Exec(s, schedule).0);
  }

  /** At every moment of a run the objects alive in all blocks are as many as have been constructed and not yet destroyed. */
  lemma {:induction false} RingRunAlive<T>(s: M.State<T>, count: nat, size: nat, schedule: seq<M.Action<T>>)
    requires M.Init(s, count, size)
    ensures var n := RingLedger(s, schedule);
            |n.built| == |n.gone| + Living(R.Exec(s, schedule).0)
  {
    if schedule == [] {
      NothingYet(s.blocks);
    } else {
      var before := schedule[..|schedule| - 1];
      RingRunAlive(s, count, size, before);
      var r := R.Exec(s, before).0;
      var a := schedule[|schedule| - 1];
      if M.Safe(r, a) {
        match a
        case Produce(v, alloc, memory) => ProducerTally(r, v, alloc, memory);
        case Consume(op) => ConsumerTally(r, op);
      }
    }
  }
}
