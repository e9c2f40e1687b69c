/** Every enqueue is answered once, in turn, and an answer is about the element and the leave that its own call was given. */
module BlockRingCalls {
  import opened BlockRing
  import opened BlockRingRefinement
  import Fifo

  /** A call of `enqueue` (with leave to allocate) or `try_enqueue` (without). */
  datatype Call<T> = Call(v: T, alloc: bool)

  /** The calls that have begun in a run, in order. */
  function Begun<T(==)>(s: State<T>, schedule: seq<Action<T>>): seq<Call<T>> {
    if schedule == [] then []
    else
      var before, a := schedule[..|schedule| - 1], schedule[|schedule| - 1];
      Begun(s, before) + Begins(Exec(s, before).0, a)
  }

  function Begins<T>(s: State<T>, a: Action<T>): seq<Call<T>> {
    if a.Produce? && s.p.PIdle? then [Call(a.v, a.alloc)] else []
  }

  /** The answers the producer's caller has seen, in order. */
  function Answers<T>(trace: seq<Fifo.Event<T>>): seq<Fifo.Event<T>> {
    if trace == [] then []
    else Answers(trace[..|trace| - 1]) + AnswerOf(trace[|trace| - 1])
  }

  function AnswerOf<T>(e: Fifo.Event<T>): seq<Fifo.Event<T>> {
    if e.Enq? || e.EnqFalse? then [e] else []
  }

  /** The answers the consumer's caller has seen, in order. */
  function Replies<T>(trace: seq<Fifo.Event<T>>): seq<Fifo.Event<T>> {
    if trace == [] then []
    else Replies(trace[..|trace| - 1]) + ReplyOf(trace[|trace| - 1])
  }

  function ReplyOf<T>(e: Fifo.Event<T>): seq<Fifo.Event<T>> {
    if e.Deq? || e.DeqFalse? || e.Peek? then [e] else []
  }

  /** The answers hold all there is to know of what was put and taken. */
  lemma {:induction false} AnswersTellAll<T>(trace: seq<Fifo.Event<T>>)
    ensures Fifo.Enqs(Answers(trace)) == Fifo.Enqs(trace)
    ensures Fifo.Deqs(Replies(trace)) == Fifo.Deqs(trace)
  {
    if trace != [] {
      AnswersTellAll(trace[..|trace| - 1]);
      OneTellsAll(Answers(trace[..|trace| - 1]), Replies(trace[..|trace| - 1]), trace[|trace| - 1]);
    }
  }

  lemma OneTellsAll<T>(told: seq<Fifo.Event<T>>, heard: seq<Fifo.Event<T>>, e: Fifo.Event<T>)
    ensures Fifo.Enqs(told + AnswerOf(e)) == Fifo.Enqs(told) + (if e.Enq? then [e.v] else [])
    ensures Fifo.Deqs(heard + ReplyOf(e)) == Fifo.Deqs(heard) + (if e.Deq? then [e.v] else [])
  {
    if AnswerOf(e) == [] {
      assert told + AnswerOf(e) == told;
    } else {
      assert (told + [e])[..|told + [e]| - 1] == told;
    }
    if ReplyOf(e) == [] {
      assert heard + ReplyOf(e) == heard;
    } else {
      assert (heard + [e])[..|heard + [e]| - 1] == heard;
    }
  }

  /** The producer is at work on exactly this call. */
  predicate WorksOn<T(==)>(p: Producer<T>, call: Call<T>) {
    match p
    case PIdle => false
    case PLoadTail(v, alloc, _) => call == Call(v, alloc)
    case PLoadFront(v, alloc, _, _) => call == Call(v, alloc)
    case PLoadNext(v, alloc, _) => call == Call(v, alloc)
    case PCompare(v, alloc, _, _) => call == Call(v, alloc)
    case PAlloc(v, _) => call == Call(v, true)
    case PInit(v, _, _) => call == Call(v, true)
    case PLinkNew(v, _, _) => call == Call(v, true)
    case PLinkTail(v, _, _) => call == Call(v, true)
    case _ => call.v == p.v
  }

  /** The calls before the last have been answered, and the last has, or is being worked on. */
  ghost predicate InTurn<T>(p: Producer<T>, calls: seq<Call<T>>, answers: seq<Fifo.Event<T>>) {
    && |calls| == |answers| + (if p.PIdle? then 0 else 1)
    && (!p.PIdle? ==> WorksOn(p, calls[|answers|]))
    && forall i | 0 <= i < |answers| :: answers[i].Enq? ==> answers[i].v == calls[i].v
  }

  /** One step: an answer is about the call at work, and only a call with leave adds a block. */
  lemma StepAnswers<T>(s: State<T>, a: Action<T>, call: Call<T>)
    requires Safe(s, a) && (if s.p.PIdle? then a.Produce? ==> call == Call(a.v, a.alloc) else WorksOn(s.p, call))
    ensures var t, e := Step(s, a), EventOf(s, a);
            && (e.Enq? ==> e.v == call.v)
            && (t.p.PIdle? <==> if s.p.PIdle? then a.Consume? else e.Enq? || e.EnqFalse?)
            && (s.p.PIdle? ==> !e.Enq? && !e.EnqFalse?)
            && (!t.p.PIdle? ==> WorksOn(t.p, call))
            && (a.Produce? && e.EnqFalse? && a.memory ==> !call.alloc)
            && |t.blocks| <= |s.blocks| + 1
            && (|t.blocks| > |s.blocks| ==> call.alloc && a.Produce? && a.memory)
  {
  }

  lemma StepInTurn<T>(s: State<T>, a: Action<T>, calls: seq<Call<T>>, answers: seq<Fifo.Event<T>>)
    requires Safe(s, a) && InTurn(s.p, calls, answers)
    ensures InTurn(Step(s, a).p, calls + Begins(s, a), answers + AnswerOf(EventOf(s, a)))
  {
    if !s.p.PIdle? {
      StepAnswers(s, a, calls[|answers|]);
    } else if a.Produce? {
      StepAnswers(s, a, Call(a.v, a.alloc));
    }
  }

  lemma AnswersOfOne<T>(trace: seq<Fifo.Event<T>>, e: Fifo.Event<T>)
    ensures Answers(trace + [e]) == Answers(trace) + AnswerOf(e)
    ensures Replies(trace + [e]) == Replies(trace) + ReplyOf(e)
  {
    assert (trace + [e])[..|trace + [e]| - 1] == trace;
  }

  /** The calls of a run are answered one for one and in turn; what a call puts in the queue is what it was given. */
  lemma {:induction false} RunAnswersCalls<T>(s: State<T>, schedule: seq<Action<T>>)
    requires s.p.PIdle?
    ensures InTurn(Exec(s, schedule).0.p, Begun(s, schedule), Answers(Exec(s, schedule).1))
  {
    if schedule != [] {
      var before, a := schedule[..|schedule| - 1], schedule[|schedule| - 1];
      RunAnswersCalls(s, before);
      var r := Exec(s, before);
      if Safe(r.0, a) {
        AnswersOfOne(r.1, EventOf(r.0, a));
        StepInTurn(r.0, a, Begun(s, before), Answers(r.1));
      } else {
        assert Begins(r.0, a) == [];
      }
    }
  }

  /**
   In every run a block is added only for a call that has leave to allocate, and only where there is memory;
   and a call that has leave, and memory, is not refused.
   */
  lemma RunLeave<T>(s: State<T>, schedule: seq<Action<T>>, a: Action<T>)
    requires s.p.PIdle? && Safe(Exec(s, schedule).0, a)
    ensures var end, calls := Exec(s, schedule).0, Begun(s, schedule);
            && (|Step(end, a).blocks| > |end.blocks| ==> calls != [] && calls[|calls| - 1].alloc && a.Produce? && a.memory)
            && (a.Produce? && EventOf(end, a).EnqFalse? && a.memory ==> calls != [] && !calls[|calls| - 1].alloc)
  {
    RunAnswersCalls(s, schedule);
    var end, calls := Exec(s, schedule).0, Begun(s, schedule);
    if !end.p.PIdle? {
      StepAnswers(end, a, calls[|calls| - 1]);
    } else if a.Produce? {
      StepAnswers(end, a, Call(a.v, a.alloc));
    }
  }
}
