/**
 The sequential meaning that every queue of the repository is refined to: a FIFO of values, possibly
 bounded, together with one bit of bookkeeping for a consumer call that is still running.

 A machine step carries one `Event`. `Allowed` says when the abstract queue permits the event and
 `Apply` what it does to the queue, so a trace is legal when every event of it is allowed in turn.
 */
module Fifo {

  datatype Option<+T> = None | Some(value: T)

  datatype Event<T> =
    | Tau                // nothing visible happens
    | Invoke             // a consumer call begins
    | Observe            // the running consumer call sees the queue empty
    | Enq(v: T)          // an enqueue takes effect and returns true
    | EnqFalse           // an enqueue returns false
    | Deq(v: T)          // a dequeue or pop takes effect, removing v
    | Peek(v: T)         // a peek answers v
    | DeqFalse           // a consumer call reports that the queue is empty

  /** `saw` means that the queue was empty at some instant since the running consumer call began. */
  datatype Spec<T> = Spec(q: seq<T>, saw: bool)

  /** `bound` is the capacity of a bounded queue; an unbounded queue may refuse an element at any time. */
  predicate Allowed<T(==)>(bound: Option<nat>, a: Spec<T>, e: Event<T>) {
    match e
    case Tau => true
    case Invoke => true
    case Observe => a.q == []
    case Enq(v) => bound.Some? ==> |a.q| < bound.value
    case EnqFalse => bound.Some? ==> |a.q| == bound.value
    case Deq(v) => a.q != [] && a.q[0] == v
    case Peek(v) => a.q != [] && a.q[0] == v
    case DeqFalse => a.saw || a.q == []
  }

  function Apply<T>(a: Spec<T>, e: Event<T>): Spec<T> {
    match e
    case Tau => a
    case Invoke => a.(saw := false)
    case Observe => a.(saw := true)
    case Enq(v) => a.(q := a.q + [v])
    case EnqFalse => a
    case Deq(v) => Spec(if a.q == [] then [] else a.q[1..], false)
    case Peek(v) => a.(saw := false)
    case DeqFalse => a.(saw := false)
  }

  ghost predicate Step<T>(bound: Option<nat>, a: Spec<T>, e: Event<T>, b: Spec<T>) {
    Allowed(bound, a, e) && b == Apply(a, e)
  }

  /** The queue after a trace. */
  function Run<T>(a: Spec<T>, trace: seq<Event<T>>): Spec<T> {
    if trace == [] then a else Apply(Run(a, trace[..|trace| - 1]), trace[|trace| - 1])
  }

  /** Every event of the trace is allowed where it happens. */
  predicate Legal<T(==)>(bound: Option<nat>, a: Spec<T>, trace: seq<Event<T>>) {
    trace == [] ||
    (Legal(bound, a, trace[..|trace| - 1]) && Allowed(bound, Run(a, trace[..|trace| - 1]), trace[|trace| - 1]))
  }

  /** The values enqueued by a trace, oldest first. */
  function Enqs<T>(trace: seq<Event<T>>): seq<T> {
    if trace == [] then []
    else
      var e := trace[|trace| - 1];
      Enqs(trace[..|trace| - 1]) + (if e.Enq? then [e.v] else [])
  }

  /** The values removed by a trace, oldest first. */
  function Deqs<T>(trace: seq<Event<T>>): seq<T> {
    if trace == [] then []
    else
      var e := trace[|trace| - 1];
      Deqs(trace[..|trace| - 1]) + (if e.Deq? then [e.v] else [])
  }

  /** Nothing is lost, duplicated, reordered or skipped: what went in is what came out followed by what is left. */
  lemma {:induction false} NothingLost<T>(bound: Option<nat>, trace: seq<Event<T>>)
    requires Legal(bound, Spec([], false), trace)
    ensures Enqs(trace) == Deqs(trace) + Run(Spec([], false), trace).q
  {
    if trace == [] {
    } else {
      NothingLost(bound, trace[..|trace| - 1]);
      var before := Run(Spec([], false), trace[..|trace| - 1]);
      match trace[|trace| - 1]
      case Deq(v) =>
        assert before.q == [v] + before.q[1..];
      case _ =>
    }
  }

  /** A legal trace never holds more than the bound. */
  lemma {:induction false} WithinBound<T>(bound: nat, trace: seq<Event<T>>)
    requires Legal(Some(bound), Spec([], false), trace)
    ensures |Run(Spec([], false), trace).q| <= bound
  {
    if trace == [] {
    } else {
      WithinBound(bound, trace[..|trace| - 1]);
    }
  }

  lemma {:induction false} LegalPrefix<T>(bound: Option<nat>, a: Spec<T>, trace: seq<Event<T>>, i: nat)
    requires i <= |trace| && Legal(bound, a, trace)
    ensures Legal(bound, a, trace[..i])
    decreases |trace|
  {
    if i == |trace| {
      assert trace[..i] == trace;
    } else {
      assert trace[..|trace| - 1][..i] == trace[..i];
      LegalPrefix(bound, a, trace[..|trace| - 1], i);
    }
  }

  /** How long ago the queue was last seen empty inside the running call. */
  lemma {:induction false} SawWitness<T>(bound: Option<nat>, a: Spec<T>, trace: seq<Event<T>>) returns (i: nat)
    requires Legal(bound, a, trace) && !a.saw && Run(a, trace).saw
    ensures i < |trace| && Run(a, trace[..i]).q == []
    ensures forall j | i <= j < |trace| :: !trace[j].Invoke?
  {
    var last := |trace| - 1;
    if trace[last].Observe? {
      i := last;
    } else {
      i := SawWitness(bound, a, trace[..last]);
      assert trace[..last][..i] == trace[..i];
      assert forall j | i <= j < last :: trace[..last][j] == trace[j];
    }
  }

  /** A consumer call that answers "empty" was right: the queue was empty at some instant of that very call. */
  lemma EmptyAnswerIsTrue<T>(bound: Option<nat>, trace: seq<Event<T>>, k: nat) returns (i: nat)
    requires Legal(bound, Spec([], false), trace)
    requires k < |trace| && trace[k].DeqFalse?
    ensures i <= k && Run(Spec([], false), trace[..i]).q == []
    ensures forall j | i <= j <= k :: !trace[j].Invoke?
  {
    var a: Spec<T> := Spec([], false);
    LegalPrefix(bound, a, trace, k + 1);
    assert trace[..k + 1][..k] == trace[..k];
    if Run(a, trace[..k]).q == [] {
      i := k;
    } else {
      i := SawWitness(bound, a, trace[..k]);
      assert trace[..k][..i] == trace[..i];
      assert forall j | i <= j < k :: trace[..k][j] == trace[j];
    }
  }

  /** Events that leave the head of a non-empty queue alone. */
  predicate Harmless<T>(e: Event<T>) {
    e.Tau? || e.Invoke? || e.Enq? || e.EnqFalse? || e.Observe?
  }

  lemma {:induction false} HeadKept<T>(bound: Option<nat>, a: Spec<T>, mid: seq<Event<T>>)
    requires a.q != [] && !a.saw
    requires Legal(bound, a, mid) && forall i | 0 <= i < |mid| :: Harmless(mid[i])
    ensures a.q <= Run(a, mid).q && !Run(a, mid).saw
  {
    if mid == [] {
    } else {
      HeadKept(bound, a, mid[..|mid| - 1]);
      assert Harmless(mid[|mid| - 1]);
    }
  }

  lemma {:induction false} RunAppend<T>(bound: Option<nat>, a: Spec<T>, s: seq<Event<T>>, t: seq<Event<T>>)
    ensures Run(a, s + t) == Run(Run(a, s), t)
    ensures Legal(bound, a, s + t) <==> Legal(bound, a, s) && Legal(bound, Run(a, s), t)
    decreases |t|
  {
    if t == [] {
      assert s + t == s;
    } else {
      var last := |t| - 1;
      assert (s + t)[..|s + t| - 1] == s + t[..last];
      RunAppend(bound, a, s, t[..last]);
    }
  }

  /**
   After `peek` answers v, whatever the producer does, the next consumer call to complete
   succeeds on exactly v: it cannot report "empty" and cannot see another value.
   */
  lemma PeekIsBinding<T>(bound: Option<nat>, pre: seq<Event<T>>, v: T, mid: seq<Event<T>>, e: Event<T>)
    requires Legal(bound, Spec([], false), pre + [Peek(v)] + mid + [e])
    requires forall i | 0 <= i < |mid| :: Harmless(mid[i])
    ensures !e.DeqFalse?
    ensures e.Deq? || e.Peek? ==> e.v == v
  {
    var a: Spec<T> := Spec([], false);
    RunAppend(bound, a, pre + [Peek(v)] + mid, [e]);
    RunAppend(bound, a, pre + [Peek(v)], mid);
    RunAppend(bound, a, pre, [Peek(v)]);
    assert [Peek(v)][..0] == [] && [e][..0] == [];
    var b := Run(a, pre);
    assert Run(b, [Peek(v)]) == Apply(b, Peek(v));
    HeadKept(bound, Apply(b, Peek(v)), mid);
  }
}
