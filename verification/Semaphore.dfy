/**
 `spsc_sema::LightweightSemaphore` of include/atomicops.h as a machine of micro-steps, for one
 signaller and one waiter.

 A user-space count that may go to -1 is backed by a kernel semaphore, here a counter whose wait may
 also fail or time out. `signalled` and `granted` count tokens, `call` is what the waiter last asked for, and
 `failed` says that in this call the kernel has given up; none of them ever decides a branch.
 */
module Semaphore {

  /** What the waiter asked for: `tryWait`, or `wait` with a timeout (negative: indefinite). */
  datatype Request = Try | Wait(timeout: int)

  /** Where the waiter stands, named by what it does next. */
  datatype Waiter =
    | WIdle
    | WTry(r: Request)              // load m_count in tryWait
    | WTryTake                      // fetch_add(-1) in tryWait
    | WSpin(timeout: int, left: nat)  // load m_count in the spin loop, `left` rounds to go
    | WSpinTake                     // fetch_add(-1) in the spin loop
    | WDecrement(timeout: int)      // fetch_add(-1) after the spin loop
    | WBlock(timeout: int)          // wait in the kernel
    | WRestore                      // fetch_add(+1) in the restore loop
    | WRetake                       // fetch_add(-1) in the restore loop
    | WKernelTry                    // try_wait in the restore loop

  datatype State = State(
    count: int,        // m_count
    kernel: nat,       // m_sema
    post: bool,        // the signaller is between fetch_add and m_sema.signal(1)
    w: Waiter,
    signalled: nat,
    granted: nat,
    call: Request,
    failed: bool)

  /**
   A step of the signaller or of the waiter. `Begin` starts a wait; `woken` says whether a kernel wait
   that cannot return at once ends in a failure (or timeout) instead of blocking on.
   */
  datatype Action = Signal(n: nat) | Post | Begin(r: Request) | Proceed(gaveUp: bool)

  datatype Event = Tau | Signalled(n: nat) | Granted | Refused

  const SPINS: nat := 1024

  /** The assertions at lines 749 and 751, and that a thread is asked to do only what it is at. */
  predicate Safe(s: State, a: Action) {
    match a
    case Signal(n) => !s.post && s.count >= -1
    case Post => s.post
    case Begin(_) => s.w.WIdle?
    case Proceed(_) => !s.w.WIdle?
  }

  /** `gaveUp` is what the kernel decides when it has nothing to give. */
  function WaiterStep(s: State, gaveUp: bool): State {
    match s.w
    case WIdle => s
    case WTry(r) =>
      if s.count > 0 then s.(w := WTryTake)
      else (match r
            case Try => s.(w := WIdle)
            case Wait(timeout) => s.(w := WSpin(timeout, SPINS)))
    case WTryTake => s.(count := s.count - 1, w := WIdle, granted := s.granted + 1)
    case WSpin(timeout, left) =>
      if s.count > 0 then s.(w := WSpinTake)
      else if left > 1 then s.(w := WSpin(timeout, left - 1))
      else s.(w := WDecrement(timeout))
    case WSpinTake => s.(count := s.count - 1, w := WIdle, granted := s.granted + 1)
    case WDecrement(timeout) =>
      if s.count > 0 then s.(count := s.count - 1, w := WIdle, granted := s.granted + 1)
      else s.(count := s.count - 1, w := if timeout == 0 then WRestore else WBlock(timeout))
    case WBlock(timeout) =>
      if gaveUp then s.(w := WRestore, failed := true)
      else if s.kernel > 0 then s.(kernel := s.kernel - 1, w := WIdle, granted := s.granted + 1)
      else s
    case WRestore =>
      if s.count < 0 then s.(count := s.count + 1, w := WIdle)
      else s.(count := s.count + 1, w := WRetake)
    case WRetake =>
      if s.count > 0 then s.(count := s.count - 1, w := WKernelTry)
      else s.(count := s.count - 1, w := WRestore)
    case WKernelTry =>
      if s.kernel > 0 then s.(kernel := s.kernel - 1, w := WIdle, granted := s.granted + 1)
      else s.(w := WRestore)
  }

  function Step(s: State, a: Action): State
    requires Safe(s, a)
  {
    match a
    case Signal(n) => s.(count := s.count + n, post := s.count < 0, signalled := s.signalled + n)
    case Post => s.(kernel := s.kernel + 1, post := false)
    case Begin(r) => s.(w := WTry(r), call := r, failed := false)
    case Proceed(gaveUp) => WaiterStep(s, gaveUp)
  }

  /** A wait ends with a grant or with a refusal; the signaller's call takes effect at its fetch_add. */
  function EventOf(s: State, a: Action): Event
    requires Safe(s, a)
  {
    match a
    case Signal(n) => Signalled(n)
    case Post => Tau
    case Begin(_) => Tau
    case Proceed(gaveUp) =>
      var t := WaiterStep(s, gaveUp);
      if !t.w.WIdle? then Tau
      else if t.granted > s.granted then Granted
      else Refused
  }

  predicate Init(s: State) {
    s.count >= 0 && s.kernel == 0 && !s.post && s.w == WIdle && s.signalled == s.count && s.granted == 0
  }

  // ---------------------------------------------------------------- the invariant

  /** The waiter has decremented the count without having been granted anything yet. */
  predicate Outstanding(w: Waiter) {
    w.WBlock? || w.WRestore? || w.WKernelTry?
  }

  /** Kernel tokens there or on their way. */
  function Owed(s: State): nat {
    s.kernel + (if s.post then 1 else 0)
  }

  /**
   How far a call goes: only a `wait` gets past its first look, only one with a timeout other than 0 blocks
   in the kernel, and such a one comes to the restore loop only when the kernel has given up.
   */
  predicate Patient(s: State) {
    match s.w
    case WIdle => true
    case WTry(r) => s.call == r
    case WTryTake => true
    case WSpin(timeout, _) => s.call == Wait(timeout)
    case WSpinTake => s.call.Wait?
    case WDecrement(timeout) => s.call == Wait(timeout)
    case WBlock(timeout) => s.call == Wait(timeout) && timeout != 0
    case WRestore => s.call.Wait? && (s.call.timeout == 0 || s.failed)
    case WRetake => s.call.Wait? && (s.call.timeout == 0 || s.failed)
    case WKernelTry => s.call.Wait? && (s.call.timeout == 0 || s.failed)
  }

  /**
   Tokens are conserved. While the waiter is outstanding, the kernel owes it exactly one token when
   one exists for it and none otherwise; at all other times the kernel owes nothing.
   */
  predicate Inv(s: State) {
    && s.granted <= s.signalled
    && s.count == s.signalled - s.granted - (if Outstanding(s.w) then 1 else 0)
    && (if Outstanding(s.w) then Owed(s) == (if s.count >= 0 then 1 else 0)
        else if s.w.WRetake? then Owed(s) == 1 && s.count >= 1
        else Owed(s) == 0)
    && (s.w.WTryTake? || s.w.WSpinTake? ==> s.count >= 1)
    && Patient(s)
  }

  /** Signals of at least one token, which is all that the blocking queue ever sends. */
  predicate Sends(a: Action) {
    a.Signal? ==> a.n >= 1
  }

  lemma StepKeeps(s: State, a: Action)
    requires Inv(s) && Safe(s, a) && Sends(a)
    ensures Inv(Step(s, a))
  {
  }

  /** `signal(0)` is accepted by the code; it keeps the books exactly when no waiter has gone below zero. */
  lemma SignalKeepsExactlyWhen(s: State, n: nat)
    requires Inv(s) && Safe(s, Signal(n))
    ensures Inv(Step(s, Signal(n))) <==> n >= 1 || s.count >= 0
  {
  }

  /** Otherwise it wakes the waiter with a token that was never signalled. */
  lemma SignalZeroInventsToken(s: State)
    requires Inv(s) && s.w.WBlock? && s.count == -1
    ensures Safe(s, Signal(0)) && Safe(Step(s, Signal(0)), Post)
    ensures var t := Step(Step(Step(s, Signal(0)), Post), Proceed(false));
            t.granted == t.signalled + 1
  {
  }

  /** `oldCount >= -1` always holds, so the assertion at line 751 never fires. */
  lemma SignalAlwaysSafe(s: State, n: nat)
    requires Inv(s) && !s.post
    ensures Safe(s, Signal(n))
  {
  }

  /** A blocked waiter for whom a token exists is owed it by the kernel: no wakeup is lost. */
  lemma NoLostWakeup(s: State)
    requires Inv(s) && s.w.WBlock? && s.signalled > s.granted
    ensures s.kernel == 1 || (s.kernel == 0 && s.post && Step(s, Post).kernel == 1)
    ensures s.kernel == 1 ==> EventOf(s, Proceed(false)) == Granted
  {
  }

  /** A round of the restore loop that starts with no post under way ends the loop. */
  lemma RestoreRoundEnds(s: State)
    requires Inv(s) && s.w.WRestore? && !s.post
    ensures var a := WaiterStep(s, false);
            a.w.WIdle? || (var b := WaiterStep(a, false); b.w.WKernelTry? && WaiterStep(b, false).w.WIdle?)
  {
  }

  /**
   A call is refused only when every token signalled has been granted; and a `wait` only when its timeout
   is 0 or the kernel has given up.
   */
  lemma RefusedOnlyThen(s: State, gaveUp: bool)
    requires Inv(s) && !s.w.WIdle? && EventOf(s, Proceed(gaveUp)).Refused?
    ensures s.signalled == s.granted
    ensures s.call.Wait? ==> s.call.timeout == 0 || s.failed
  {
  }

  /** `tryWait` never spins, decrements blindly or blocks: it is over within two steps. */
  lemma TryIsShort(s: State, gaveUp: bool, gaveUpAgain: bool)
    requires Inv(s) && s.call.Try? && !s.w.WIdle?
    ensures s.w.WTry? || s.w.WTryTake?
    ensures var t := WaiterStep(s, gaveUp); t.w.WIdle? || (t.w.WTryTake? && WaiterStep(t, gaveUpAgain).w.WIdle?)
  {
  }

  /** The count never falls below -1. */
  lemma CountBounds(s: State)
    requires Inv(s)
    ensures s.count >= -1 && s.kernel <= 1
    ensures s.w.WIdle? ==> s.count == s.signalled - s.granted && s.kernel == 0 && !s.post
  {
  }

  // ---------------------------------------------------------------- whole runs

  /** The state after a schedule and what the two callers saw; steps a thread is not at do nothing. */
  function Exec(s: State, schedule: seq<Action>): (State, seq<Event>) {
    if schedule == [] then (s, []) else Extend(Exec(s, schedule[..|schedule| - 1]), schedule[|schedule| - 1])
  }

  function Extend(r: (State, seq<Event>), a: Action): (State, seq<Event>) {
    if Safe(r.0, a) then (Step(r.0, a), r.1 + [EventOf(r.0, a)]) else r
  }

  function Grants(trace: seq<Event>): nat {
    if trace == [] then 0
    else Grants(trace[..|trace| - 1]) + (if trace[|trace| - 1].Granted? then 1 else 0)
  }

  function Signals(trace: seq<Event>): nat {
    if trace == [] then 0
    else
      var e := trace[|trace| - 1];
      Signals(trace[..|trace| - 1]) + (if e.Signalled? then e.n else 0)
  }

  lemma StepCounts(s: State, a: Action)
    requires Safe(s, a)
    ensures Step(s, a).granted == s.granted + (if EventOf(s, a).Granted? then 1 else 0)
    ensures Step(s, a).signalled == s.signalled + (if EventOf(s, a).Signalled? then EventOf(s, a).n else 0)
  {
  }

  /**
   Over every interleaving of one signaller and one waiter, however waits end: tokens granted never
   exceed tokens signalled, and `m_count` is the difference, less one while a decrement is outstanding.
   A refusal therefore costs nothing: it changes neither number.
   */
  lemma {:induction false} RunConserves(s: State, schedule: seq<Action>)
    requires Init(s)
    requires forall i | 0 <= i < |schedule| :: Sends(schedule[i])
    ensures Inv(Exec(s, schedule).0)
    ensures Exec(s, schedule).0.granted == Grants(Exec(s, schedule).1)
    ensures Exec(s, schedule).0.signalled == s.count + Signals(Exec(s, schedule).1)
    ensures Grants(Exec(s, schedule).1) <= s.count + Signals(Exec(s, schedule).1)
  {
    if schedule == [] {
    } else {
      var before := schedule[..|schedule| - 1];
      var a := schedule[|schedule| - 1];
      RunConserves(s, before);
      var r := Exec(s, before);
      if Safe(r.0, a) {
        assert Sends(a);
        StepKeeps(r.0, a);
        StepCounts(r.0, a);
        var e := EventOf(r.0, a);
        assert (r.1 + [e])[..|r.1 + [e]| - 1] == r.1;
      }
    }
  }

  /** In every run the assertion on `oldCount` holds whenever `signal` is called, however the waits so far have ended. */
  lemma RunAssertionHolds(s: State, schedule: seq<Action>, n: nat)
    requires Init(s) && forall i | 0 <= i < |schedule| :: Sends(schedule[i])
    requires !Exec(s, schedule).0.post
    ensures Safe(Exec(s, schedule).0, Signal(n))
  {
    RunConserves(s, schedule);
    SignalAlwaysSafe(Exec(s, schedule).0, n);
  }

  /**
   In every run, when the waiter is blocked in the kernel while a token exists for it, one more step of
   the signaller (if it is still to post) and one of the waiter grant it that token, and nothing more is
   owed: the wakeup is neither lost nor given twice.
   */
  lemma RunNoLostWakeup(s: State, schedule: seq<Action>)
    requires Init(s) && forall i | 0 <= i < |schedule| :: Sends(schedule[i])
    requires var end := Exec(s, schedule).0; end.w.WBlock? && end.signalled > end.granted
    ensures var end := Exec(s, schedule).0;
            var posted := if end.post then Step(end, Post) else end;
            var woken := WaiterStep(posted, false);
            woken.w.WIdle? && woken.granted == end.granted + 1 && Owed(woken) == 0
  {
    RunConserves(s, schedule);
    NoLostWakeup(Exec(s, schedule).0);
  }

  /** In every run a waiter that is outside has left nothing behind: the count is exact and the kernel owes nothing. */
  lemma RunLeavesNothingBehind(s: State, schedule: seq<Action>)
    requires Init(s) && forall i | 0 <= i < |schedule| :: Sends(schedule[i])
    requires Exec(s, schedule).0.w.WIdle?
    ensures var (end, trace) := Exec(s, schedule);
            && end.count == s.count + Signals(trace) - Grants(trace)
            && Owed(end) == 0
  {
    RunConserves(s, schedule);
  }

  /** In every run, `failed` tells of a step of this very call at which the kernel gave up. */
  lemma {:induction false} RunFailed(s: State, schedule: seq<Action>) returns (i: nat)
    requires Init(s) && Exec(s, schedule).0.failed && !Exec(s, schedule).0.w.WIdle?
    requires !s.failed
    ensures i < |schedule| && Exec(s, schedule[..i]).0.w.WBlock? && schedule[i] == Proceed(true)
    ensures forall j | i <= j <= |schedule| :: !Exec(s, schedule[..j]).0.w.WIdle?
  {
    var last := |schedule| - 1;
    var before, a := schedule[..last], schedule[last];
    var was := Exec(s, before).0;
    assert schedule[..|schedule|] == schedule;
    if Safe(was, a) && was.w.WBlock? && a == Proceed(true) {
      i := last;
    } else {
      i := RunFailed(s, before);
      assert forall j | 0 <= j <= last :: before[..j] == schedule[..j];
    }
  }

  /**
   In every run a `wait` with a timeout other than 0, indefinite ones included, is refused only after the
   kernel gave up in that very call, and every call only when no token was left.
   */
  lemma RunWaitsIt(s: State, schedule: seq<Action>, gaveUp: bool) returns (i: nat)
    requires Init(s) && !s.failed && forall i | 0 <= i < |schedule| :: Sends(schedule[i])
    requires var end := Exec(s, schedule).0;
             !end.w.WIdle? && EventOf(end, Proceed(gaveUp)).Refused? && end.call.Wait? && end.call.timeout != 0
    ensures Exec(s, schedule).0.signalled == Exec(s, schedule).0.granted
    ensures i < |schedule| && Exec(s, schedule[..i]).0.w.WBlock? && schedule[i] == Proceed(true)
    ensures forall j | i <= j <= |schedule| :: !Exec(s, schedule[..j]).0.w.WIdle?
  {
    RunConserves(s, schedule);
    RefusedOnlyThen(Exec(s, schedule).0, gaveUp);
    i := RunFailed(s, schedule);
  }

  // ---------------------------------------------------------------- signal(0)

  ghost predicate Reaches(s: State, t: State) {
    exists schedule: seq<Action> :: Exec(s, schedule).0 == t
  }

  /** One more step of a run. */
  lemma Go(s: State, t: State, a: Action) returns (u: State)
    requires Reaches(s, t) && Safe(t, a)
    ensures u == Step(t, a) && Reaches(s, u)
  {
    u := Step(t, a);
    var schedule :| Exec(s, schedule).0 == t;
    assert (schedule + [a])[..|schedule + [a]| - 1] == schedule;
    assert Exec(s, schedule + [a]).0 == u;
  }

  /** A waiter that never sees a token spins down to its decrement. */
  lemma {:induction false} SpinDown(s: State, t: State, left: nat) returns (u: State)
    requires Reaches(s, t) && left >= 1 && t.w == WSpin(-1, left) && t.count == 0
    ensures Reaches(s, u) && u == t.(w := WDecrement(-1))
    decreases left
  {
    u := Go(s, t, Proceed(false));
    if left > 1 {
      u := SpinDown(s, u, left - 1);
    }
  }

  /** A wait on a semaphore without tokens blocks in the kernel, the count at -1. */
  lemma WaiterBlocks(s: State) returns (t: State)
    requires Init(s) && s.count == 0
    ensures Reaches(s, t) && t == s.(count := -1, w := WBlock(-1), call := Wait(-1), failed := false)
  {
    assert Exec(s, []).0 == s;
    t := Go(s, s, Begin(Wait(-1)));
    t := Go(s, t, Proceed(false));
    t := SpinDown(s, t, SPINS);
    t := Go(s, t, Proceed(false));
  }

  /**
   A run from the constructor in which nothing is ever signalled and yet a wait succeeds: the waiter
   blocks, `signal(0)` finds the count below zero and posts, and the waiter takes the post for a token.
   */
  lemma SignalZeroRun(s: State) returns (t: State)
    requires Init(s) && s.count == 0
    ensures Reaches(s, t) && t.w.WIdle? && t.signalled == 0 && t.granted == 1
  {
    t := WaiterBlocks(s);
    assert t.post == false;
    t := Go(s, t, Signal(0));
    assert t == s.(count := -1, w := WBlock(-1), post := true, call := Wait(-1), failed := false);
    t := Go(s, t, Post);
    assert t == s.(count := -1, w := WBlock(-1), kernel := 1, call := Wait(-1), failed := false);
    t := Go(s, t, Proceed(false));
  }
}
