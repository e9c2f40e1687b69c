/**
 `LightweightSemaphore` of include/atomicops.h as an object that is updated in place.

 The methods make the source's atomic operations in the source's order; between any two of them the
 other thread runs for as long as it likes. `count` is `m_count` and `kernel` stands for `m_sema`.
 */
module SemaphoreObject {
  import opened Semaphore

  /** What the signaller may do while the waiter looks away. */
  predicate SignallerRely(s: State, t: State) {
    && Inv(t) && t.w == s.w && t.granted == s.granted && t.signalled >= s.signalled
    && t.call == s.call && t.failed == s.failed
  }

  class LightweightSemaphore {
    var count: int
    var kernel: nat
    var post: bool
    var w: Waiter
    var signalled: nat
    var granted: nat
    ghost var call: Request
    ghost var failed: bool

    ghost function View(): State
      reads this
    {
      State(count, kernel, post, w, signalled, granted, call, failed)
    }

    ghost predicate Valid()
      reads this
    {
      Inv(View())
    }

    constructor (initialCount: nat)
      ensures Valid() && count == signalled == initialCount && granted == 0 && w == WIdle && !post
    {
      count, kernel, post, w, signalled, granted := initialCount, 0, false, WIdle, initialCount, 0;
      call, failed := Try, false;
    }

    // -------------------------------------------------------------- the signaller

    /** The fetch_add of `signal`; the value it returns is never below -1. */
    method Add(n: nat) returns (oldCount: int)
      requires Valid() && !post && n >= 1
      modifies this`count, this`post, this`signalled
      ensures Valid() && View() == old(Step(View(), Signal(n)))
      ensures oldCount == old(count) >= -1 && post == (oldCount < 0)
    {
      oldCount := count;
      count := count + n;
      post := oldCount < 0;
      signalled := signalled + n;
    }

    /** `m_sema.signal(1)`. */
    method PostOne()
      requires Valid() && post
      modifies this`kernel, this`post
      ensures Valid() && View() == old(Step(View(), Post))
    {
      kernel := kernel + 1;
      post := false;
    }

    /** Any number of steps of the signaller. */
    method SignallerRuns()
      requires Valid()
      modifies this`count, this`kernel, this`post, this`signalled
      ensures Valid() && SignallerRely(old(View()), View())
    {
      var steps: nat := *;
      while steps > 0
        invariant Valid() && SignallerRely(old(View()), View())
      {
        var n: nat := *;
        if post {
          PostOne();
        } else if n >= 1 {
          var _ := Add(n);
        }
        steps := steps - 1;
      }
    }

    /** Any number of steps of the waiter. */
    method WaiterRuns()
      requires Valid()
      modifies this`count, this`kernel, this`w, this`granted, this`call, this`failed
      ensures Valid() && post == old(post) && granted >= old(granted)
    {
      var steps: nat := *;
      while steps > 0
        invariant Valid() && post == old(post) && granted >= old(granted)
      {
        if w.WIdle? {
          var r: Request := *;
          Start(r);
        } else {
          var gaveUp: bool := *;
          Move(gaveUp);
        }
        steps := steps - 1;
      }
    }

    /** `signal` of at least one token: they are added, and a waiter below zero is posted exactly one. */
    method SignalTokens(n: nat)
      requires Valid() && !post && n >= 1
      modifies this
      ensures Valid() && !post && signalled == old(signalled) + n && granted >= old(granted)
    {
      var oldCount := Add(n);
      WaiterRuns();
      if oldCount < 0 {
        PostOne();
      }
    }

    // -------------------------------------------------------------- the waiter

    /** The waiter begins a call. */
    method Start(r: Request)
      requires Valid() && w.WIdle?
      modifies this`w, this`call, this`failed
      ensures Valid() && View() == old(Step(View(), Begin(r)))
    {
      w, call, failed := WTry(r), r, false;
    }

    /** One step of the waiter, wherever it stands. */
    method Move(gaveUp: bool)
      requires Valid() && !w.WIdle?
      modifies this`count, this`kernel, this`w, this`granted, this`failed
      ensures Valid() && View() == old(Step(View(), Proceed(gaveUp)))
    {
      match w {
        case WTry(r) =>
          if count > 0 {
            w := WTryTake;
          } else if r.Try? {
            w := WIdle;
          } else {
            w := WSpin(r.timeout, SPINS);
          }
        case WTryTake => count, granted, w := count - 1, granted + 1, WIdle;
        case WSpin(timeout, left) =>
          w := if count > 0 then WSpinTake else if left > 1 then WSpin(timeout, left - 1) else WDecrement(timeout);
        case WSpinTake => count, granted, w := count - 1, granted + 1, WIdle;
        case WDecrement(timeout) =>
          if count > 0 {
            count, granted, w := count - 1, granted + 1, WIdle;
          } else {
            count, w := count - 1, if timeout == 0 then WRestore else WBlock(timeout);
          }
        case WBlock(_) => MoveOn(gaveUp);
        case WRestore => MoveOn(gaveUp);
        case WRetake => MoveOn(gaveUp);
        case WKernelTry => MoveOn(gaveUp);
      }
    }

    method MoveOn(gaveUp: bool)
      requires Valid() && (w.WBlock? || w.WRestore? || w.WRetake? || w.WKernelTry?)
      modifies this`count, this`kernel, this`w, this`granted, this`failed
      ensures Valid() && View() == old(Step(View(), Proceed(gaveUp)))
    {
      match w {
        case WBlock(_) =>
          if gaveUp {
            w, failed := WRestore, true;
          } else if kernel > 0 {
            kernel, granted, w := kernel - 1, granted + 1, WIdle;
          }
        case WRestore =>
          w := if count < 0 then WIdle else WRetake;
          count := count + 1;
        case WRetake =>
          w := if count > 0 then WKernelTry else WRestore;
          count := count - 1;
        case WKernelTry =>
          if kernel > 0 {
            kernel, granted, w := kernel - 1, granted + 1, WIdle;
          } else {
            w := WRestore;
          }
      }
    }

    /** `tryWait` takes a token if it sees one, and otherwise changes nothing. */
    method TryWait() returns (ok: bool)
      requires Valid() && w.WIdle?
      modifies this
      ensures Valid() && w.WIdle? && signalled >= old(signalled)
      ensures granted == old(granted) + (if ok then 1 else 0)
      ensures !ok ==> old(signalled) == old(granted)
    {
      Start(Try);
      SignallerRuns();
      var seen := count;
      Move(false);
      if seen > 0 {
        SignallerRuns();
        Move(false);
        return true;
      }
      return false;
    }

    /**
     `waitWithPartialSpinning`: on true it has taken exactly one token; on false none, and there was none when
     it began, and the timeout is 0 or the kernel has given up. `patience` is how many rounds of the restore
     loop pass before the signaller finishes a post it is in and rests.
     */
    method WaitWithPartialSpinning(timeout: int, patience: nat) returns (ok: bool)
      requires Valid() && w == WSpin(timeout, SPINS)
      modifies this
      ensures Valid() && w.WIdle? && signalled >= old(signalled)
      ensures granted == old(granted) + (if ok then 1 else 0)
      ensures !ok ==> old(signalled) == old(granted) && (timeout == 0 || failed)
    {
      var spin := SPINS;
      while spin > 0
        invariant Valid() && signalled >= old(signalled) && granted == old(granted)
        invariant call == old(call) && failed == old(failed)
        invariant 0 <= spin <= SPINS && w == if spin > 0 then WSpin(timeout, spin) else WDecrement(timeout)
      {
        SignallerRuns();
        var seen := count;
        Move(false);
        if seen > 0 {
          SignallerRuns();
          Move(false);
          return true;
        }
        spin := spin - 1;
      }
      SignallerRuns();
      var oldCount := count;
      Move(false);
      if oldCount > 0 {
        return true;
      }
      if timeout != 0 {
        SignallerRuns();
        var gaveUp: bool := *;
        if !gaveUp && kernel > 0 {
          Move(false);
          return true;
        }
        Move(true);
      }
      ok := RestoreLoop(patience);
    }

    /** The restore loop hands the decrement back, there being no token, or takes the token that arrived meanwhile. */
    method RestoreLoop(patience: nat) returns (ok: bool)
      requires Valid() && w.WRestore?
      modifies this
      ensures Valid() && w.WIdle? && signalled >= old(signalled) && failed == old(failed)
      ensures granted == old(granted) + (if ok then 1 else 0)
      ensures !ok ==> old(signalled) == old(granted)
    {
      var left := patience;
      while true
        invariant Valid() && w.WRestore? && signalled >= old(signalled) && granted == old(granted) && failed == old(failed)
        decreases left
      {
        var over;
        over, ok := RestoreRound(left > 0);
        if over {
          return ok;
        }
        left := left - 1;
      }
    }

    /** One round; with the signaller at rest it is the last. */
    method RestoreRound(busy: bool) returns (over: bool, ok: bool)
      requires Valid() && w.WRestore?
      modifies this
      ensures Valid() && signalled >= old(signalled) && failed == old(failed) && (if over then w.WIdle? else w.WRestore? && busy && !ok)
      ensures granted == old(granted) + (if ok then 1 else 0)
      ensures over && !ok ==> signalled == granted
    {
      SignallerMay(busy);
      var oldCount := count;
      Move(false);
      if oldCount < 0 {
        return true, false;
      }
      SignallerMay(busy);
      oldCount := count;
      Move(false);
      SignallerMay(busy);
      ok := oldCount > 0 && kernel > 0;
      Move(false);
      over := ok;
    }

    /** The signaller runs as it likes, or finishes the post it is in and rests. */
    method SignallerMay(busy: bool)
      requires Valid()
      modifies this`count, this`kernel, this`post, this`signalled
      ensures Valid() && SignallerRely(old(View()), View())
      ensures !busy ==> !post && count == old(count) && kernel == old(kernel) + (if old(post) then 1 else 0)
    {
      if busy {
        SignallerRuns();
      } else if post {
        PostOne();
      }
    }

    /**
     `wait` with a timeout (negative: indefinite): on true it has taken exactly one token; on false none, and
     there was none when it was called, and the timeout is 0 or the kernel has given up.
     */
    method WaitFor(timeout: int, patience: nat) returns (ok: bool)
      requires Valid() && w.WIdle?
      modifies this
      ensures Valid() && w.WIdle? && signalled >= old(signalled)
      ensures granted == old(granted) + (if ok then 1 else 0)
      ensures !ok ==> old(signalled) == old(granted) && (timeout == 0 || failed)
    {
      Start(Wait(timeout));
      SignallerRuns();
      var seen := count;
      Move(false);
      if seen > 0 {
        SignallerRuns();
        Move(false);
        return true;
      }
      ok := WaitWithPartialSpinning(timeout, patience);
    }

    /** `availableApprox` is exact while no wait is under way. */
    method AvailableApprox() returns (n: nat)
      requires Valid()
      ensures w.WIdle? ==> n == signalled - granted
      ensures n <= signalled - granted <= n + 1
    {
      var seen := count;
      n := if seen > 0 then seen else 0;
    }
  }
}
