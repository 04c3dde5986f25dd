/**
  The rate limiter every outgoing request goes through (`RateLimiter`): it keeps
  the time of the previous request and, when the next one comes sooner than
  `delay` seconds after it, sleeps for the remainder plus a small random jitter.

  Time is in seconds, as exact reals.  The clock readings and the random jitter
  are parameters: `now` is the reading before the sleep, `jitter` the value
  drawn from `uniform(0, 0.05)`, and `overshoot` how much later than the end of
  the requested sleep the clock is read again (never negative: a sleep lasts
  at least as long as asked).
 */
module RateLimit {

  /** The default minimum spacing between requests, in seconds. */
  const DefaultDelay: real := 1.5

  /** The upper end of the jitter added to each sleep, in seconds. */
  const JitterMax: real := 0.05

  /** How long `wait()` sleeps: the rest of the delay plus the jitter, or nothing. */
  function SleepTime(delay: real, last: real, now: real, jitter: real): (r: real)
    requires 0.0 <= jitter <= JitterMax
    ensures r >= 0.0
    ensures now - last >= delay ==> r == 0.0
    ensures now - last < delay ==> r > 0.0 && now + r >= last + delay
    ensures now - last < delay ==> r <= last + delay - now + JitterMax
    ensures now >= last && delay >= 0.0 ==> r <= delay + JitterMax
  {
    var elapsed := now - last;
    if elapsed < delay then (delay - elapsed) + jitter else 0.0
  }

  class RateLimiter {
    /** The minimum spacing, in seconds. */
    const delay: real
    /** The clock reading taken when the previous request was let through. */
    var lastRequest: real
    /** The readings at which `wait()` has let requests through, oldest first. */
    ghost var history: seq<real>

    /** The requests let through so far kept their spacing, and the last of them is `lastRequest`. */
    ghost predicate Valid()
      reads this
    {
      Spaced(history, delay) && (history != [] ==> history[|history| - 1] == lastRequest)
    }

    constructor (delay: real)
      ensures Valid()
      ensures this.delay == delay && lastRequest == 0.0 && history == []
    {
      this.delay := delay;
      lastRequest := 0.0;
      history := [];
    }

    /**
      `wait()`: returns how long it slept.  The request it lets through comes at
      least `delay` seconds after the previous one.
     */
    method Wait(now: real, jitter: real, overshoot: real) returns (slept: real)
      requires Valid()
      requires 0.0 <= jitter <= JitterMax && overshoot >= 0.0
      modifies this
      ensures Valid()
      ensures slept == SleepTime(delay, old(lastRequest), now, jitter)
      ensures lastRequest == now + slept + overshoot
      ensures lastRequest >= old(lastRequest) + delay
      ensures history == old(history) + [lastRequest]
    {
      var elapsed := now - lastRequest;
      slept := 0.0;
      if elapsed < delay {
        slept := (delay - elapsed) + jitter;
      }
      lastRequest := now + slept + overshoot;
      history := history + [lastRequest];
    }
  }

  /**
    Requests let through by successive waits, at the clock readings `times`, are
    each at least `delay` after the one before: the spacing the limiter exists
    to keep.
   */
  ghost predicate Spaced(times: seq<real>, delay: real)
  {
    forall i :: 0 < i < |times| ==> times[i] >= times[i - 1] + delay
  }

  /** Spacing of consecutive requests adds up: the `n`-th request is `n * delay` after the first. */
  lemma {:induction false} SpacedAccumulates(times: seq<real>, delay: real, n: nat)
    requires Spaced(times, delay) && n < |times|
    ensures times[n] >= times[0] + (n as real) * delay
  {
    if n > 0 {
      SpacedAccumulates(times, delay, n - 1);
    }
  }
}
