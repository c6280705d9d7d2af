/** `SimpleLimiter`: the token bucket as an object updated under a lock, one critical section per call. */
module Limiter {
  import opened Options
  import opened TokenBucket
  import opened Waiting

  class SimpleLimiter {
    const ratePerSec: nat
    const burstSize: nat
    var tokens: real
    var lastUpdate: real

    function Cfg(): Config {
      Config(ratePerSec, burstSize)
    }

    function State(): Bucket
      reads this
    {
      Bucket(tokens, lastUpdate)
    }

    ghost predicate Valid()
      reads this
    {
      Bounded(Cfg(), State())
    }

    constructor (ratePerSec: nat, burstSize: nat, now: real)
      ensures Cfg() == Config(ratePerSec, burstSize)
      ensures Valid() && State() == Full(Cfg(), now)
    {
      this.ratePerSec := ratePerSec;
      this.burstSize := burstSize;
      this.tokens := burstSize as real;
      this.lastUpdate := now;
    }

    method RefillAt(now: real)
      modifies this
      ensures State() == Refill(Cfg(), old(State()), now)
    {
      var elapsed := if now > lastUpdate then now - lastUpdate else 0.0;
      var newTokens := elapsed * ratePerSec as real;
      if newTokens > 0.0 {
        tokens := Min(tokens + newTokens, burstSize as real);
        lastUpdate := now;
      }
    }

    method CheckN(n: nat, now: real) returns (ok: bool)
      modifies this
      ensures (State(), ok) == Acquire(Cfg(), old(State()), now, n)
      ensures old(Valid() && lastUpdate <= now) ==> Valid() && lastUpdate <= now
    {
      if Valid() && lastUpdate <= now {
        RefillTokens(Cfg(), State(), now);
      }
      RefillAt(now);
      if tokens >= n as real {
        tokens := tokens - n as real;
        ok := true;
      } else {
        ok := false;
      }
    }

    /** What other callers do to this limiter while a waiter sleeps. */
    method Serve(others: seq<Request>)
      modifies this
      ensures State() == Run(Cfg(), old(State()), others)
    {
      for k := 0 to |others|
        invariant State() == Run(Cfg(), old(State()), others[..k])
      {
        var _ := CheckN(others[k].n, others[k].at);
        assert others[..k + 1][..k] == others[..k];
      }
      assert others[..|others|] == others;
    }

    /**
      Retry after each sleep until the tokens are there. `r` is the number of sleeps it took, or `None` if the
      waiter is still waiting when the schedule of sleeps ends.
    */
    method UntilNReady(n: nat, now: real, sleeps: seq<Sleep>) returns (r: Option<nat>)
      requires ratePerSec > 0 && Valid() && lastUpdate <= now
      requires Timely(Cfg(), State(), now, n, sleeps)
      modifies this
      ensures (State(), r) == UntilReady(Cfg(), old(State()), now, n, sleeps)
    {
      ghost var all := UntilReady(Cfg(), State(), now, n, sleeps);
      var i, t := 0, now;
      while true
        invariant 0 <= i <= |sleeps|
        invariant Valid() && lastUpdate <= t && Timely(Cfg(), State(), t, n, sleeps[i..])
        invariant var (b, rest) := UntilReady(Cfg(), State(), t, n, sleeps[i..]);
                  all == (b, if rest.Some? then Some(rest.value + i) else None)
        decreases |sleeps| - i
      {
        ghost var before := State();
        var ok := CheckN(n, t);
        if ok {
          return Some(i);
        }
        if i == |sleeps| {
          return None;
        }
        var missing := n as real - tokens;
        var secondsNeeded := missing / ratePerSec as real;
        assert t + secondsNeeded <= sleeps[i].wake;
        NextAttempt(Cfg(), before, t, n, sleeps[i]);
        Serve(sleeps[i].others);
        assert sleeps[i..][1..] == sleeps[i + 1..];
        t := sleeps[i].wake;
        i := i + 1;
      }
    }
  }
}
