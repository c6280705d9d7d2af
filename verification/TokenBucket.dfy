/**
  The token bucket of `SimpleLimiter`, as values: a bucket state, lazy refill, one
  acquisition, and a run of acquisitions from creation.

  The main theorem, `ExactAdmission`, characterises the bucket without mentioning tokens:
  a request is refused exactly when granting it would break the rate in some time window
  that ends now.

  Times are reals (seconds) and tokens are exact reals, so floating-point rounding is idealised.
*/
module TokenBucket {

  datatype Config = Config(rate: nat, burst: nat)

  datatype Bucket = Bucket(tokens: real, lastUpdate: real)

  datatype Request = Request(at: real, n: nat)

  function Min(x: real, y: real): real {
    if x <= y then x else y
  }

  /** A new limiter starts with `burst` tokens. */
  function Full(c: Config, now: real): Bucket {
    Bucket(c.burst as real, now)
  }

  /** `Instant::duration_since`, which saturates at zero. */
  function Elapsed(since: real, now: real): real {
    if now > since then now - since else 0.0
  }

  function Refill(c: Config, b: Bucket, now: real): Bucket {
    var newTokens := Elapsed(b.lastUpdate, now) * c.rate as real;
    if newTokens > 0.0 then
      Bucket(Min(b.tokens + newTokens, c.burst as real), now)
    else
      b
  }

  /** Refill, then take `n` tokens if there are that many. */
  function Acquire(c: Config, b: Bucket, now: real, n: nat): (r: (Bucket, bool)) {
    var f := Refill(c, b, now);
    if f.tokens >= n as real then (f.(tokens := f.tokens - n as real), true) else (f, false)
  }

  /** Tokens earned between two instants. */
  function Accrual(c: Config, s: real, t: real): real {
    c.rate as real * (t - s)
  }

  lemma AccrualMonotone(c: Config, s: real, s': real, t: real, t': real)
    requires s' <= s && t <= t'
    ensures Accrual(c, s, t) <= Accrual(c, s', t')
  {
    assert Accrual(c, s', t') - Accrual(c, s, t) == c.rate as real * ((t' - t) + (s - s'));
  }

  // ----- One step -----------------------------------------------------------------------

  ghost predicate Bounded(c: Config, b: Bucket) {
    0.0 <= b.tokens <= c.burst as real
  }

  lemma ElapsedAccrual(c: Config, since: real, now: real)
    requires since <= now
    ensures Elapsed(since, now) * c.rate as real == Accrual(c, since, now) >= 0.0
  {
    if since < now {
      assert Elapsed(since, now) * c.rate as real == Accrual(c, since, now);
      AccrualMonotone(c, since, since, since, now);
    }
  }

  /** Refill in closed form. */
  lemma RefillTokens(c: Config, b: Bucket, now: real)
    requires b.tokens <= c.burst as real && b.lastUpdate <= now
    ensures Refill(c, b, now).tokens == Min(b.tokens + Accrual(c, b.lastUpdate, now), c.burst as real)
    ensures b.tokens <= Refill(c, b, now).tokens
    ensures b.lastUpdate <= Refill(c, b, now).lastUpdate <= now
    ensures c.rate > 0 ==> Refill(c, b, now).lastUpdate == now
  {
    ElapsedAccrual(c, b.lastUpdate, now);
  }

  /** Refilling at `t` is refilling at an earlier `s`, adding the accrual since, and capping. */
  lemma RefillLater(c: Config, b: Bucket, s: real, t: real)
    requires b.tokens <= c.burst as real && b.lastUpdate <= s <= t
    ensures Refill(c, b, t).tokens == Min(Refill(c, b, s).tokens + Accrual(c, s, t), c.burst as real)
  {
    RefillTokens(c, b, s);
    RefillTokens(c, b, t);
    ElapsedAccrual(c, s, t);
    assert Accrual(c, b.lastUpdate, s) + Accrual(c, s, t) == Accrual(c, b.lastUpdate, t);
  }

  /** After a request at `s`, the content at a later `t` is what was left plus the accrual, capped. */
  lemma AcquireThenRefill(c: Config, b: Bucket, s: real, n: nat, t: real)
    requires Bounded(c, b) && b.lastUpdate <= s <= t
    ensures var (b', ok) := Acquire(c, b, s, n);
            && Bounded(c, b') && b.lastUpdate <= b'.lastUpdate <= s
            && Refill(c, b', t).tokens
               == Min(Refill(c, b, s).tokens - (if ok then n as real else 0.0) + Accrual(c, s, t), c.burst as real)
  {
    RefillTokens(c, b, s);
    var (b', ok) := Acquire(c, b, s, n);
    RefillTokens(c, b', t);
    ElapsedAccrual(c, b.lastUpdate, s);
    ElapsedAccrual(c, s, t);
    assert Accrual(c, b.lastUpdate, s) + Accrual(c, s, t) == Accrual(c, b.lastUpdate, t);
  }

  // ----- Runs ---------------------------------------------------------------------------

  /** The instant of the last request, or the start of the run. */
  function Latest(start: real, reqs: seq<Request>): real {
    if reqs == [] then start else reqs[|reqs| - 1].at
  }

  /** The clock never runs backwards. */
  predicate Ordered(start: real, reqs: seq<Request>) {
    reqs == [] ||
    var past := reqs[..|reqs| - 1];
    Ordered(start, past) && Latest(start, past) <= reqs[|reqs| - 1].at
  }

  /** The bucket after a run of requests. */
  function Run(c: Config, b: Bucket, reqs: seq<Request>): Bucket {
    if reqs == [] then
      b
    else
      var q := reqs[|reqs| - 1];
      Acquire(c, Run(c, b, reqs[..|reqs| - 1]), q.at, q.n).0
  }

  /** Tokens held at `t` after the run, once refilled. */
  function Available(c: Config, b: Bucket, reqs: seq<Request>, t: real): real {
    Refill(c, Run(c, b, reqs), t).tokens
  }

  /** Whether a request for `n` at `t` is granted after the run. */
  predicate Grants(c: Config, b: Bucket, reqs: seq<Request>, t: real, n: nat) {
    Acquire(c, Run(c, b, reqs), t, n).1
  }

  /** The tokens handed out to request `reqs[k]`. */
  function Charge(c: Config, b: Bucket, reqs: seq<Request>, k: nat): nat
    requires k < |reqs|
  {
    if Grants(c, b, reqs[..k], reqs[k].at, reqs[k].n) then reqs[k].n else 0
  }

  /** The tokens handed out at instants between `s` and `t`, both included. */
  function GrantsIn(c: Config, b: Bucket, reqs: seq<Request>, s: real, t: real): nat {
    if reqs == [] then
      0
    else
      var k := |reqs| - 1;
      GrantsIn(c, b, reqs[..k], s, t) + if s <= reqs[k].at <= t then Charge(c, b, reqs, k) else 0
  }

  /** All the tokens handed out in the run. */
  function Granted(c: Config, b: Bucket, reqs: seq<Request>): nat {
    if reqs == [] then
      0
    else
      var k := |reqs| - 1;
      Granted(c, b, reqs[..k]) + Charge(c, b, reqs, k)
  }

  lemma {:induction false} RunOn(c: Config, b: Bucket, reqs: seq<Request>, more: seq<Request>)
    ensures Run(c, b, reqs + more) == Run(c, Run(c, b, reqs), more)
    decreases |more|
  {
    if more == [] {
      assert reqs + more == reqs;
    } else {
      var k := |more| - 1;
      RunOn(c, b, reqs, more[..k]);
      assert (reqs + more)[..|reqs + more| - 1] == reqs + more[..k];
    }
  }

  lemma {:induction false} LatestAfterStart(start: real, reqs: seq<Request>)
    requires Ordered(start, reqs)
    ensures start <= Latest(start, reqs)
  {
    if reqs != [] {
      LatestAfterStart(start, reqs[..|reqs| - 1]);
    }
  }

  lemma {:induction false} RunBounded(c: Config, b: Bucket, reqs: seq<Request>)
    requires Bounded(c, b) && Ordered(b.lastUpdate, reqs)
    ensures Bounded(c, Run(c, b, reqs))
    ensures b.lastUpdate <= Run(c, b, reqs).lastUpdate <= Latest(b.lastUpdate, reqs)
  {
    if reqs != [] {
      var past, q := reqs[..|reqs| - 1], reqs[|reqs| - 1];
      RunBounded(c, b, past);
      RefillTokens(c, Run(c, b, past), q.at);
    }
  }

  /** How the content moves across the last request of a run. */
  lemma AvailableStep(c: Config, b: Bucket, reqs: seq<Request>, t: real)
    requires Bounded(c, b) && reqs != [] && Ordered(b.lastUpdate, reqs) && Latest(b.lastUpdate, reqs) <= t
    ensures var k := |reqs| - 1;
            Available(c, b, reqs, t)
            == Min(Available(c, b, reqs[..k], reqs[k].at) - Charge(c, b, reqs, k) as real
                   + Accrual(c, reqs[k].at, t), c.burst as real)
  {
    var k := |reqs| - 1;
    RunBounded(c, b, reqs[..k]);
    AcquireThenRefill(c, Run(c, b, reqs[..k]), reqs[k].at, reqs[k].n, t);
  }

  lemma AvailableBounded(c: Config, b: Bucket, reqs: seq<Request>, t: real)
    requires Bounded(c, b) && Ordered(b.lastUpdate, reqs) && Latest(b.lastUpdate, reqs) <= t
    ensures 0.0 <= Available(c, b, reqs, t) <= c.burst as real
  {
    RunBounded(c, b, reqs);
    RefillTokens(c, Run(c, b, reqs), t);
  }

  lemma {:induction false} NoGrantsAfterLatest(c: Config, b: Bucket, reqs: seq<Request>, s: real, t: real)
    requires Ordered(b.lastUpdate, reqs) && Latest(b.lastUpdate, reqs) < s
    ensures GrantsIn(c, b, reqs, s, t) == 0
  {
    if reqs != [] {
      NoGrantsAfterLatest(c, b, reqs[..|reqs| - 1], s, t);
    }
  }

  lemma {:induction false} GrantsInExtend(c: Config, b: Bucket, reqs: seq<Request>, s: real, t: real, t': real)
    requires Ordered(b.lastUpdate, reqs) && Latest(b.lastUpdate, reqs) <= t <= t'
    ensures GrantsIn(c, b, reqs, s, t) == GrantsIn(c, b, reqs, s, t')
  {
    if reqs != [] {
      GrantsInExtend(c, b, reqs[..|reqs| - 1], s, t, t');
    }
  }

  // ----- Admission ----------------------------------------------------------------------

  /** What the rate still allows in the window from `s` to `t`. */
  function Slack(c: Config, created: real, reqs: seq<Request>, s: real, t: real): real {
    c.burst as real + Accrual(c, s, t) - GrantsIn(c, Full(c, created), reqs, s, t) as real
  }

  /** No window has less slack than the bucket has tokens. */
  lemma {:induction false} AvailableAtMostSlack(c: Config, created: real, reqs: seq<Request>, s: real, t: real)
    requires Ordered(created, reqs) && Latest(created, reqs) <= t && created <= s <= t
    ensures Available(c, Full(c, created), reqs, t) <= Slack(c, created, reqs, s, t)
    decreases |reqs|
  {
    var b := Full(c, created);
    AvailableBounded(c, b, reqs, t);
    ElapsedAccrual(c, s, t);
    if reqs == [] {
    } else if Latest(created, reqs) < s {
      NoGrantsAfterLatest(c, b, reqs, s, t);
    } else {
      var k := |reqs| - 1;
      AvailableAtMostSlack(c, created, reqs[..k], s, reqs[k].at);
      GrantsInExtend(c, b, reqs[..k], s, reqs[k].at, t);
      AvailableStep(c, b, reqs, t);
      assert Accrual(c, s, reqs[k].at) + Accrual(c, reqs[k].at, t) == Accrual(c, s, t);
    }
  }

  /** Some window has exactly the slack the bucket has tokens. */
  lemma {:induction false} TightWindow(c: Config, created: real, reqs: seq<Request>, t: real) returns (s: real)
    requires Ordered(created, reqs) && Latest(created, reqs) <= t
    ensures created <= s <= t
    ensures Available(c, Full(c, created), reqs, t) == Slack(c, created, reqs, s, t)
    decreases |reqs|
  {
    var b := Full(c, created);
    LatestAfterStart(created, reqs);
    if reqs == [] {
      s := t;
      RefillTokens(c, b, t);
      ElapsedAccrual(c, created, t);
    } else {
      var k := |reqs| - 1;
      AvailableStep(c, b, reqs, t);
      if Available(c, b, reqs, t) == c.burst as real && reqs[k].at < t {
        s := t;
        NoGrantsAfterLatest(c, b, reqs, t, t);
      } else {
        s := TightWindow(c, created, reqs[..k], reqs[k].at);
        GrantsInExtend(c, b, reqs[..k], s, reqs[k].at, t);
        AvailableBounded(c, b, reqs[..k], reqs[k].at);
        assert Accrual(c, s, reqs[k].at) + Accrual(c, reqs[k].at, t) == Accrual(c, s, t);
      }
    }
  }

  /** The content after refill is the minimum, over every window since creation, of what the rate still allows in it. */
  lemma ContentIsMinimumSlack(c: Config, created: real, reqs: seq<Request>, t: real)
    requires Ordered(created, reqs) && Latest(created, reqs) <= t
    ensures forall s :: created <= s <= t ==>
              Available(c, Full(c, created), reqs, t) <= Slack(c, created, reqs, s, t)
    ensures exists s :: created <= s <= t &&
              Available(c, Full(c, created), reqs, t) == Slack(c, created, reqs, s, t)
  {
    forall s | created <= s <= t
      ensures Available(c, Full(c, created), reqs, t) <= Slack(c, created, reqs, s, t)
    {
      AvailableAtMostSlack(c, created, reqs, s, t);
    }
    var s := TightWindow(c, created, reqs, t);
  }

  /** Granting `n` at `t` would exceed burst + rate * length in the window from `s`. */
  ghost predicate Overdraws(c: Config, created: real, reqs: seq<Request>, s: real, t: real, n: nat) {
    GrantsIn(c, Full(c, created), reqs, s, t) as real + n as real > c.burst as real + Accrual(c, s, t)
  }

  /** A request is refused exactly when it would overdraw some window since creation. */
  lemma ExactAdmission(c: Config, created: real, reqs: seq<Request>, t: real, n: nat)
    requires Ordered(created, reqs) && Latest(created, reqs) <= t
    ensures !Grants(c, Full(c, created), reqs, t, n) <==>
            exists s :: created <= s <= t && Overdraws(c, created, reqs, s, t, n)
  {
    ContentIsMinimumSlack(c, created, reqs, t);
    if !Grants(c, Full(c, created), reqs, t, n) {
      var s :| created <= s <= t && Available(c, Full(c, created), reqs, t) == Slack(c, created, reqs, s, t);
      assert Overdraws(c, created, reqs, s, t, n);
    }
    if s :| created <= s <= t && Overdraws(c, created, reqs, s, t, n) {
      assert Available(c, Full(c, created), reqs, t) <= Slack(c, created, reqs, s, t);
    }
  }

  /** Whatever is asked and however long the run goes on, no window is ever overdrawn. */
  lemma {:induction false} WindowBound(c: Config, created: real, reqs: seq<Request>, s: real, t: real)
    requires Ordered(created, reqs) && created <= s <= t
    ensures GrantsIn(c, Full(c, created), reqs, s, t) as real <= c.burst as real + Accrual(c, s, t)
    decreases |reqs|
  {
    if Latest(created, reqs) <= t {
      AvailableAtMostSlack(c, created, reqs, s, t);
      AvailableBounded(c, Full(c, created), reqs, t);
    } else if reqs != [] {
      WindowBound(c, created, reqs[..|reqs| - 1], s, t);
    }
  }

  lemma {:induction false} GrantsFromCreation(c: Config, created: real, reqs: seq<Request>, s: real, t: real)
    requires Ordered(created, reqs) && s <= created
    ensures GrantsIn(c, Full(c, created), reqs, s, t) == GrantsIn(c, Full(c, created), reqs, created, t)
  {
    if reqs != [] {
      GrantsFromCreation(c, created, reqs[..|reqs| - 1], s, t);
      LatestAfterStart(created, reqs);
    }
  }

  lemma {:induction false} NoGrantsBeforeCreation(c: Config, created: real, reqs: seq<Request>, s: real, t: real)
    requires Ordered(created, reqs) && (t < created || t < s)
    ensures GrantsIn(c, Full(c, created), reqs, s, t) == 0
  {
    if reqs != [] {
      NoGrantsBeforeCreation(c, created, reqs[..|reqs| - 1], s, t);
      LatestAfterStart(created, reqs);
    }
  }

  /** The window bound for windows that may begin before the limiter exists. */
  lemma AnyWindowBound(c: Config, created: real, reqs: seq<Request>, s: real, t: real)
    requires Ordered(created, reqs) && s <= t
    ensures GrantsIn(c, Full(c, created), reqs, s, t) as real <= c.burst as real + Accrual(c, s, t)
  {
    ElapsedAccrual(c, s, t);
    if t < created {
      NoGrantsBeforeCreation(c, created, reqs, s, t);
    } else if s < created {
      GrantsFromCreation(c, created, reqs, s, t);
      WindowBound(c, created, reqs, created, t);
      AccrualMonotone(c, created, s, t, t);
    } else {
      WindowBound(c, created, reqs, s, t);
    }
  }

  // ----- Where the run started does not matter to a full bucket ---------------------------

  /** Two full buckets created at different times before the first request answer every request alike. */
  lemma {:induction false} CreationTimeIrrelevant(c: Config, created: real, created': real, reqs: seq<Request>, t: real)
    requires Ordered(created, reqs) && Ordered(created', reqs)
    requires Latest(created, reqs) <= t && Latest(created', reqs) <= t
    ensures Available(c, Full(c, created), reqs, t) == Available(c, Full(c, created'), reqs, t)
    decreases |reqs|
  {
    if reqs == [] {
      RefillTokens(c, Full(c, created), t);
      RefillTokens(c, Full(c, created'), t);
      ElapsedAccrual(c, created, t);
      ElapsedAccrual(c, created', t);
    } else {
      var k := |reqs| - 1;
      CreationTimeIrrelevant(c, created, created', reqs[..k], reqs[k].at);
      AvailableStep(c, Full(c, created), reqs, t);
      AvailableStep(c, Full(c, created'), reqs, t);
    }
  }
}
