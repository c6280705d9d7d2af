/**
  The Generic Cell Rate Algorithm in its virtual-scheduling form, and the proof that it and the
  token bucket take the same decision on every request of every run.
*/
module Gcra {
  import opened TokenBucket

  function Max(x: real, y: real): real {
    if x >= y then x else y
  }

  /** The emission interval: the time one token is worth. */
  function Interval(c: Config): (r: real)
    requires c.rate > 0
    ensures r * c.rate as real == 1.0
  {
    1.0 / c.rate as real
  }

  /** One arrival of `n` cells at `now`: the new theoretical arrival time, and whether the cells conform. */
  function Arrive(c: Config, tat: real, now: real, n: nat): (r: (real, bool))
    requires c.rate > 0
  {
    var next := Max(tat, now) + n as real * Interval(c);
    if next <= now + c.burst as real * Interval(c) then (next, true) else (tat, false)
  }

  /** The theoretical arrival time after a run that starts idle at `created`. */
  function ArrivalTime(c: Config, created: real, reqs: seq<Request>): real
    requires c.rate > 0
  {
    if reqs == [] then
      created
    else
      var q := reqs[|reqs| - 1];
      Arrive(c, ArrivalTime(c, created, reqs[..|reqs| - 1]), q.at, q.n).0
  }

  /** The theoretical arrival time a bucket stands for: when it would be full again. */
  function FullAt(c: Config, b: Bucket): real
    requires c.rate > 0
  {
    b.lastUpdate + (c.burst as real - b.tokens) * Interval(c)
  }

  /** The two states agree about every instant from the bucket's last update on. */
  ghost predicate Agree(c: Config, b: Bucket, tat: real)
    requires c.rate > 0
  {
    Bounded(c, b) && Max(tat, b.lastUpdate) == FullAt(c, b)
  }

  /** Multiplying by the interval and by the rate are inverse and monotone. */
  lemma Scale(c: Config, x: real, y: real)
    requires c.rate > 0
    ensures x * Interval(c) <= y <==> x <= y * c.rate as real
  {
    var i, r := Interval(c), c.rate as real;
    assert i > 0.0;
    if x * i <= y {
      assert (y - x * i) * r >= 0.0;
      assert (x * i) * r == x * (i * r);
    }
    if x <= y * r {
      assert (y * r - x) * i >= 0.0;
      assert (y * r) * i == y * (r * i);
    }
  }

  /** Refilling does not move the theoretical arrival time, except that it is never in the past. */
  lemma RefillKeepsFullAt(c: Config, b: Bucket, now: real)
    requires c.rate > 0 && Bounded(c, b) && b.lastUpdate <= now
    ensures FullAt(c, Refill(c, b, now)) == Max(FullAt(c, b), now)
  {
    RefillTokens(c, b, now);
    var missing, gap := c.burst as real - b.tokens, now - b.lastUpdate;
    Scale(c, missing, gap);
    assert Accrual(c, b.lastUpdate, now) == gap * c.rate as real;
    assert (gap * c.rate as real) * Interval(c) == gap * (c.rate as real * Interval(c));
    if gap * c.rate as real < missing {
      assert (missing - gap * c.rate as real) * Interval(c)
          == missing * Interval(c) - (gap * c.rate as real) * Interval(c);
    }
  }

  /**
    In time units, using `n` tokens of a bucket moves its full instant by `n` intervals, and fits if the tokens are
    there.
  */
  lemma UseInIntervals(c: Config, f: Bucket, n: nat)
    requires c.rate > 0
    ensures FullAt(c, f.(tokens := f.tokens - n as real)) == FullAt(c, f) + n as real * Interval(c)
    ensures FullAt(c, f) + n as real * Interval(c) <= f.lastUpdate + c.burst as real * Interval(c)
       <==> n as real <= f.tokens
  {
    var i := Interval(c);
    assert (c.burst as real - (f.tokens - n as real)) * i == (c.burst as real - f.tokens) * i + n as real * i;
    assert (c.burst as real - f.tokens) * i + n as real * i - c.burst as real * i == (n as real - f.tokens) * i;
    Scale(c, n as real - f.tokens, 0.0);
  }

  /** On a bucket just refilled. */
  lemma AgreeUse(c: Config, f: Bucket, tat: real, n: nat)
    requires c.rate > 0 && Agree(c, f, tat)
    ensures var r := Arrive(c, tat, f.lastUpdate, n);
            && (f.tokens >= n as real <==> r.1)
            && Agree(c, if r.1 then f.(tokens := f.tokens - n as real) else f, r.0)
  {
    UseInIntervals(c, f, n);
    if f.tokens >= n as real { FullNotInPast(c, f.(tokens := f.tokens - n as real)); }
  }

  lemma AgreeStep(c: Config, b: Bucket, tat: real, now: real, n: nat)
    requires c.rate > 0 && Agree(c, b, tat) && b.lastUpdate <= now
    ensures Acquire(c, b, now, n).1 == Arrive(c, tat, now, n).1
    ensures Agree(c, Acquire(c, b, now, n).0, Arrive(c, tat, now, n).0)
  {
    RefillTokens(c, b, now);
    RefillKeepsFullAt(c, b, now);
    var f := Refill(c, b, now);
    assert Max(tat, now) == FullAt(c, f);
    AgreeUse(c, f, tat, n);
  }

  lemma FullNotInPast(c: Config, b: Bucket)
    requires c.rate > 0 && b.tokens <= c.burst as real
    ensures b.lastUpdate <= FullAt(c, b)
  {
    Scale(c, b.tokens - c.burst as real, 0.0);
    assert (c.burst as real - b.tokens) * Interval(c) == -((b.tokens - c.burst as real) * Interval(c));
  }

  lemma {:induction false} AgreeThroughout(c: Config, created: real, reqs: seq<Request>)
    requires c.rate > 0 && Ordered(created, reqs)
    ensures Agree(c, Run(c, Full(c, created), reqs), ArrivalTime(c, created, reqs))
  {
    if reqs != [] {
      var past, q := reqs[..|reqs| - 1], reqs[|reqs| - 1];
      AgreeThroughout(c, created, past);
      RunBounded(c, Full(c, created), past);
      AgreeStep(c, Run(c, Full(c, created), past), ArrivalTime(c, created, past), q.at, q.n);
    }
  }

  /** After every run, the bucket grants a request exactly when its cells conform. */
  lemma BucketIsGcra(c: Config, created: real, reqs: seq<Request>, t: real, n: nat)
    requires c.rate > 0 && Ordered(created, reqs) && Latest(created, reqs) <= t
    ensures Grants(c, Full(c, created), reqs, t, n) <==> Arrive(c, ArrivalTime(c, created, reqs), t, n).1
  {
    AgreeThroughout(c, created, reqs);
    RunBounded(c, Full(c, created), reqs);
    AgreeStep(c, Run(c, Full(c, created), reqs), ArrivalTime(c, created, reqs), t, n);
  }

  /** At every instant after the run, the arrival time, if not already past, is when the bucket will be full. */
  lemma ArrivalTimeIsFullInstant(c: Config, created: real, reqs: seq<Request>, t: real)
    requires c.rate > 0 && Ordered(created, reqs) && Latest(created, reqs) <= t
    ensures FullAt(c, Refill(c, Run(c, Full(c, created), reqs), t)) == Max(ArrivalTime(c, created, reqs), t)
  {
    AgreeThroughout(c, created, reqs);
    RunBounded(c, Full(c, created), reqs);
    RefillKeepsFullAt(c, Run(c, Full(c, created), reqs), t);
  }
}
