/**
  Waiting acquisition (`until_n_ready`) against a bucket that other callers use meanwhile.

  A sleep may end late but never early. Other callers' requests, granted or refused, happen during the
  sleeps. The theorems say that the computed wait is exact, that every failed retry is paid for by tokens
  granted to somebody else, and that a request above the burst never returns.
*/
module Waiting {
  import opened Options
  import opened TokenBucket

  /** One sleep of the waiter: what others ask meanwhile, and when the waiter is back. */
  datatype Sleep = Sleep(others: seq<Request>, wake: real)

  /** The sleep computed after a refused attempt that left bucket `b`. */
  function WaitFor(c: Config, b: Bucket, n: nat): real
    requires c.rate > 0
  {
    (n as real - b.tokens) / c.rate as real
  }

  /** Attempts at `now` and after each sleep: the final bucket, and how many sleeps it took to succeed. */
  function UntilReady(c: Config, b: Bucket, now: real, n: nat, sleeps: seq<Sleep>): (Bucket, Option<nat>)
    decreases |sleeps|
  {
    var (b', ok) := Acquire(c, b, now, n);
    if ok then
      (b', Some(0))
    else if sleeps == [] then
      (b', None)
    else
      var (b'', r) := UntilReady(c, Run(c, b', sleeps[0].others), sleeps[0].wake, n, sleeps[1..]);
      (b'', if r.Some? then Some(r.value + 1) else None)
  }

  /** The clock runs forwards through the sleeps, and none ends before the computed instant. */
  ghost predicate Timely(c: Config, b: Bucket, now: real, n: nat, sleeps: seq<Sleep>)
    requires c.rate > 0
    decreases |sleeps|
  {
    var (b', ok) := Acquire(c, b, now, n);
    !ok && sleeps != [] ==>
      var z := sleeps[0];
      && Ordered(now, z.others) && Latest(now, z.others) <= z.wake
      && now + WaitFor(c, b', n) <= z.wake
      && Timely(c, Run(c, b', z.others), z.wake, n, sleeps[1..])
  }

  /** The tokens granted to others while the waiter slept. */
  function GrantedToOthers(c: Config, b: Bucket, now: real, n: nat, sleeps: seq<Sleep>): nat
    decreases |sleeps|
  {
    var (b', ok) := Acquire(c, b, now, n);
    if ok || sleeps == [] then
      0
    else
      var z := sleeps[0];
      Granted(c, b', z.others) + GrantedToOthers(c, Run(c, b', z.others), z.wake, n, sleeps[1..])
  }

  /** Everything the bucket is asked during a wait, by the waiter and by others, in order. */
  function Requests(c: Config, b: Bucket, now: real, n: nat, sleeps: seq<Sleep>): seq<Request>
    decreases |sleeps|
  {
    var (b', ok) := Acquire(c, b, now, n);
    [Request(now, n)] +
    if ok || sleeps == [] then []
    else sleeps[0].others + Requests(c, Run(c, b', sleeps[0].others), sleeps[0].wake, n, sleeps[1..])
  }

  lemma RunOfOne(c: Config, b: Bucket, q: Request)
    ensures Run(c, b, [q]) == Acquire(c, b, q.at, q.n).0
  {
    assert [q][..0] == [];
    assert Run(c, b, [q][..0]) == b;
  }

  /** A refused request, some others, and then the rest of the wait. */
  lemma RunThrough(c: Config, b: Bucket, q: Request, others: seq<Request>, rest: seq<Request>)
    ensures Run(c, b, [q] + (others + rest)) == Run(c, Run(c, Acquire(c, b, q.at, q.n).0, others), rest)
  {
    RunOfOne(c, b, q);
    RunOn(c, b, [q], others + rest);
    RunOn(c, Run(c, b, [q]), others, rest);
  }

  /**
    A wait is nothing but a run of ordinary requests, so everything proved of runs holds of it: the bucket ends as that
    run leaves it, and the waiter is served exactly if the run's last request, its own, is granted.
  */
  lemma {:induction false} WaitIsARun(c: Config, b: Bucket, now: real, n: nat, sleeps: seq<Sleep>)
    ensures var reqs := Requests(c, b, now, n, sleeps);
            var u := UntilReady(c, b, now, n, sleeps);
            && reqs != [] && u.0 == Run(c, b, reqs)
            && reqs[|reqs| - 1].n == n
            && (u.1.Some? <==> Grants(c, b, reqs[..|reqs| - 1], reqs[|reqs| - 1].at, n))
    decreases |sleeps|
  {
    var q, reqs := Request(now, n), Requests(c, b, now, n, sleeps);
    if Acquire(c, b, now, n).1 || sleeps == [] {
      RunOfOne(c, b, q);
      assert reqs == [q] && reqs[..|reqs| - 1] == [];
    } else {
      var z, b' := sleeps[0], Run(c, Acquire(c, b, now, n).0, sleeps[0].others);
      var rest := Requests(c, b', z.wake, n, sleeps[1..]);
      WaitIsARun(c, b', z.wake, n, sleeps[1..]);
      RunThrough(c, b, q, z.others, rest);
      RunThrough(c, b, q, z.others, rest[..|rest| - 1]);
      assert reqs == [q] + (z.others + rest);
      assert reqs[..|reqs| - 1] == [q] + (z.others + rest[..|rest| - 1]);
    }
  }

  /**
    Others can only take away what they are granted: the content after their requests is between what
    it would have been without them and that less their grants.
  */
  lemma {:induction false} OthersTakeTheirGrants(c: Config, b: Bucket, others: seq<Request>, t: real)
    requires Bounded(c, b) && Ordered(b.lastUpdate, others) && Latest(b.lastUpdate, others) <= t
    ensures Refill(c, b, t).tokens - Granted(c, b, others) as real
         <= Available(c, b, others, t)
         <= Refill(c, b, t).tokens
    decreases |others|
  {
    if others != [] {
      var k := |others| - 1;
      var s := others[k].at;
      OthersTakeTheirGrants(c, b, others[..k], s);
      AvailableStep(c, b, others, t);
      LatestAfterStart(b.lastUpdate, others);
      RefillLater(c, b, s, t);
    }
  }

  /** The state after a refused attempt, and the content it grows to without competition. */
  lemma AfterRefusal(c: Config, b: Bucket, now: real, n: nat, t: real)
    requires c.rate > 0 && Bounded(c, b) && b.lastUpdate <= now <= t && !Acquire(c, b, now, n).1
    ensures var b' := Acquire(c, b, now, n).0;
            && Bounded(c, b') && b'.lastUpdate == now && b'.tokens < n as real
            && Refill(c, b', t).tokens == Min(b'.tokens + Accrual(c, now, t), c.burst as real)
  {
    RefillTokens(c, b, now);
    RefillTokens(c, Acquire(c, b, now, n).0, t);
  }

  lemma WaitAccrues(c: Config, b: Bucket, n: nat, now: real, t: real)
    requires c.rate > 0
    ensures now + WaitFor(c, b, n) <= t <==> n as real - b.tokens <= Accrual(c, now, t)
  {
    var missing, r := n as real - b.tokens, c.rate as real;
    assert WaitFor(c, b, n) * r == missing;
    if now + WaitFor(c, b, n) <= t {
      assert (t - now - WaitFor(c, b, n)) * r >= 0.0;
    } else {
      assert (t - now - WaitFor(c, b, n)) * r < 0.0;
    }
    assert (t - now - WaitFor(c, b, n)) * r == Accrual(c, now, t) - missing;
  }

  /** Whatever others do, a retry before the computed instant is refused. */
  lemma NoEarlySuccess(c: Config, b: Bucket, now: real, n: nat, others: seq<Request>, t: real)
    requires c.rate > 0 && Bounded(c, b) && b.lastUpdate <= now && !Acquire(c, b, now, n).1
    requires Ordered(now, others) && Latest(now, others) <= t < now + WaitFor(c, Acquire(c, b, now, n).0, n)
    ensures !Grants(c, Acquire(c, b, now, n).0, others, t, n)
  {
    var b' := Acquire(c, b, now, n).0;
    LatestAfterStart(now, others);
    AfterRefusal(c, b, now, n, t);
    OthersTakeTheirGrants(c, b', others, t);
    WaitAccrues(c, b', n, now, t);
  }

  /** A retry at or after the computed instant that is refused was beaten by tokens granted to others. */
  lemma LateFailureIsPaidFor(c: Config, b: Bucket, now: real, n: nat, others: seq<Request>, t: real)
    requires c.rate > 0 && n <= c.burst && Bounded(c, b) && b.lastUpdate <= now && !Acquire(c, b, now, n).1
    requires Ordered(now, others) && Latest(now, others) <= t
    requires now + WaitFor(c, Acquire(c, b, now, n).0, n) <= t
    ensures Grants(c, Acquire(c, b, now, n).0, others, t, n) || Granted(c, Acquire(c, b, now, n).0, others) >= 1
  {
    var b' := Acquire(c, b, now, n).0;
    LatestAfterStart(now, others);
    AfterRefusal(c, b, now, n, t);
    OthersTakeTheirGrants(c, b', others, t);
    WaitAccrues(c, b', n, now, t);
  }

  /** Without competition the computed instant is exactly when the request becomes grantable. */
  lemma WaitIsExact(c: Config, b: Bucket, now: real, n: nat, t: real)
    requires c.rate > 0 && n <= c.burst && Bounded(c, b) && b.lastUpdate <= now <= t && !Acquire(c, b, now, n).1
    ensures Grants(c, Acquire(c, b, now, n).0, [], t, n)
       <==> now + WaitFor(c, Acquire(c, b, now, n).0, n) <= t
  {
    if now + WaitFor(c, Acquire(c, b, now, n).0, n) <= t {
      LateFailureIsPaidFor(c, b, now, n, [], t);
    } else {
      NoEarlySuccess(c, b, now, n, [], t);
    }
  }

  lemma NextAttempt(c: Config, b: Bucket, now: real, n: nat, z: Sleep)
    requires c.rate > 0 && Bounded(c, b) && b.lastUpdate <= now && !Acquire(c, b, now, n).1
    requires Ordered(now, z.others) && Latest(now, z.others) <= z.wake
    ensures var b' := Run(c, Acquire(c, b, now, n).0, z.others);
            Bounded(c, b') && b'.lastUpdate <= z.wake
  {
    AfterRefusal(c, b, now, n, now);
    RunBounded(c, Acquire(c, b, now, n).0, z.others);
  }

  /** Failed retries are bounded by the tokens granted to others: the limiter as a whole always makes progress. */
  lemma {:induction false} RetriesBoundedByCompetition(c: Config, b: Bucket, now: real, n: nat, sleeps: seq<Sleep>)
    requires c.rate > 0 && n <= c.burst && Bounded(c, b) && b.lastUpdate <= now && Timely(c, b, now, n, sleeps)
    ensures var r := UntilReady(c, b, now, n, sleeps).1;
            var retries := if r.None? then |sleeps| else r.value - 1;
            retries <= GrantedToOthers(c, b, now, n, sleeps)
    decreases |sleeps|
  {
    var (b', ok) := Acquire(c, b, now, n);
    if !ok && sleeps != [] {
      var z := sleeps[0];
      NextAttempt(c, b, now, n, z);
      RetriesBoundedByCompetition(c, Run(c, b', z.others), z.wake, n, sleeps[1..]);
      LateFailureIsPaidFor(c, b, now, n, z.others, z.wake);
    }
  }

  /** A request above the burst waits through every run. */
  lemma {:induction false} AboveBurstNeverReturns(c: Config, b: Bucket, now: real, n: nat, sleeps: seq<Sleep>)
    requires c.rate > 0 && n > c.burst && Bounded(c, b) && b.lastUpdate <= now && Timely(c, b, now, n, sleeps)
    ensures UntilReady(c, b, now, n, sleeps).1.None?
    decreases |sleeps|
  {
    RefillTokens(c, b, now);
    if sleeps != [] {
      NextAttempt(c, b, now, n, sleeps[0]);
      AboveBurstNeverReturns(c, Run(c, Acquire(c, b, now, n).0, sleeps[0].others), sleeps[0].wake, n, sleeps[1..]);
    }
  }
}
