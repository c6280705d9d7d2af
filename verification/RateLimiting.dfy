/**
  Per-client rate limiting: a map of limiters filled on first use (`RateLimiter`).

  The acceptors of one rule share the map. Each admitted connection performs two separate steps, the map
  entry and the check, so a run is any interleaving of the steps of any number of connections.
  `ClientIsolation` says that what a client experiences is a bucket of its own that was full all along.
*/
module RateLimiting {
  import opened TokenBucket
  import opened Net
  import Limiter

  datatype RateLimitConfig = RateLimitConfig(enabled: bool, requestsPerSecond: nat, burst: nat)

  function AtLeast1(n: nat): nat {
    if n < 1 then 1 else n
  }

  /** The limiter configuration every client gets. */
  function ClientConfig(c: RateLimitConfig): Config {
    Config(AtLeast1(c.requestsPerSecond), AtLeast1(c.burst))
  }

  // ----- Runs of steps ------------------------------------------------------------------

  /** A step of some acceptor: an ACL refusal, a map entry, or a check of one token. */
  datatype Step =
    | Denied(ip: IpAddr, at: real)
    | Entered(ip: IpAddr, at: real)
    | Checked(ip: IpAddr, at: real)

  type Buckets = map<IpAddr, Bucket>

  function Do(c: Config, m: Buckets, e: Step): Buckets {
    match e
    case Denied(_, _) => m
    case Entered(ip, at) => if ip in m then m else m[ip := Full(c, at)]
    case Checked(ip, at) => if ip in m then m[ip := Acquire(c, m[ip], at, 1).0] else m
  }

  function DoAll(c: Config, steps: seq<Step>): Buckets {
    if steps == [] then map[] else Do(c, DoAll(c, steps[..|steps| - 1]), steps[|steps| - 1])
  }

  /** The answer to a check made after the steps. */
  predicate Admits(c: Config, steps: seq<Step>, ip: IpAddr, at: real)
    requires ip in DoAll(c, steps)
  {
    Acquire(c, DoAll(c, steps)[ip], at, 1).1
  }

  function Clock(start: real, steps: seq<Step>): real {
    if steps == [] then start else steps[|steps| - 1].at
  }

  /** Steps follow the clock, and a connection checks only after its own map entry. */
  predicate WellFormed(c: Config, start: real, steps: seq<Step>) {
    steps == [] ||
    var past, e := steps[..|steps| - 1], steps[|steps| - 1];
    && WellFormed(c, start, past)
    && Clock(start, past) <= e.at
    && (e.Checked? ==> e.ip in DoAll(c, past))
  }

  /** The checks of one client, and nothing else. */
  function Mine(steps: seq<Step>, ip: IpAddr): seq<Request> {
    if steps == [] then
      []
    else
      var e := steps[|steps| - 1];
      Mine(steps[..|steps| - 1], ip) + if e.Checked? && e.ip == ip then [Request(e.at, 1)] else []
  }

  /** One more step. */
  lemma StepSnoc(c: Config, start: real, past: seq<Step>, e: Step)
    ensures DoAll(c, past + [e]) == Do(c, DoAll(c, past), e) && Clock(start, past + [e]) == e.at
    ensures WellFormed(c, start, past) && Clock(start, past) <= e.at && (e.Checked? ==> e.ip in DoAll(c, past)) ==>
              WellFormed(c, start, past + [e])
    ensures forall ip ::
              Mine(past + [e], ip) == Mine(past, ip) + if e == Checked(ip, e.at) then [Request(e.at, 1)] else []
  {
    assert (past + [e])[..|past + [e]| - 1] == past;
  }

  /** A client's bucket is a full one run on its own checks only. */
  ghost predicate OwnBucket(c: Config, start: real, steps: seq<Step>, ip: IpAddr, created: real) {
    && start <= created <= Clock(start, steps)
    && Ordered(created, Mine(steps, ip))
    && Latest(created, Mine(steps, ip)) <= Clock(start, steps)
    && ip in DoAll(c, steps)
    && DoAll(c, steps)[ip] == Run(c, Full(c, created), Mine(steps, ip))
  }

  lemma {:induction false} EachHasOwnBucket(c: Config, start: real, steps: seq<Step>, ip: IpAddr)
    returns (created: real)
    requires WellFormed(c, start, steps)
    ensures if ip in DoAll(c, steps) then OwnBucket(c, start, steps, ip, created) else Mine(steps, ip) == []
    ensures start <= Clock(start, steps)
    decreases |steps|
  {
    if steps == [] {
      created := start;
    } else {
      var past, e := steps[..|steps| - 1], steps[|steps| - 1];
      created := EachHasOwnBucket(c, start, past, ip);
      if ip !in DoAll(c, past) && e == Entered(ip, e.at) {
        created := e.at;
      }
      if e == Checked(ip, e.at) {
        assert Mine(steps, ip)[..|Mine(steps, ip)| - 1] == Mine(past, ip);
      } else {
        assert Mine(steps, ip) == Mine(past, ip);
      }
    }
  }

  lemma {:induction false} StillOrdered(start: real, created: real, reqs: seq<Request>)
    requires start <= created && Ordered(created, reqs)
    ensures Ordered(start, reqs)
  {
    if reqs != [] {
      StillOrdered(start, created, reqs[..|reqs| - 1]);
    }
  }

  /** What the limiter owes a client after the steps: the answer of a bucket of its own, full from the start. */
  predicate Entitled(c: Config, start: real, steps: seq<Step>, ip: IpAddr, at: real) {
    Grants(c, Full(c, start), Mine(steps, ip), at, 1)
  }

  /**
    Whatever the other clients do and however the steps interleave, a check is answered as by a single
    bucket that was full at the start of time and saw only this client's checks.
  */
  lemma ClientIsolation(c: Config, start: real, steps: seq<Step>, ip: IpAddr, at: real)
    requires WellFormed(c, start, steps) && ip in DoAll(c, steps) && Clock(start, steps) <= at
    ensures Admits(c, steps, ip, at) <==> Entitled(c, start, steps, ip, at)
  {
    var created := EachHasOwnBucket(c, start, steps, ip);
    StillOrdered(start, created, Mine(steps, ip));
    CreationTimeIrrelevant(c, created, start, Mine(steps, ip), at);
  }

  // ----- In the configured numbers ------------------------------------------------------

  /** `k` checks at one instant. */
  function Same(at: real, k: nat): (reqs: seq<Request>)
    ensures |reqs| == k
  {
    if k == 0 then [] else Same(at, k - 1) + [Request(at, 1)]
  }

  lemma {:induction false} SameOrdered(start: real, at: real, k: nat)
    requires start <= at
    ensures Ordered(start, Same(at, k)) && Latest(start, Same(at, k)) <= at
  {
    if k > 0 {
      SameOrdered(start, at, k - 1);
      assert Same(at, k)[..k - 1] == Same(at, k - 1);
    }
  }

  lemma NoTimeNoTokens(c: Config, at: real)
    ensures Accrual(c, at, at) == 0.0
  {
    assert at - at == 0.0;
  }

  /** Checks at one instant take one token each while there are any. */
  lemma {:induction false} AfterSame(c: Config, start: real, at: real, k: nat, t: real)
    requires start <= at <= t && k > 0
    ensures Available(c, Full(c, start), Same(at, k), t)
         == Min((if k < c.burst then c.burst - k else 0) as real + Accrual(c, at, t), c.burst as real)
  {
    SameOrdered(start, at, k);
    var past := Same(at, k - 1);
    assert Same(at, k)[..k - 1] == past;
    if k == 1 {
      RefillTokens(c, Full(c, start), at);
      ElapsedAccrual(c, start, at);
    } else {
      AfterSame(c, start, at, k - 1, at);
      NoTimeNoTokens(c, at);
    }
    AvailableStep(c, Full(c, start), Same(at, k), t);
  }

  lemma OneTokenTime(c: Config, at: real, t: real)
    requires c.rate > 0
    ensures 1.0 <= Accrual(c, at, t) <==> at + 1.0 / c.rate as real <= t
  {
    var rate, gap := c.rate as real, t - at;
    assert (1.0 / rate) * rate == 1.0;
    assert (gap - 1.0 / rate) * rate == gap * rate - 1.0;
  }

  /**
    What a client that sends `k` connections at one instant may expect, whatever other clients do: the first `burst` of
    them pass and no more, and from then on the next passes exactly one token's time, `1 / requestsPerSecond`, later. A
    configured zero counts as one.
  */
  lemma BurstThenRate(config: RateLimitConfig, start: real, steps: seq<Step>, ip: IpAddr, at: real, k: nat, t: real)
    requires Mine(steps, ip) == Same(at, k) && start <= at <= t
    ensures var burst := if config.burst == 0 then 1 else config.burst;
            var rate := if config.requestsPerSecond == 0 then 1 else config.requestsPerSecond;
            && (t == at ==> (Entitled(ClientConfig(config), start, steps, ip, t) <==> k < burst))
            && (k >= burst ==>
                  (Entitled(ClientConfig(config), start, steps, ip, t) <==> at + 1.0 / rate as real <= t))
  {
    var c := ClientConfig(config);
    if k == 0 {
      RefillTokens(c, Full(c, start), t);
      ElapsedAccrual(c, start, t);
    } else {
      AfterSame(c, start, at, k, t);
      NoTimeNoTokens(c, at);
      OneTokenTime(c, at, t);
    }
  }

  // ----- The object ---------------------------------------------------------------------

  class RateLimiter {
    const config: RateLimitConfig
    var limiters: map<IpAddr, Limiter.SimpleLimiter>

    ghost predicate Valid()
      reads this, limiters.Values
    {
      && (forall ip <- limiters :: limiters[ip].Cfg() == ClientConfig(config))
      && (forall ip <- limiters, ip' <- limiters :: ip != ip' ==> limiters[ip] != limiters[ip'])
    }

    ghost function View(): Buckets
      reads this, limiters.Values
    {
      map ip <- limiters :: limiters[ip].State()
    }

    constructor (config: RateLimitConfig)
      ensures this.config == config && Valid() && View() == map[]
    {
      this.config := config;
      this.limiters := map[];
    }

    /** The map entry: a full limiter for a client not seen before. */
    method Enter(ip: IpAddr, entered: real) returns (limiter: Limiter.SimpleLimiter)
      requires Valid()
      modifies this
      ensures Valid() && fresh(limiters.Values - old(limiters.Values))
      ensures ip in limiters && limiter == limiters[ip]
      ensures View() == Do(ClientConfig(config), old(View()), Entered(ip, entered))
    {
      if ip !in limiters {
        var fullOne := new Limiter.SimpleLimiter(
          AtLeast1(config.requestsPerSecond), AtLeast1(config.burst), entered);
        limiters := limiters[ip := fullOne];
      }
      limiter := limiters[ip];
    }

    /** One connection: the map entry at `entered`, then the check at `now`. */
    method Check(ip: IpAddr, entered: real, now: real) returns (ok: bool)
      requires Valid()
      modifies this, limiters.Values
      ensures Valid() && fresh(limiters.Values - old(limiters.Values))
      ensures !config.enabled ==> ok && View() == old(View())
      ensures config.enabled ==>
                var c := ClientConfig(config);
                var m := Do(c, old(View()), Entered(ip, entered));
                View() == Do(c, m, Checked(ip, now)) && ok == Acquire(c, m[ip], now, 1).1
    {
      if !config.enabled {
        return true;
      }
      var limiter := Enter(ip, entered);
      ghost var middle := View();
      ok := limiter.CheckN(1, now);
      assert View() == Do(ClientConfig(config), middle, Checked(ip, now));
    }
  }
}
