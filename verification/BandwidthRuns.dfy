/**
  Any number of stream directions sharing one bucket, their attempts interleaved in any order: where every token goes,
  and how many bytes get through in any window of time.
*/
module BandwidthRuns {
  import opened Options
  import opened TokenBucket
  import opened Waiting
  import opened Bandwidth
  import opened BandwidthLedger
  import LimiterRegistry

  /** An attempt by one direction of one stream; the transfer, if it gets that far, happens at instant `io`. */
  datatype Event = Event(port: nat, a: Attempt, io: real)

  datatype System = System(bucket: Bucket, permits: map<nat, Permit>)

  function PermitOf(s: System, port: nat): Option<Permit> {
    if port in s.permits then Some(s.permits[port]) else None
  }

  function SetPermit(m: map<nat, Permit>, port: nat, p: Option<Permit>): map<nat, Permit> {
    if p.Some? then m[port := p.value] else m - {port}
  }

  /** The bucket and the pending permits after a run from a new limiter. */
  function Play(c: Config, created: real, es: seq<Event>): System
    requires c.rate > 0
  {
    if es == [] then
      System(Full(c, created), map[])
    else
      var s, e := Play(c, created, es[..|es| - 1]), es[|es| - 1];
      var r := Step(c, s.bucket, PermitOf(s, e.port), e.a);
      System(r.bucket, SetPermit(s.permits, e.port, r.permit))
  }

  /** What the last event of a run came to. */
  function LastOutcome(c: Config, created: real, es: seq<Event>): Outcome
    requires c.rate > 0 && es != []
  {
    var s, e := Play(c, created, es[..|es| - 1]), es[|es| - 1];
    Step(c, s.bucket, PermitOf(s, e.port), e.a).outcome
  }

  /** The request the last event made to the bucket, if any. */
  function LastAsk(c: Config, created: real, es: seq<Event>): Option<nat>
    requires c.rate > 0 && es != []
  {
    var e := es[|es| - 1];
    Asks(PermitOf(Play(c, created, es[..|es| - 1]), e.port), e.a)
  }

  /** All requests made to the bucket, in order. */
  function Asked(c: Config, created: real, es: seq<Event>): seq<Request>
    requires c.rate > 0
  {
    if es == [] then
      []
    else
      Asked(c, created, es[..|es| - 1]) +
      match LastAsk(c, created, es)
      case None => []
      case Some(n) => [Request(es[|es| - 1].a.at, n)]
  }

  ghost predicate AllHonest(es: seq<Event>) {
    forall i :: 0 <= i < |es| ==> Honest(es[i].a)
  }

  /** Inner streams are honest, and the bucket's clock does not run backwards. */
  ghost predicate WellTimed(c: Config, created: real, es: seq<Event>)
    requires c.rate > 0
  {
    Ordered(created, Asked(c, created, es)) && AllHonest(es)
  }

  // ----- The bucket sees exactly the requests -------------------------------------------

  lemma {:induction false} BucketSeesRequests(c: Config, created: real, es: seq<Event>)
    requires c.rate > 0
    ensures Play(c, created, es).bucket == Run(c, Full(c, created), Asked(c, created, es))
  {
    if es != [] {
      BucketSeesRequests(c, created, es[..|es| - 1]);
      if LastAsk(c, created, es).Some? {
        var reqs := Asked(c, created, es);
        assert reqs[..|reqs| - 1] == Asked(c, created, es[..|es| - 1]);
      } else {
        assert Asked(c, created, es) == Asked(c, created, es[..|es| - 1]);
      }
    }
  }

  lemma PlaySnoc(c: Config, created: real, es: seq<Event>, e: Event)
    requires c.rate > 0
    ensures var s := Play(c, created, es);
            var r := Step(c, s.bucket, PermitOf(s, e.port), e.a);
            && Play(c, created, es + [e]) == System(r.bucket, SetPermit(s.permits, e.port, r.permit))
            && LastOutcome(c, created, es + [e]) == r.outcome
  {
    assert (es + [e])[..|es + [e]| - 1] == es;
  }

  /** A poll call is one attempt of its direction, or two when it starts a payment. */
  lemma PollIsOneOrTwoEvents(c: Config, created: real, es: seq<Event>, port: nat, a: Attempt, again: real, io: real)
    returns (more: seq<Event>)
    requires c.rate > 0
    ensures 1 <= |more| <= 2
    ensures forall i :: 0 <= i < |more| ==> more[i].port == port && more[i].a.remaining == a.remaining
    ensures var s, s' := Play(c, created, es), Play(c, created, es + more);
            var r := PollOnce(c, s.bucket, PermitOf(s, port), a, again);
            && s'.bucket == r.bucket && PermitOf(s', port) == r.permit
            && LastOutcome(c, created, es + more) == r.outcome
            && forall other: nat :: other != port ==> PermitOf(s', other) == PermitOf(s, other)
  {
    var s := Play(c, created, es);
    var r, first := Step(c, s.bucket, PermitOf(s, port), a), Event(port, a, io);
    PlaySnoc(c, created, es, first);
    if r.permit.Some? && r.permit.value.sleepUntil.None? {
      var second := Event(port, a.(at := again), io);
      PlaySnoc(c, created, es + [first], second);
      more := [first, second];
      assert es + more == es + [first] + [second];
    } else {
      more := [first];
    }
  }

  /** A charge is exactly a grant of the bucket, at the instant of the attempt. */
  lemma ChargeIsGrant(c: Config, created: real, es: seq<Event>)
    requires c.rate > 0 && es != []
    ensures var past, reqs := Asked(c, created, es[..|es| - 1]), Asked(c, created, es);
            if reqs == past then
              Paid(LastOutcome(c, created, es)) == 0
            else
              && |reqs| == |past| + 1 && reqs[..|past|] == past
              && reqs[|past|].at == es[|es| - 1].a.at
              && Paid(LastOutcome(c, created, es)) == Charge(c, Full(c, created), reqs, |past|)
  {
    BucketSeesRequests(c, created, es[..|es| - 1]);
    var past, reqs := Asked(c, created, es[..|es| - 1]), Asked(c, created, es);
    if LastAsk(c, created, es).Some? {
      assert reqs[..|past|] == past;
    }
  }

  // ----- Permit sizes -------------------------------------------------------------------

  /** Every pending payment is for at least one byte and at most one chunk. */
  lemma {:induction false} PermitsAreChunks(c: Config, created: real, es: seq<Event>)
    requires c.rate > 0
    ensures forall port <- Play(c, created, es).permits :: 1 <= Play(c, created, es).permits[port].n <= CHUNK
  {
    if es != [] {
      PermitsAreChunks(c, created, es[..|es| - 1]);
    }
  }

  /** So every request to a bandwidth limiter is within its burst, and a wait for it is never hopeless. */
  lemma {:induction false} RequestsWithinBurst(rate: nat, created: real, es: seq<Event>)
    ensures var c := LimiterRegistry.RegistryConfig(rate);
            && c.rate > 0
            && forall i :: 0 <= i < |Asked(c, created, es)| ==> 1 <= Asked(c, created, es)[i].n <= CHUNK <= c.burst
  {
    var c := LimiterRegistry.RegistryConfig(rate);
    if es != [] {
      RequestsWithinBurst(rate, created, es[..|es| - 1]);
      PermitsAreChunks(c, created, es[..|es| - 1]);
    }
  }

  // ----- Sleeping -----------------------------------------------------------------------

  /** The instant a refused payment sleeps until is exactly the first at which, left alone, it would succeed. */
  lemma SleepIsExact(c: Config, b: Bucket, p: Permit, a: Attempt, t: real)
    requires c.rate > 0 && p.n <= c.burst && Bounded(c, b) && b.lastUpdate <= a.at <= t
    requires Asks(Some(p), a).Some? && !Acquire(c, b, a.at, p.n).1
    ensures var r := Step(c, b, Some(p), a);
            && r.permit.Some? && r.permit.value.n == p.n && r.permit.value.sleepUntil.Some?
            && (Acquire(c, r.bucket, t, p.n).1 <==> r.permit.value.sleepUntil.value <= t)
  {
    WaitIsExact(c, b, a.at, p.n, t);
  }

  lemma RequestsOnlyTake(c: Config, b: Bucket, s: real, m: nat, t: real)
    requires Bounded(c, b) && b.lastUpdate <= s <= t
    ensures Refill(c, Acquire(c, b, s, m).0, t).tokens <= Refill(c, b, t).tokens
  {
    AcquireThenRefill(c, b, s, m, t);
    RefillLater(c, b, s, t);
  }

  lemma EarlyIsShort(c: Config, b: Bucket, n: nat, now: real, t: real)
    requires c.rate > 0 && Bounded(c, b) && b.lastUpdate <= now <= t && !Acquire(c, b, now, n).1
    requires t < now + WaitFor(c, Acquire(c, b, now, n).0, n)
    ensures Refill(c, Acquire(c, b, now, n).0, t).tokens < n as real
  {
    AfterRefusal(c, b, now, n, t);
    WaitAccrues(c, Acquire(c, b, now, n).0, n, now, t);
  }

  /**
    Sleeping loses nothing: whatever other directions do, a payment asked again before its sleep ends would be
    refused.
  */
  lemma {:induction false} SleepersWouldFail(c: Config, created: real, es: seq<Event>, port: nat, t: real)
    requires c.rate > 0 && WellTimed(c, created, es) && Latest(created, Asked(c, created, es)) <= t
    requires port in Play(c, created, es).permits
    requires var p := Play(c, created, es).permits[port]; p.sleepUntil.Some? && t < p.sleepUntil.value
    ensures var s := Play(c, created, es);
            Refill(c, s.bucket, t).tokens < s.permits[port].n as real
    decreases |es|
  {
    var k := |es| - 1;
    var past, e := es[..k], es[k];
    var s := Play(c, created, past);
    var reqs, reqs' := Asked(c, created, past), Asked(c, created, es);
    var n := LastAsk(c, created, es);
    BucketSeesRequests(c, created, past);
    if n.Some? {
      assert reqs'[..|reqs'| - 1] == reqs;
      RunBounded(c, Full(c, created), reqs);
      RequestsOnlyTake(c, s.bucket, e.a.at, n.value, t);
      if e.port == port {
        EarlyIsShort(c, s.bucket, n.value, e.a.at, t);
      } else {
        SleepersWouldFail(c, created, past, port, t);
      }
    } else {
      assert reqs' == reqs;
      SleepersWouldFail(c, created, past, port, t);
    }
  }

  /** The tokens charged by event `i` of a run. */
  function PaidAt(c: Config, created: real, es: seq<Event>, i: nat): nat
    requires c.rate > 0 && i < |es|
  {
    Paid(LastOutcome(c, created, es[..i + 1]))
  }

  /** The tokens a run leaves for instant `t`. */
  function Content(c: Config, created: real, es: seq<Event>, t: real): real
    requires c.rate > 0
  {
    Refill(c, Play(c, created, es).bucket, t).tokens
  }

  ghost predicate TimedUntil(c: Config, created: real, es: seq<Event>, t: real)
    requires c.rate > 0
  {
    WellTimed(c, created, es) && Latest(created, Asked(c, created, es)) <= t
  }

  lemma UnchargedStep(c: Config, created: real, es: seq<Event>, t: real)
    requires c.rate > 0 && es != [] && TimedUntil(c, created, es, t) && Paid(LastOutcome(c, created, es)) == 0
    ensures TimedUntil(c, created, es[..|es| - 1], t)
    ensures Content(c, created, es, t) == Content(c, created, es[..|es| - 1], t)
  {
    var past, e := es[..|es| - 1], es[|es| - 1];
    var s, reqs, reqs' := Play(c, created, past), Asked(c, created, past), Asked(c, created, es);
    var n := LastAsk(c, created, es);
    if n.Some? {
      assert reqs'[..|reqs'| - 1] == reqs;
      BucketSeesRequests(c, created, past);
      RunBounded(c, Full(c, created), reqs);
      AcquireThenRefill(c, s.bucket, e.a.at, n.value, t);
      RefillLater(c, s.bucket, e.a.at, t);
    } else {
      assert reqs' == reqs;
    }
  }

  /** Between event `k` and event `m`, a run that charges nothing leaves the same for `t`. */
  lemma {:induction false} UnchargedKeepsContent(c: Config, created: real, es: seq<Event>, k: nat, m: nat, t: real)
    requires c.rate > 0 && k <= m <= |es| && TimedUntil(c, created, es[..m], t)
    requires forall i :: k <= i < m ==> PaidAt(c, created, es, i) == 0
    ensures TimedUntil(c, created, es[..k], t) && Content(c, created, es[..m], t) == Content(c, created, es[..k], t)
    decreases m
  {
    if k < m {
      assert PaidAt(c, created, es, m - 1) == 0;
      UnchargedStep(c, created, es[..m], t);
      assert es[..m][..m - 1] == es[..m - 1];
      UnchargedKeepsContent(c, created, es, k, m - 1, t);
    }
  }

  /** The direction of the last event has a payment pending since then, which sleeps until `t` at the latest. */
  ghost predicate WentToSleep(c: Config, created: real, es: seq<Event>, t: real)
    requires c.rate > 0 && es != []
  {
    var p := PermitOf(Play(c, created, es), es[|es| - 1].port);
    && LastAsk(c, created, es).Some?
    && p.Some? && p.value.n <= c.burst && p.value.sleepUntil.Some? && p.value.sleepUntil.value <= t
  }

  /** It finds its tokens there at the end of the sleep, if none is charged since. */
  lemma SleptWell(c: Config, created: real, es: seq<Event>, t: real)
    requires c.rate > 0 && es != [] && TimedUntil(c, created, es, t) && WentToSleep(c, created, es, t)
    ensures Content(c, created, es, t) >= PermitOf(Play(c, created, es), es[|es| - 1].port).value.n as real
  {
    var past, e := es[..|es| - 1], es[|es| - 1];
    var s, reqs, reqs' := Play(c, created, past), Asked(c, created, past), Asked(c, created, es);
    assert reqs'[..|reqs'| - 1] == reqs;
    BucketSeesRequests(c, created, past);
    RunBounded(c, Full(c, created), reqs);
    SleepIsExact(c, s.bucket, PermitOf(s, e.port).value, e.a, t);
  }

  lemma SomeoneWasCharged(c: Config, created: real, es: seq<Event>, k: nat, t: real, n: nat) returns (i: nat)
    requires c.rate > 0 && k <= |es| && TimedUntil(c, created, es, t)
    requires Content(c, created, es, t) < n as real
    requires TimedUntil(c, created, es[..k], t) ==> Content(c, created, es[..k], t) >= n as real
    ensures k <= i < |es| && PaidAt(c, created, es, i) > 0
  {
    if forall j :: k <= j < |es| ==> PaidAt(c, created, es, j) == 0 {
      assert es[..|es|] == es;
      UnchargedKeepsContent(c, created, es, k, |es|, t);
    }
    i :| k <= i < |es| && PaidAt(c, created, es, i) > 0;
  }

  /**
    The late half: a direction that went to sleep at event `k - 1`, did not ask again since, and is refused once its
    sleep is over, was beaten by another direction, which was charged in the meantime.
  */
  lemma LateRefusalWasBeaten(c: Config, created: real, es: seq<Event>, k: nat, t: real) returns (i: nat)
    requires c.rate > 0 && 0 < k <= |es| && TimedUntil(c, created, es, t)
    requires WentToSleep(c, created, es[..k], t)
    requires Content(c, created, es, t) < PermitOf(Play(c, created, es[..k]), es[k - 1].port).value.n as real
    requires forall j :: k <= j < |es| && es[j].port == es[k - 1].port ==> LastAsk(c, created, es[..j + 1]) == None
    ensures k <= i < |es| && es[i].port != es[k - 1].port && PaidAt(c, created, es, i) > 0
  {
    var n := PermitOf(Play(c, created, es[..k]), es[k - 1].port).value.n;
    if TimedUntil(c, created, es[..k], t) {
      SleptWell(c, created, es[..k], t);
    }
    i := SomeoneWasCharged(c, created, es, k, t, n);
    ChargedAsked(c, created, es[..i + 1]);
  }

  lemma ChargedAsked(c: Config, created: real, es: seq<Event>)
    requires c.rate > 0 && es != [] && Paid(LastOutcome(c, created, es)) > 0
    ensures LastAsk(c, created, es).Some?
  {
  }

  // ----- Waking -------------------------------------------------------------------------

  /** A payment whose sleep is over, or that was never polled, with the timer fired. */
  predicate Awake(p: Permit, a: Attempt) {
    p.sleepUntil.None? || (!a.late && p.sleepUntil.value <= a.at)
  }

  /** The attempt paid `n`, and nothing of its direction is pending any more. */
  ghost predicate Pays(c: Config, created: real, es: seq<Event>, e: Event, n: nat)
    requires c.rate > 0
  {
    var o := LastOutcome(c, created, es + [e]);
    o.Charged? && o.n == n && e.port !in Play(c, created, es + [e]).permits
  }

  /** The attempt got nothing, and its direction is pending a payment of `n`, asleep if it was pending before. */
  ghost predicate Waits(c: Config, created: real, es: seq<Event>, e: Event, n: nat)
    requires c.rate > 0
  {
    var p := PermitOf(Play(c, created, es + [e]), e.port);
    && LastOutcome(c, created, es + [e]) == Starved && p.Some? && p.value.n == n
    && (e.port in Play(c, created, es).permits ==> p.value.sleepUntil.Some? && e.a.at < p.value.sleepUntil.value)
  }

  lemma WaitIsPositive(c: Config, b: Bucket, n: nat)
    requires c.rate > 0 && b.tokens < n as real
    ensures WaitFor(c, b, n) > 0.0
  {
    var missing, rate := n as real - b.tokens, c.rate as real;
    assert WaitFor(c, b, n) * rate == missing;
  }

  /**
    In every run, a pending payment polled with its sleep over and the timer fired is tried: it is charged exactly if
    the bucket then holds its size, and is then no longer pending; otherwise it sleeps again. Polled earlier, or with
    the timer late, nothing at all changes.
  */
  lemma PendingIsTried(c: Config, created: real, es: seq<Event>, e: Event)
    requires c.rate > 0 && e.port in Play(c, created, es).permits
    ensures var p := Play(c, created, es).permits[e.port];
            if !Awake(p, e.a) then
              LastOutcome(c, created, es + [e]) == Starved && Play(c, created, es + [e]) == Play(c, created, es)
            else if Content(c, created, es, e.a.at) >= p.n as real then
              Pays(c, created, es, e, p.n)
            else
              Waits(c, created, es, e, p.n)
  {
    var s := Play(c, created, es);
    var p := s.permits[e.port];
    PlaySnoc(c, created, es, e);
    if Awake(p, e.a) {
      if Content(c, created, es, e.a.at) < p.n as real {
        WaitIsPositive(c, Refill(c, s.bucket, e.a.at), p.n);
      }
    } else {
      assert s.permits[e.port := p] == s.permits;
    }
  }

  /** With nothing pending, an attempt on a buffer that is not empty asks for at most 16384 bytes at once. */
  lemma FreshIsTried(c: Config, created: real, es: seq<Event>, e: Event)
    requires c.rate > 0 && e.port !in Play(c, created, es).permits
    ensures var n := if e.a.remaining < 16384 then e.a.remaining else 16384;
            if n == 0 then
              LastOutcome(c, created, es + [e]) == Idle && Play(c, created, es + [e]) == Play(c, created, es)
            else if Content(c, created, es, e.a.at) >= n as real then
              Pays(c, created, es, e, n)
            else
              Waits(c, created, es, e, n)
  {
    PlaySnoc(c, created, es, e);
    if e.a.remaining == 0 {
      assert Play(c, created, es).permits - {e.port} == Play(c, created, es).permits;
    }
  }

  lemma {:induction false} PermitKept(c: Config, created: real, es: seq<Event>, k: nat, m: nat, port: nat)
    requires c.rate > 0 && k <= m <= |es|
    requires forall j :: k <= j < m && es[j].port == port ==> LastAsk(c, created, es[..j + 1]) == None
    ensures PermitOf(Play(c, created, es[..m]), port) == PermitOf(Play(c, created, es[..k]), port)
    decreases m
  {
    if k < m {
      PermitKept(c, created, es, k, m - 1, port);
      assert es[..m][..m - 1] == es[..m - 1] && es[..m][m - 1] == es[m - 1];
      assert es[m - 1].port == port ==> LastAsk(c, created, es[..m]) == None;
    }
  }

  /**
    A direction that went to sleep at event `k - 1` comes through at its first poll after the sleep, at whatever
    instant, if no other direction was charged since.
  */
  lemma UnbeatenComesThrough(c: Config, created: real, es: seq<Event>, k: nat, e: Event)
    requires c.rate > 0 && 0 < k <= |es| && TimedUntil(c, created, es, e.a.at) && !e.a.late
    requires WentToSleep(c, created, es[..k], e.a.at) && e.port == es[k - 1].port
    requires forall j :: k <= j < |es| && es[j].port == e.port ==> LastAsk(c, created, es[..j + 1]) == None
    requires forall j :: k <= j < |es| && es[j].port != e.port ==> PaidAt(c, created, es, j) == 0
    ensures Pays(c, created, es, e, PermitOf(Play(c, created, es[..k]), e.port).value.n)
  {
    assert es[..|es|] == es;
    PermitKept(c, created, es, k, |es|, e.port);
    PendingIsTried(c, created, es, e);
    if Content(c, created, es, e.a.at) < PermitOf(Play(c, created, es[..k]), e.port).value.n as real {
      var i := LateRefusalWasBeaten(c, created, es, k, e.a.at);
      assert false;
    }
  }

  // ----- The accounts -------------------------------------------------------------------

  function Entries(c: Config, created: real, es: seq<Event>): (xs: seq<Entry>)
    requires c.rate > 0
    ensures |xs| == |es|
  {
    if es == [] then
      []
    else
      var e := es[|es| - 1];
      Entries(c, created, es[..|es| - 1]) + [Entry(e.a.at, e.io, LastOutcome(c, created, es))]
  }

  lemma {:induction false} PaidIsGranted(c: Config, created: real, es: seq<Event>, s: real, t: real)
    requires c.rate > 0
    ensures PaidIn(Entries(c, created, es), s, t) == GrantsIn(c, Full(c, created), Asked(c, created, es), s, t)
    ensures TotalPaid(Entries(c, created, es)) == Granted(c, Full(c, created), Asked(c, created, es))
  {
    if es != [] {
      PaidIsGranted(c, created, es[..|es| - 1], s, t);
      var xs := Entries(c, created, es);
      assert xs[..|xs| - 1] == Entries(c, created, es[..|es| - 1]);
      ChargeIsGrant(c, created, es);
    }
  }

  /** Every payment that came through after a wait found a buffer that needs no more than it paid for. */
  ghost predicate Covered(c: Config, created: real, es: seq<Event>)
    requires c.rate > 0
  {
    es == [] ||
    var e := es[|es| - 1];
    var p := PermitOf(Play(c, created, es[..|es| - 1]), e.port);
    && Covered(c, created, es[..|es| - 1])
    && (p.Some? && LastOutcome(c, created, es).Charged? ==> Chunk(e.a.remaining) <= p.value.n)
  }

  /**
    What one event moves: at most a chunk whatever the buffer does, and no more than its charge if that covers the
    buffer.
  */
  lemma MovedPerCharge(c: Config, created: real, es: seq<Event>)
    requires c.rate > 0 && es != [] && Honest(es[|es| - 1].a)
    ensures Bytes(LastOutcome(c, created, es)) <= CHUNK
    ensures Covered(c, created, es) ==> Bytes(LastOutcome(c, created, es)) <= Paid(LastOutcome(c, created, es))
  {
  }

  lemma {:induction false} CoveredPaysUp(c: Config, created: real, es: seq<Event>)
    requires c.rate > 0 && Covered(c, created, es) && AllHonest(es)
    ensures PaidUp(Entries(c, created, es))
  {
    if es != [] {
      CoveredPaysUp(c, created, es[..|es| - 1]);
      MovedPerCharge(c, created, es);
    }
  }

  /**
    Every token the bucket hands out is a byte moved, or forfeited: the unused part of a short transfer, or a whole
    charge lost to a blocked or failed inner stream or to an empty buffer. Bytes can exceed that only if a payment
    does not cover the buffer it finds.
  */
  lemma TokenLedger(c: Config, created: real, es: seq<Event>)
    requires c.rate > 0 && AllHonest(es)
    ensures var xs := Entries(c, created, es);
            && Granted(c, Full(c, created), Asked(c, created, es)) + Book(xs).unpaid
               == Total(xs, BytesOf()) + Total(xs, UnusedOf())
                  + Total(xs, LostTo(Blocked)) + Total(xs, LostTo(Failed)) + Total(xs, LostTo(Empty))
            && (Covered(c, created, es) ==> Book(xs).unpaid == 0)
  {
    PaidIsGranted(c, created, es, 0.0, 0.0);
    Balanced(Entries(c, created, es));
    AccountsByFate(Entries(c, created, es));
    if Covered(c, created, es) {
      CoveredPaysUp(c, created, es);
      PaidUpMeansNoUnpaid(Entries(c, created, es));
    }
  }

  lemma BytesWithinBound(c: Config, created: real, reqs: seq<Request>, xs: seq<Entry>, s: real, t: real, span: real)
    requires Ordered(created, reqs) && PaidUp(xs) && WithinSpan(xs, span) && 0.0 <= span && s <= t
    requires PaidIn(xs, s - span, t) == GrantsIn(c, Full(c, created), reqs, s - span, t)
    ensures BytesIn(xs, s, t) as real <= c.burst as real + Accrual(c, s - span, t)
  {
    BytesWerePaidFor(xs, s, t, span);
    AnyWindowBound(c, created, reqs, s - span, t);
  }

  /**
    All streams on one limiter together: in every window of time, the bytes moved are at most the burst plus the rate
    times the length of the window (plus the duration of one poll call, between its charge and its transfer).
  */
  lemma AggregateBandwidth(c: Config, created: real, es: seq<Event>, s: real, t: real, span: real)
    requires c.rate > 0 && WellTimed(c, created, es) && Covered(c, created, es)
    requires 0.0 <= span && WithinSpan(Entries(c, created, es), span) && s <= t
    ensures BytesIn(Entries(c, created, es), s, t) as real <= c.burst as real + Accrual(c, s - span, t)
  {
    CoveredPaysUp(c, created, es);
    PaidIsGranted(c, created, es, s - span, t);
    BytesWithinBound(c, created, Asked(c, created, es), Entries(c, created, es), s, t, span);
  }

  /**
    A client's bandwidth limiter, with charge and transfer taken as one instant: 64 KiB plus the configured rate, but at
    least 1024 bytes a second, times the time.
  */
  lemma ClientBandwidth(rate: nat, created: real, es: seq<Event>, s: real, t: real)
    requires var c := LimiterRegistry.RegistryConfig(rate);
             && c.rate > 0 && WellTimed(c, created, es) && Covered(c, created, es)
             && WithinSpan(Entries(c, created, es), 0.0) && s <= t
    ensures var c := LimiterRegistry.RegistryConfig(rate);
            BytesIn(Entries(c, created, es), s, t) as real
            <= 65536.0 + Accrual(Config(if rate < 1024 then 1024 else rate, 65536), s, t)
  {
    AggregateBandwidth(LimiterRegistry.RegistryConfig(rate), created, es, s, t, 0.0);
    assert s - 0.0 == s;
  }
}
