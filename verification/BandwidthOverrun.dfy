/**
  When the bytes that pass a limiter can exceed what was paid. A refused payment fixes its size when it is made, and the
  size of the transfer is computed anew from the buffer when the payment comes through.
*/
module BandwidthOverrun {
  import opened Options
  import opened TokenBucket
  import opened Bandwidth
  import opened BandwidthLedger
  import opened BandwidthRuns
  import LimiterRegistry

  // ----- Exactly when -------------------------------------------------------------------

  /** The same attempts, with other answers of the inner streams. */
  ghost predicate SameButInner(es: seq<Event>, es': seq<Event>) {
    && |es| == |es'|
    && forall i :: 0 <= i < |es| ==> es'[i] == es[i].(a := es[i].a.(inner := es'[i].a.inner))
  }

  lemma InnerStep(c: Config, b: Bucket, permit: Option<Permit>, a: Attempt, inner: Inner)
    requires c.rate > 0
    ensures var r, r' := Step(c, b, permit, a), Step(c, b, permit, a.(inner := inner));
            r.bucket == r'.bucket && r.permit == r'.permit && (r.outcome.Charged? <==> r'.outcome.Charged?)
  {
  }

  /** The answers of the inner streams decide neither what is charged nor what stays pending. */
  lemma {:induction false} InnerIsIrrelevant(c: Config, created: real, es: seq<Event>, es': seq<Event>)
    requires c.rate > 0 && SameButInner(es, es')
    ensures Play(c, created, es) == Play(c, created, es')
    ensures Covered(c, created, es) <==> Covered(c, created, es')
    decreases |es|
  {
    if es != [] {
      var k := |es| - 1;
      InnerIsIrrelevant(c, created, es[..k], es'[..k]);
      var s := Play(c, created, es[..k]);
      InnerStep(c, s.bucket, PermitOf(s, es[k].port), es[k].a, es'[k].a.inner);
    }
  }

  /** Every inner stream takes all it is offered. */
  function Greedy(es: seq<Event>): (es': seq<Event>)
    ensures SameButInner(es, es') && AllHonest(es')
  {
    seq(|es|, i requires 0 <= i < |es| => es[i].(a := es[i].a.(inner := Moves(Chunk(es[i].a.remaining)))))
  }

  lemma {:induction false} GreedyOverruns(c: Config, created: real, es: seq<Event>)
    requires c.rate > 0 && PaidUp(Entries(c, created, es))
    requires forall i :: 0 <= i < |es| ==> es[i].a.inner == Moves(Chunk(es[i].a.remaining))
    ensures Covered(c, created, es)
    decreases |es|
  {
    if es != [] {
      var k := |es| - 1;
      var xs := Entries(c, created, es);
      assert xs[..k] == Entries(c, created, es[..k]);
      assert PaidUp(xs[..k]);
      GreedyOverruns(c, created, es[..k]);
      assert Bytes(xs[k].outcome) <= Paid(xs[k].outcome);
    }
  }

  /**
    For the attempts of any run: no transfer moves more than was paid for it, however the inner streams answer, if and
    only if every payment that came through after a wait covers the buffer it found.
  */
  lemma OverrunIffBufferGrew(c: Config, created: real, es: seq<Event>)
    requires c.rate > 0
    ensures (forall es' :: SameButInner(es, es') && AllHonest(es') ==> PaidUp(Entries(c, created, es')))
       <==> Covered(c, created, es)
  {
    if Covered(c, created, es) {
      forall es' | SameButInner(es, es') && AllHonest(es') ensures PaidUp(Entries(c, created, es')) {
        InnerIsIrrelevant(c, created, es, es');
        CoveredPaysUp(c, created, es');
      }
    } else {
      var es' := Greedy(es);
      InnerIsIrrelevant(c, created, es, es');
      if PaidUp(Entries(c, created, es')) {
        GreedyOverruns(c, created, es');
      }
    }
  }

  // ----- Which sizes break the bandwidth bound ------------------------------------------

  /**
    Every payment that came through after a wait covers its buffer, or paid for `n` and found `r` left in the buffer.
  */
  ghost predicate GrowsOnly(c: Config, created: real, es: seq<Event>, n: nat, r: nat)
    requires c.rate > 0
  {
    es == [] ||
    var e := es[|es| - 1];
    var p := PermitOf(Play(c, created, es[..|es| - 1]), e.port);
    && GrowsOnly(c, created, es[..|es| - 1], n, r)
    && (p.Some? && LastOutcome(c, created, es).Charged? ==>
          Chunk(e.a.remaining) <= p.value.n || (p.value.n == n && e.a.remaining == r))
  }

  lemma {:induction false} CoveringSizesCover(c: Config, created: real, es: seq<Event>, n: nat, r: nat)
    requires c.rate > 0 && GrowsOnly(c, created, es, n, r) && (n == 0 || Chunk(r) <= n)
    ensures Covered(c, created, es)
  {
    if es != [] {
      CoveringSizesCover(c, created, es[..|es| - 1], n, r);
      PermitsAreChunks(c, created, es[..|es| - 1]);
    }
  }

  /** The bound of `AggregateBandwidth`, with charge and transfer at one instant, for one run and window. */
  ghost predicate WithinBound(c: Config, created: real, es: seq<Event>, s: real, t: real)
    requires c.rate > 0
  {
    BytesIn(Entries(c, created, es), s, t) as real <= c.burst as real + Accrual(c, s, t)
  }

  /** The bound holds in every run in which the only growth is from `n` to `r`. */
  ghost predicate BoundHolds(c: Config, n: nat, r: nat)
    requires c.rate > 0
  {
    forall created, es, s, t ::
      (WellTimed(c, created, es) && WithinSpan(Entries(c, created, es), 0.0)
       && GrowsOnly(c, created, es, n, r) && s <= t)
      ==> WithinBound(c, created, es, s, t)
  }

  lemma CoveringSizesStayWithin(c: Config, created: real, es: seq<Event>, n: nat, r: nat, s: real, t: real)
    requires c.rate > 0 && WellTimed(c, created, es) && WithinSpan(Entries(c, created, es), 0.0)
    requires GrowsOnly(c, created, es, n, r) && (n == 0 || Chunk(r) <= n) && s <= t
    ensures WithinBound(c, created, es, s, t)
  {
    CoveringSizesCover(c, created, es, n, r);
    AggregateBandwidth(c, created, es, s, t, 0.0);
    assert s - 0.0 == s;
  }

  /**
    For a bandwidth limiter of any rate and a payment of any size: bytes stay within burst + rate * time in every run
    in which a payment of `n` may find `r` bytes of buffer, and all others cover theirs, if and only if `n` covers `r`
    (or is zero, which no payment is).
  */
  lemma BoundIffCovering(rate: nat, n: nat, r: nat)
    ensures var c := LimiterRegistry.RegistryConfig(rate);
            c.rate > 0 && (BoundHolds(c, n, r) <==> n == 0 || Chunk(r) <= n)
  {
    var c := LimiterRegistry.RegistryConfig(rate);
    if n == 0 || Chunk(r) <= n {
      forall created, es, s, t | WellTimed(c, created, es) && WithinSpan(Entries(c, created, es), 0.0)
                                 && GrowsOnly(c, created, es, n, r) && s <= t
        ensures WithinBound(c, created, es, s, t)
      {
        CoveringSizesStayWithin(c, created, es, n, r, s, t);
      }
    } else {
      var es, t := UncoveredSizesOverrun(rate, n, r);
    }
  }

  // ----- The run that breaks it ------------------------------------------

  /** The direction's payment was refused and not polled yet: the middle of a poll call. */
  ghost predicate MidPoll(s: System, port: nat) {
    port in s.permits && s.permits[port].sleepUntil.None?
  }

  /** A poll call that starts a payment polls it next, with the buffer it was called with. */
  ghost predicate Uncut(c: Config, created: real, es: seq<Event>)
    requires c.rate > 0
  {
    |es| < 2 ||
    var past, last, e := es[..|es| - 1], es[|es| - 2], es[|es| - 1];
    && Uncut(c, created, past)
    && (MidPoll(Play(c, created, past), last.port) ==> e.port == last.port && e.a.remaining == last.a.remaining)
  }

  /** The run is made of whole poll calls. */
  ghost predicate WholePolls(c: Config, created: real, es: seq<Event>)
    requires c.rate > 0
  {
    Uncut(c, created, es) && (es != [] ==> !MidPoll(Play(c, created, es), es[|es| - 1].port))
  }

  /** Where a run from instant zero has come to: its state, and the bytes moved by `until`. */
  ghost predicate Comes(c: Config, es: seq<Event>, s: System, now: real, moved: nat, until: real)
    requires c.rate > 0
  {
    && Play(c, 0.0, es) == s && WellTimed(c, 0.0, es) && 0.0 <= Latest(0.0, Asked(c, 0.0, es)) <= now
    && Uncut(c, 0.0, es) && WithinSpan(Entries(c, 0.0, es), 0.0) && BytesIn(Entries(c, 0.0, es), 0.0, until) == moved
  }

  lemma GrowsSnoc(c: Config, es: seq<Event>, e: Event, n: nat, r: nat)
    requires c.rate > 0 && GrowsOnly(c, 0.0, es, n, r)
    requires var p := PermitOf(Play(c, 0.0, es), e.port);
             p.Some? && Step(c, Play(c, 0.0, es).bucket, p, e.a).outcome.Charged? ==>
               Chunk(e.a.remaining) <= p.value.n || (p.value.n == n && e.a.remaining == r)
    ensures GrowsOnly(c, 0.0, es + [e], n, r)
  {
    assert (es + [e])[..|es + [e]| - 1] == es;
  }

  /** An attempt whose transfer, if any, happens at once and fills the chunk. */
  function Try(port: nat, remaining: nat, at: real): Event {
    Event(port, Attempt(remaining, at, false, Moves(Chunk(remaining))), at)
  }

  lemma OrderedSnoc(start: real, reqs: seq<Request>, q: Request)
    requires Ordered(start, reqs) && Latest(start, reqs) <= q.at
    ensures Ordered(start, reqs + [q]) && Latest(start, reqs + [q]) == q.at
  {
    assert (reqs + [q])[..|reqs + [q]| - 1] == reqs;
  }

  lemma AskedSnoc(c: Config, es: seq<Event>, e: Event)
    requires c.rate > 0
    ensures Asked(c, 0.0, es + [e])
         == match LastAsk(c, 0.0, es + [e])
            case None => Asked(c, 0.0, es)
            case Some(n) => Asked(c, 0.0, es) + [Request(e.a.at, n)]
  {
    assert (es + [e])[..|es + [e]| - 1] == es;
  }

  lemma TimedSnoc(c: Config, es: seq<Event>, e: Event)
    requires c.rate > 0 && WellTimed(c, 0.0, es) && 0.0 <= Latest(0.0, Asked(c, 0.0, es)) <= e.a.at && Honest(e.a)
    ensures WellTimed(c, 0.0, es + [e]) && 0.0 <= Latest(0.0, Asked(c, 0.0, es + [e])) <= e.a.at
  {
    var n := LastAsk(c, 0.0, es + [e]);
    AskedSnoc(c, es, e);
    if n.Some? {
      OrderedSnoc(0.0, Asked(c, 0.0, es), Request(e.a.at, n.value));
    }
  }

  lemma MovedSnoc(c: Config, es: seq<Event>, e: Event, until: real)
    requires c.rate > 0 && WithinSpan(Entries(c, 0.0, es), 0.0) && 0.0 <= e.io <= until && e.io == e.a.at
    ensures var xs, xs' := Entries(c, 0.0, es), Entries(c, 0.0, es + [e]);
            && WithinSpan(xs', 0.0)
            && BytesIn(xs', 0.0, until) == BytesIn(xs, 0.0, until) + Bytes(LastOutcome(c, 0.0, es + [e]))
  {
    var xs, xs' := Entries(c, 0.0, es), Entries(c, 0.0, es + [e]);
    assert (es + [e])[..|es + [e]| - 1] == es;
    assert xs'[..|xs'| - 1] == xs;
  }

  lemma UncutSnoc(c: Config, es: seq<Event>, e: Event)
    requires c.rate > 0 && Uncut(c, 0.0, es)
    requires es != [] && MidPoll(Play(c, 0.0, es), es[|es| - 1].port) ==>
               es[|es| - 1].port == e.port && es[|es| - 1].a.remaining == e.a.remaining
    ensures Uncut(c, 0.0, es + [e])
  {
    assert (es + [e])[..|es + [e]| - 1] == es;
  }

  lemma ComesOn(c: Config, es: seq<Event>, s: System, now: real, moved: nat, until: real, e: Event)
    returns (s': System)
    requires c.rate > 0 && Comes(c, es, s, now, moved, until) && now <= e.a.at <= until
    requires e == Try(e.port, e.a.remaining, e.a.at)
    requires es != [] && MidPoll(s, es[|es| - 1].port) ==>
               es[|es| - 1].port == e.port && es[|es| - 1].a.remaining == e.a.remaining
    ensures var r := Step(c, s.bucket, PermitOf(s, e.port), e.a);
            && s' == System(r.bucket, SetPermit(s.permits, e.port, r.permit))
            && Comes(c, es + [e], s', e.a.at, moved + Bytes(r.outcome), until)
  {
    s' := Play(c, 0.0, es + [e]);
    PlaySnoc(c, 0.0, es, e);
    UncutSnoc(c, es, e);
    TimedSnoc(c, es, e);
    MovedSnoc(c, es, e, until);
  }

  lemma ChunkStep(c: Config, tokens: real)
    requires c.rate > 0 && tokens >= 16384.0
    ensures Step(c, Bucket(tokens, 0.0), None, Try(0, 16384, 0.0).a)
         == Result(Bucket(tokens - 16384.0, 0.0), None, Charged(16384, Moved(16384)))
  {
    assert Refill(c, Bucket(tokens, 0.0), 0.0) == Bucket(tokens, 0.0);
  }

  /** With nothing pending, a direction takes a chunk. */
  lemma TakeChunk(c: Config, past: seq<Event>, tokens: real, moved: nat, until: real, n: nat, r: nat)
    returns (es: seq<Event>)
    requires c.rate > 0 && tokens >= 16384.0 && 0.0 <= until
    requires Comes(c, past, System(Bucket(tokens, 0.0), map[]), 0.0, moved, until) && GrowsOnly(c, 0.0, past, n, r)
    ensures Comes(c, es, System(Bucket(tokens - 16384.0, 0.0), map[]), 0.0, moved + 16384, until)
    ensures GrowsOnly(c, 0.0, es, n, r)
  {
    var s, e := System(Bucket(tokens, 0.0), map[]), Try(0, 16384, 0.0);
    ChunkStep(c, tokens);
    GrowsSnoc(c, past, e, n, r);
    var s' := ComesOn(c, past, s, 0.0, moved, until, e);
    assert s'.permits == map[];
    es := past + [e];
  }

  lemma ComesFromNew(c: Config, until: real)
    requires c.rate > 0
    ensures Comes(c, [], System(Full(c, 0.0), map[]), 0.0, 0, until)
  {
  }

  /** One direction empties a new limiter. */
  lemma SpendBurst(c: Config, until: real, n: nat, r: nat) returns (es: seq<Event>)
    requires c.rate > 0 && c.burst == 65536 && 0.0 <= until
    ensures Comes(c, es, System(Bucket(0.0, 0.0), map[]), 0.0, 65536, until) && GrowsOnly(c, 0.0, es, n, r)
  {
    ComesFromNew(c, until);
    es := TakeChunk(c, [], 65536.0, 0, until, n, r);
    es := TakeChunk(c, es, 49152.0, 16384, until, n, r);
    es := TakeChunk(c, es, 32768.0, 32768, until, n, r);
    es := TakeChunk(c, es, 16384.0, 49152, until, n, r);
  }

  lemma TimeOfTokens(c: Config, n: nat) returns (t: real)
    requires c.rate > 0 && n >= 1
    ensures t == n as real / c.rate as real && t > 0.0 && Accrual(c, 0.0, t) == n as real
  {
    t := n as real / c.rate as real;
    assert t * c.rate as real == n as real;
  }

  /** An empty bucket refuses, and its refusal is worth a wait of `t`. */
  lemma RefusedStep(c: Config, permit: Option<Permit>, n: nat, t: real)
    requires c.rate > 0 && 1 <= n <= CHUNK && t == n as real / c.rate as real
    requires permit == None || permit == Some(Permit(n, None))
    ensures Step(c, Bucket(0.0, 0.0), permit, Try(1, n, 0.0).a)
         == Result(Bucket(0.0, 0.0), Some(Permit(n, if permit == None then None else Some(t))), Starved)
  {
    assert Refill(c, Bucket(0.0, 0.0), 0.0) == Bucket(0.0, 0.0);
  }

  /** Half of a poll call that starts a payment of `n` on an empty bucket. */
  lemma Refused(c: Config, past: seq<Event>, permit: Option<Permit>, p: Permit, until: real, n: nat, r: nat)
    returns (es: seq<Event>)
    requires c.rate > 0 && 0.0 <= until
    requires Step(c, Bucket(0.0, 0.0), permit, Try(1, n, 0.0).a) == Result(Bucket(0.0, 0.0), Some(p), Starved)
    requires permit.Some? ==> past != [] && past[|past| - 1] == Try(1, n, 0.0)
    requires Comes(c, past, System(Bucket(0.0, 0.0), SetPermit(map[], 1, permit)), 0.0, 65536, until)
    requires GrowsOnly(c, 0.0, past, n, r)
    ensures Comes(c, es, System(Bucket(0.0, 0.0), map[1 := p]), 0.0, 65536, until)
    ensures GrowsOnly(c, 0.0, es, n, r) && es != [] && es[|es| - 1] == Try(1, n, 0.0)
  {
    var s, e := System(Bucket(0.0, 0.0), SetPermit(map[], 1, permit)), Try(1, n, 0.0);
    assert PermitOf(s, 1) == permit;
    GrowsSnoc(c, past, e, n, r);
    var s' := ComesOn(c, past, s, 0.0, 65536, until, e);
    assert s'.permits == map[1 := p];
    es := past + [e];
  }

  lemma StartPayment(c: Config, past: seq<Event>, t: real, n: nat, r: nat) returns (es: seq<Event>)
    requires c.rate > 0 && 1 <= n <= CHUNK && t == n as real / c.rate as real && t > 0.0
    requires Comes(c, past, System(Bucket(0.0, 0.0), map[]), 0.0, 65536, t) && GrowsOnly(c, 0.0, past, n, r)
    ensures Comes(c, es, System(Bucket(0.0, 0.0), map[1 := Permit(n, Some(t))]), 0.0, 65536, t)
    ensures GrowsOnly(c, 0.0, es, n, r)
  {
    var unpolled := Permit(n, None);
    RefusedStep(c, None, n, t);
    RefusedStep(c, Some(unpolled), n, t);
    assert SetPermit(map[], 1, None) == map[];
    es := Refused(c, past, None, unpolled, t, n, r);
    assert SetPermit(map[], 1, Some(unpolled)) == map[1 := unpolled];
    es := Refused(c, es, Some(unpolled), Permit(n, Some(t)), t, n, r);
  }

  lemma Due(c: Config, t: real, n: nat, r: nat)
    requires c.rate > 0 && c.burst >= n && t > 0.0 && Accrual(c, 0.0, t) == n as real && r > 0
    ensures Step(c, Bucket(0.0, 0.0), Some(Permit(n, Some(t))), Try(1, r, t).a)
         == Result(Bucket(0.0, t), None, Charged(n, Moved(Chunk(r))))
  {
    RefillTokens(c, Bucket(0.0, 0.0), t);
  }

  /** The payment of `n` comes through, and a chunk of `r` is moved. */
  lemma ReturnGrown(c: Config, past: seq<Event>, t: real, n: nat, r: nat)
    requires c.rate > 0 && c.burst == 65536 && 1 <= n <= CHUNK && r > 0 && t > 0.0 && Accrual(c, 0.0, t) == n as real
    requires Comes(c, past, System(Bucket(0.0, 0.0), map[1 := Permit(n, Some(t))]), 0.0, 65536, t)
    requires GrowsOnly(c, 0.0, past, n, r)
    ensures var es := past + [Try(1, r, t)];
            && Comes(c, es, System(Bucket(0.0, t), map[]), t, 65536 + Chunk(r), t)
            && GrowsOnly(c, 0.0, es, n, r) && LastOutcome(c, 0.0, es) == Charged(n, Moved(Chunk(r)))
  {
    var s, e := System(Bucket(0.0, 0.0), map[1 := Permit(n, Some(t))]), Try(1, r, t);
    Due(c, t, n, r);
    var s' := ComesOn(c, past, s, 0.0, 65536, t, e);
    GrowsSnoc(c, past, e, n, r);
    assert s'.permits == map[];
    assert (past + [e])[..|past + [e]| - 1] == past;
  }

  /**
    A new bandwidth limiter of any rate: one direction spends the burst, another is refused `n` bytes, waits until it
    is due, and comes back with `r` bytes of buffer. If `n` does not cover them, it moves more than it paid for, and
    more bytes have gone through than the burst and the rate allow.
  */
  lemma UncoveredSizesOverrun(rate: nat, n: nat, r: nat) returns (es: seq<Event>, t: real)
    requires 1 <= n < Chunk(r)
    ensures var c := LimiterRegistry.RegistryConfig(rate);
            && c.rate > 0 && 0.0 <= t && es != []
            && WellTimed(c, 0.0, es) && WholePolls(c, 0.0, es) && WithinSpan(Entries(c, 0.0, es), 0.0)
            && GrowsOnly(c, 0.0, es, n, r) && LastOutcome(c, 0.0, es) == Charged(n, Moved(Chunk(r)))
            && !WithinBound(c, 0.0, es, 0.0, t)
  {
    var c := LimiterRegistry.RegistryConfig(rate);
    t := TimeOfTokens(c, n);
    es := SpendBurst(c, t, n, r);
    es := StartPayment(c, es, t, n, r);
    ReturnGrown(c, es, t, n, r);
    es := es + [Try(1, r, t)];
  }

  /** The largest growth: one token, 16384 bytes. */
  lemma GrownBufferOverruns(rate: nat) returns (es: seq<Event>, t: real)
    ensures var c := LimiterRegistry.RegistryConfig(rate);
            && c.rate > 0 && t >= 0.0 && es != []
            && WellTimed(c, 0.0, es) && WholePolls(c, 0.0, es) && WithinSpan(Entries(c, 0.0, es), 0.0)
            && LastOutcome(c, 0.0, es) == Charged(1, Moved(16384))
            && BytesIn(Entries(c, 0.0, es), 0.0, t) as real > c.burst as real + Accrual(c, 0.0, t)
  {
    es, t := UncoveredSizesOverrun(rate, 1, 16384);
  }
}
