/**
  One acceptor of a rule: access control, then the client's rate limit. A connection that passes both gets a task of its
  own; what that task does, and other acceptors, are in `AcceptMachine`.
*/
module Accept {
  import opened TokenBucket
  import opened Net
  import RateLimiting

  /** A connection: who, and the instants of its map entry and of its check. */
  datatype Connection = Connection(ip: IpAddr, entered: real, at: real)

  datatype Verdict = Denied | RateLimited | Spawned

  /** What the connections do to the rate limiter, step by step. */
  function StepsOf(allowed: IpAddr -> bool, conns: seq<Connection>): seq<RateLimiting.Step> {
    if conns == [] then
      []
    else
      var c := conns[|conns| - 1];
      StepsOf(allowed, conns[..|conns| - 1]) +
      if allowed(c.ip) then [RateLimiting.Entered(c.ip, c.entered), RateLimiting.Checked(c.ip, c.at)]
      else [RateLimiting.Denied(c.ip, c.entered)]
  }

  function Until(start: real, conns: seq<Connection>): real {
    if conns == [] then start else conns[|conns| - 1].at
  }

  /** The acceptor handles its connections one after the other. */
  predicate Timed(start: real, conns: seq<Connection>) {
    conns == [] ||
    var past, e := conns[..|conns| - 1], conns[|conns| - 1];
    Timed(start, past) && Until(start, past) <= e.entered <= e.at
  }

  lemma {:induction false} TimedPrefix(start: real, conns: seq<Connection>, k: nat)
    requires Timed(start, conns) && k <= |conns|
    ensures Timed(start, conns[..k])
    decreases |conns|
  {
    if k == |conns| {
      assert conns[..k] == conns;
    } else {
      TimedPrefix(start, conns[..|conns| - 1], k);
      assert conns[..|conns| - 1][..k] == conns[..k];
    }
  }

  /** One more connection, turned away by the ACL. */
  lemma StepsSnocDenied(c: Config, start: real, allowed: IpAddr -> bool, past: seq<Connection>, e: Connection)
    requires RateLimiting.WellFormed(c, start, StepsOf(allowed, past)) && !allowed(e.ip)
    requires RateLimiting.Clock(start, StepsOf(allowed, past)) <= e.entered
    ensures RateLimiting.WellFormed(c, start, StepsOf(allowed, past + [e]))
    ensures RateLimiting.Clock(start, StepsOf(allowed, past + [e])) == e.entered
    ensures RateLimiting.DoAll(c, StepsOf(allowed, past + [e])) == RateLimiting.DoAll(c, StepsOf(allowed, past))
  {
    assert (past + [e])[..|past + [e]| - 1] == past;
    RateLimiting.StepSnoc(c, start, StepsOf(allowed, past), RateLimiting.Denied(e.ip, e.entered));
  }

  /** One more connection, admitted by the ACL: an entry and a check. */
  lemma StepsSnocAllowed(c: Config, start: real, allowed: IpAddr -> bool, past: seq<Connection>, e: Connection)
    requires RateLimiting.WellFormed(c, start, StepsOf(allowed, past)) && allowed(e.ip)
    requires RateLimiting.Clock(start, StepsOf(allowed, past)) <= e.entered <= e.at
    ensures RateLimiting.WellFormed(c, start, StepsOf(allowed, past + [e]))
    ensures RateLimiting.Clock(start, StepsOf(allowed, past + [e])) == e.at
    ensures RateLimiting.DoAll(c, StepsOf(allowed, past + [e]))
         == RateLimiting.Do(c, RateLimiting.Do(c, RateLimiting.DoAll(c, StepsOf(allowed, past)),
                                               RateLimiting.Entered(e.ip, e.entered)),
                            RateLimiting.Checked(e.ip, e.at))
  {
    var before := StepsOf(allowed, past);
    var entry, check := RateLimiting.Entered(e.ip, e.entered), RateLimiting.Checked(e.ip, e.at);
    RateLimiting.StepSnoc(c, start, before, entry);
    RateLimiting.StepSnoc(c, start, before + [entry], check);
    assert (past + [e])[..|past + [e]| - 1] == past;
    assert before + [entry, check] == before + [entry] + [check];
  }

  lemma {:induction false} StepsWellFormed(c: Config, start: real, allowed: IpAddr -> bool, conns: seq<Connection>)
    requires Timed(start, conns)
    ensures RateLimiting.WellFormed(c, start, StepsOf(allowed, conns))
    ensures RateLimiting.Clock(start, StepsOf(allowed, conns)) <= Until(start, conns)
  {
    if conns != [] {
      var past, e := conns[..|conns| - 1], conns[|conns| - 1];
      StepsWellFormed(c, start, allowed, past);
      assert past + [e] == conns;
      if allowed(e.ip) {
        StepsSnocAllowed(c, start, allowed, past, e);
      } else {
        StepsSnocDenied(c, start, allowed, past, e);
      }
    }
  }

  lemma CheckIsEntitlement(c: Config, start: real, allowed: IpAddr -> bool, before: seq<Connection>, e: Connection)
    requires Timed(start, before + [e])
    ensures var steps := StepsOf(allowed, before);
            var m := RateLimiting.Do(c, RateLimiting.DoAll(c, steps), RateLimiting.Entered(e.ip, e.entered));
            Acquire(c, m[e.ip], e.at, 1).1 <==> RateLimiting.Entitled(c, start, steps, e.ip, e.at)
  {
    var all := before + [e];
    assert all[..|all| - 1] == before && all[|all| - 1] == e;
    StepsWellFormed(c, start, allowed, before);
    var steps, entry := StepsOf(allowed, before), RateLimiting.Entered(e.ip, e.entered);
    RateLimiting.StepSnoc(c, start, steps, entry);
    RateLimiting.ClientIsolation(c, start, steps + [entry], e.ip, e.at);
    assert RateLimiting.Mine(steps + [entry], e.ip) == RateLimiting.Mine(steps, e.ip);
  }

  /** The verdict on connection `k` that its client is due, other clients aside. */
  ghost predicate Due(config: RateLimiting.RateLimitConfig, start: real, allowed: IpAddr -> bool,
                      conns: seq<Connection>, k: nat, v: Verdict)
    requires k < |conns|
  {
    && (v == Denied <==> !allowed(conns[k].ip))
    && (v == RateLimited <==>
          allowed(conns[k].ip) && config.enabled
          && !RateLimiting.Entitled(RateLimiting.ClientConfig(config), start, StepsOf(allowed, conns[..k]),
                                    conns[k].ip, conns[k].at))
  }

  /** What one turn of the loop establishes. */
  lemma TurnIsDue(config: RateLimiting.RateLimitConfig, start: real, allowed: IpAddr -> bool, conns: seq<Connection>,
                  k: nat, v: Verdict, m: RateLimiting.Buckets, m': RateLimiting.Buckets)
    requires Timed(start, conns) && k < |conns| && config.enabled
    requires m == RateLimiting.DoAll(RateLimiting.ClientConfig(config), StepsOf(allowed, conns[..k]))
    requires var c, e := RateLimiting.ClientConfig(config), conns[k];
             var entered := RateLimiting.Do(c, m, RateLimiting.Entered(e.ip, e.entered));
             && (v == Denied <==> !allowed(e.ip))
             && (if allowed(e.ip) then
                   && m' == RateLimiting.Do(c, entered, RateLimiting.Checked(e.ip, e.at))
                   && (v == RateLimited <==> !Acquire(c, entered[e.ip], e.at, 1).1)
                 else m' == m)
    ensures Due(config, start, allowed, conns, k, v)
    ensures m' == RateLimiting.DoAll(RateLimiting.ClientConfig(config), StepsOf(allowed, conns[..k + 1]))
  {
    var c, past, e := RateLimiting.ClientConfig(config), conns[..k], conns[k];
    assert past + [e] == conns[..k + 1];
    TimedPrefix(start, conns, k + 1);
    assert conns[..k + 1][..k] == past;
    CheckIsEntitlement(c, start, allowed, past, e);
    StepsWellFormed(c, start, allowed, past);
    if allowed(e.ip) {
      StepsSnocAllowed(c, start, allowed, past, e);
    } else {
      StepsSnocDenied(c, start, allowed, past, e);
    }
  }

  /** One connection: the list, then the map entry and the check. A denied connection does not touch the limiter. */
  method Handle(allowed: IpAddr -> bool, rl: RateLimiting.RateLimiter, e: Connection) returns (v: Verdict)
    requires rl.Valid()
    modifies rl, rl.limiters.Values
    ensures rl.Valid() && fresh(rl.limiters.Values - old(rl.limiters.Values))
    ensures v == Denied <==> !allowed(e.ip)
    ensures v == Denied || !rl.config.enabled ==> rl.View() == old(rl.View())
    ensures allowed(e.ip) && rl.config.enabled ==>
              var c := RateLimiting.ClientConfig(rl.config);
              var m := RateLimiting.Do(c, old(rl.View()), RateLimiting.Entered(e.ip, e.entered));
              && rl.View() == RateLimiting.Do(c, m, RateLimiting.Checked(e.ip, e.at))
              && (v == RateLimited <==> !Acquire(c, m[e.ip], e.at, 1).1)
    ensures v == RateLimited ==> rl.config.enabled
  {
    if !allowed(e.ip) {
      return Denied;
    }
    var ok := rl.Check(e.ip, e.entered, e.at);
    v := if ok then Spawned else RateLimited;
  }

  /** Where the loop stands after connection `k - 1`. */
  ghost predicate Serving(allowed: IpAddr -> bool, rl: RateLimiting.RateLimiter, start: real, conns: seq<Connection>,
                          k: nat, verdicts: seq<Verdict>)
    reads rl, rl.limiters.Values
    requires k <= |conns|
  {
    && rl.Valid() && |verdicts| == k
    && (rl.config.enabled ==>
          rl.View() == RateLimiting.DoAll(RateLimiting.ClientConfig(rl.config), StepsOf(allowed, conns[..k])))
    && (forall i :: 0 <= i < k ==> Due(rl.config, start, allowed, conns, i, verdicts[i]))
  }

  /** Connection `k` of the loop. */
  method Turn(allowed: IpAddr -> bool, rl: RateLimiting.RateLimiter, ghost start: real, conns: seq<Connection>, k: nat,
              ghost past: seq<Verdict>)
    returns (v: Verdict)
    requires Timed(start, conns) && k < |conns| && Serving(allowed, rl, start, conns, k, past)
    modifies rl, rl.limiters.Values
    ensures fresh(rl.limiters.Values - old(rl.limiters.Values))
    ensures Serving(allowed, rl, start, conns, k + 1, past + [v])
  {
    ghost var m := rl.View();
    v := Handle(allowed, rl, conns[k]);
    if rl.config.enabled { TurnIsDue(rl.config, start, allowed, conns, k, v, m, rl.View()); }
  }

  /**
    The loop of one acceptor over the connections that arrive. A connection is turned away by the rate limiter exactly
    when limiting is on and its own client has used up its entitlement, whatever other clients do; it is denied
    exactly when the list does not allow it; all others are spawned.
  */
  method AcceptAll(allowed: IpAddr -> bool, rl: RateLimiting.RateLimiter, start: real, conns: seq<Connection>)
    returns (verdicts: seq<Verdict>)
    requires rl.Valid() && rl.limiters == map[] && Timed(start, conns)
    modifies rl
    ensures |verdicts| == |conns|
    ensures forall k :: 0 <= k < |conns| ==> Due(rl.config, start, allowed, conns, k, verdicts[k])
  {
    verdicts := [];
    for k := 0 to |conns|
      invariant fresh(rl.limiters.Values)
      invariant Serving(allowed, rl, start, conns, k, verdicts)
    {
      var v := Turn(allowed, rl, start, conns, k, verdicts);
      verdicts := verdicts + [v];
    }
  }
}
