/**
  What becomes of a connection, whatever else the rule is doing: after three operations of its acceptor it is decided,
  and the decision is determined by the access-control list, the rate-limit switch and its client's own history.
*/
module AcceptVerdict {
  import opened BalancerMachine
  import opened Net
  import opened AcceptMachine
  import RateLimiting

  predicate Final(phase: Phase) {
    phase.DeniedByAcl? || phase.RateLimited? || phase.Spawned?
  }

  /** The operations that a connection needs at most until it is decided. */
  function StepsLeft(phase: Phase): nat {
    match phase
    case Arrived => 3
    case Permitted => 2
    case Entered => 1
    case _ => 0
  }

  /** Only its own acceptor moves a connection. */
  lemma OthersLeaveIt(r: Rule, p: Pipeline, e: Event, n: nat)
    requires Ok(p.balancer) && n in p.conns && !(e.Handle? && e.n == n)
    ensures n in Go(r, p, e).conns && Go(r, p, e).conns[n] == p.conns[n]
  {
  }

  /** One operation on a connection that is not decided yet. */
  ghost predicate Moves(r: Rule, p: Pipeline, p': Pipeline, n: nat, at: real)
    requires n in p.conns && n in p'.conns
  {
    var ip, phase := p.conns[n].ip, p'.conns[n].phase;
    var spawned := phase == Spawned(at) && p'.balancer == p.balancer.(tasks := p.balancer.tasks[n := Started]);
    var untouched := p'.balancer == p.balancer;
    && p'.conns[n].ip == ip
    && match p.conns[n].phase
       case Arrived =>
         untouched && p'.limiter == p.limiter && phase == if r.allowed(ip) then Permitted else DeniedByAcl
       case Permitted =>
         r.allowed(ip) && if r.rateLimit.enabled then untouched && phase == Entered else spawned
       case Entered =>
         && r.allowed(ip) && r.rateLimit.enabled
         && if RateLimiting.Entitled(r.Client(), r.start, p.steps, ip, at) then spawned
            else untouched && phase == RateLimited
       case _ => p' == p
  }

  lemma HandleMoves(r: Rule, es: seq<Event>, n: nat, at: real)
    requires n in At(r, es).conns && At(r, es).now <= at
    ensures n in Go(r, At(r, es), Handle(n, at)).conns && Moves(r, At(r, es), Go(r, At(r, es), Handle(n, at)), n, at)
  {
    var p := At(r, es);
    Throughout(r, es);
    if p.conns[n].phase.Entered? {
      EntitledIsSpawned(r, es, n, at);
    }
  }

  /** What an event does to connection `n`. */
  lemma EventOn(r: Rule, es: seq<Event>, e: Event, n: nat)
    ensures var p, p' := At(r, es), Go(r, At(r, es), e);
            if n in p.conns then
              && n in p'.conns
              && if e.Handle? && e.n == n && p.now <= e.at then Moves(r, p, p', n, e.at) else p'.conns[n] == p.conns[n]
            else
              n in p'.conns ==> e == Arrive(n, p'.conns[n].ip) && p'.conns[n].phase == Arrived
  {
    if n in At(r, es).conns {
      if e.Handle? && e.n == n {
        if At(r, es).now <= e.at { HandleMoves(r, es, n, e.at); }
      } else {
        OthersLeaveIt(r, At(r, es), e, n);
      }
    }
  }

  // ----- Every connection is decided ----------------------------------------------------

  /** The operations performed on connection `n` in a run. */
  function Applied(r: Rule, es: seq<Event>, n: nat): nat {
    if es == [] then 0
    else
      var p, e := At(r, es[..|es| - 1]), es[|es| - 1];
      Applied(r, es[..|es| - 1], n) + if e.Handle? && e.n == n && n in p.conns && p.now <= e.at then 1 else 0
  }

  lemma {:induction false} OperationsCount(r: Rule, es: seq<Event>, n: nat)
    ensures var p := At(r, es);
            if n in p.conns then Final(p.conns[n].phase) || Applied(r, es, n) + StepsLeft(p.conns[n].phase) == 3
            else Applied(r, es, n) == 0
  {
    if es != [] {
      var past, e := es[..|es| - 1], es[|es| - 1];
      OperationsCount(r, past, n);
      EventOn(r, past, e, n);
    }
  }

  /** However everything interleaves, a connection is decided by its third operation at the latest. */
  lemma DecidedInThree(r: Rule, es: seq<Event>, n: nat)
    requires Applied(r, es, n) >= 3
    ensures n in At(r, es).conns && Final(At(r, es).conns[n].phase)
  {
    OperationsCount(r, es, n);
  }

  // ----- And as it is due ---------------------------------------------------------------

  /** What decides connection `n` of client `ip` between two states, at an instant. */
  ghost predicate Decides(r: Rule, q: Pipeline, q': Pipeline, n: nat, ip: IpAddr, at: real)
    requires n in q'.conns
  {
    var phase := q'.conns[n].phase;
    if !r.allowed(ip) then
      phase == DeniedByAcl && q'.balancer == q.balancer && q'.limiter == q.limiter
    else if !r.rateLimit.enabled || RateLimiting.Entitled(r.Client(), r.start, q.steps, ip, at) then
      phase == Spawned(at) && q'.balancer == q.balancer.(tasks := q.balancer.tasks[n := Started])
    else
      phase == RateLimited && q'.balancer == q.balancer
  }

  lemma {:induction false} ArrivedAs(r: Rule, es: seq<Event>, n: nat)
    requires n in At(r, es).conns
    ensures Arrive(n, At(r, es).conns[n].ip) in es
  {
    var past, e := es[..|es| - 1], es[|es| - 1];
    EventOn(r, past, e, n);
    if n in At(r, past).conns {
      ArrivedAs(r, past, n);
    }
  }

  /** An event that decides a connection. */
  lemma DecidingEvent(r: Rule, es: seq<Event>, e: Event, n: nat)
    requires n in Go(r, At(r, es), e).conns && Final(Go(r, At(r, es), e).conns[n].phase)
    requires n in At(r, es).conns ==> !Final(At(r, es).conns[n].phase)
    ensures e.Handle? && e.n == n && n in At(r, es).conns
    ensures Decides(r, At(r, es), Go(r, At(r, es), e), n, At(r, es).conns[n].ip, e.at)
    ensures Go(r, At(r, es), e).conns[n].ip == At(r, es).conns[n].ip
  {
    EventOn(r, es, e, n);
  }

  /** Event `i` of the run decided connection `n`, for good. */
  ghost predicate DecidedBy(r: Rule, es: seq<Event>, n: nat, i: nat) {
    && i < |es| && es[i].Handle? && es[i].n == n
    && n in At(r, es).conns && n in At(r, es[..i + 1]).conns && At(r, es[..i + 1]).conns[n] == At(r, es).conns[n]
    && Decides(r, At(r, es[..i]), At(r, es[..i + 1]), n, At(r, es).conns[n].ip, es[i].at)
  }

  lemma StaysDecided(r: Rule, es: seq<Event>, n: nat, i: nat)
    requires es != [] && DecidedBy(r, es[..|es| - 1], n, i)
    requires n in At(r, es).conns && At(r, es).conns[n] == At(r, es[..|es| - 1]).conns[n]
    ensures DecidedBy(r, es, n, i)
  {
    var past := es[..|es| - 1];
    assert past[..i] == es[..i] && past[..i + 1] == es[..i + 1];
  }

  lemma DecidedLast(r: Rule, es: seq<Event>, n: nat)
    requires es != [] && n in At(r, es).conns && Final(At(r, es).conns[n].phase)
    requires n in At(r, es[..|es| - 1]).conns ==> !Final(At(r, es[..|es| - 1]).conns[n].phase)
    ensures DecidedBy(r, es, n, |es| - 1)
  {
    assert es[..|es| - 1 + 1] == es;
    DecidingEvent(r, es[..|es| - 1], es[|es| - 1], n);
  }

  /**
    In every run, a decided connection was decided by one of its operations: denied exactly if the list does not allow
    the address it arrived with; otherwise handed to the balancer, as exactly one new task, if there is no rate limit or
    its client's own bucket grants it a token at that instant; and otherwise turned away.
  */
  lemma {:induction false} VerdictIsDue(r: Rule, es: seq<Event>, n: nat) returns (i: nat)
    requires n in At(r, es).conns && Final(At(r, es).conns[n].phase)
    ensures DecidedBy(r, es, n, i) && Arrive(n, At(r, es).conns[n].ip) in es
  {
    var past := es[..|es| - 1];
    ArrivedAs(r, es, n);
    if n in At(r, past).conns && Final(At(r, past).conns[n].phase) {
      EventOn(r, past, es[|es| - 1], n);
      i := VerdictIsDue(r, past, n);
      StaysDecided(r, es, n, i);
    } else {
      i := |es| - 1;
      DecidedLast(r, es, n);
    }
  }
}
