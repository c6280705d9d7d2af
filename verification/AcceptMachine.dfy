/**
  A rule at work: any number of acceptors and connection tasks at once. An acceptor takes a connection through the
  access-control list and the client's rate limit and spawns a task for it; that selects a backend, holds its guard
  and drops it, while reloads and health reports go on. Every operation on shared state is one step, and the steps of
  all connections interleave freely.
*/
module AcceptMachine {
  import opened Options
  import opened TokenBucket
  import opened Net
  import opened BackendConfigs
  import opened BalancerMachine
  import opened BalancerSafety
  import RateLimiting

  /** What a rule is configured with; `start` is when it starts. */
  datatype Rule = Rule(allowed: IpAddr -> bool, rateLimit: RateLimiting.RateLimitConfig, limit: Option<nat>,
                       backends: seq<BackendConfig>, start: real)
  {
    function Client(): Config {
      RateLimiting.ClientConfig(rateLimit)
    }
  }

  /** Where a connection is. */
  datatype Phase =
    | Arrived                     // ACL next
    | Permitted                   // rate limiter next: the map entry
    | Entered                     // the check of one token
    | DeniedByAcl
    | RateLimited
    | Spawned(at: real)           // handed to the balancer as a task

  datatype Conn = Conn(ip: IpAddr, phase: Phase)

  datatype Pipeline = Pipeline(
    conns: map<nat, Conn>,
    limiter: RateLimiting.Buckets,
    balancer: State,
    now: real,
    // History: no step reads these.
    steps: seq<RateLimiting.Step>,
    acts: seq<Action>)

  datatype Event =
    | Arrive(n: nat, ip: IpAddr)
    | Handle(n: nat, at: real)    // the acceptor's next operation on connection n
    | Balance(a: Action)          // a step of a spawned task, of a reload or of a health report

  function Begin(r: Rule): (p: Pipeline)
    ensures Ok(p.balancer)
  {
    InitOk(r.backends);
    Pipeline(map[], map[], Init(r.backends), r.start, [], [])
  }

  // ----- Steps --------------------------------------------------------------------------

  function SetConn(p: Pipeline, n: nat, ip: IpAddr, phase: Phase): Pipeline {
    p.(conns := p.conns[n := Conn(ip, phase)])
  }

  /** A step on the rate limiter. */
  function Limit(r: Rule, p: Pipeline, e: RateLimiting.Step): Pipeline {
    p.(limiter := RateLimiting.Do(r.Client(), p.limiter, e), steps := p.steps + [e], now := e.at)
  }

  function Act(r: Rule, p: Pipeline, a: Action): (p': Pipeline)
    requires Ok(p.balancer)
    ensures Ok(p'.balancer)
  {
    p.(balancer := Do(r.limit, p.balancer, a), acts := p.acts + [a])
  }

  /** An admitted connection becomes a task of the balancer. */
  function SpawnTask(r: Rule, p: Pipeline, n: nat, ip: IpAddr, at: real): (p': Pipeline)
    requires Ok(p.balancer)
    ensures Ok(p'.balancer)
  {
    Act(r, SetConn(p, n, ip, Spawned(at)), Spawn(n)).(now := at)
  }

  predicate Passes(r: Rule, p: Pipeline, ip: IpAddr, at: real) {
    ip in p.limiter && Acquire(r.Client(), p.limiter[ip], at, 1).1
  }

  function HandleAt(r: Rule, p: Pipeline, n: nat, at: real): (p': Pipeline)
    requires Ok(p.balancer) && n in p.conns
    ensures Ok(p'.balancer)
  {
    var ip := p.conns[n].ip;
    match p.conns[n].phase
    case Arrived =>
      if r.allowed(ip) then SetConn(p, n, ip, Permitted).(now := at)
      else SetConn(Limit(r, p, RateLimiting.Denied(ip, at)), n, ip, DeniedByAcl)
    case Permitted =>
      if r.rateLimit.enabled then SetConn(Limit(r, p, RateLimiting.Entered(ip, at)), n, ip, Entered)
      else SpawnTask(r, p, n, ip, at)
    case Entered =>
      var checked := Limit(r, p, RateLimiting.Checked(ip, at));
      if Passes(r, p, ip, at) then SpawnTask(r, checked, n, ip, at) else SetConn(checked, n, ip, RateLimited)
    case _ => p
  }

  /** An attempted event; one that does not apply has no effect. */
  function Go(r: Rule, p: Pipeline, e: Event): (p': Pipeline)
    requires Ok(p.balancer)
    ensures Ok(p'.balancer)
  {
    match e
    case Arrive(n, ip) => if n in p.conns then p else SetConn(p, n, ip, Arrived)
    case Handle(n, at) => if n in p.conns && p.now <= at then HandleAt(r, p, n, at) else p
    case Balance(a) => if a.Spawn? then p else Act(r, p, a)
  }

  /** The pipeline after a run. */
  function At(r: Rule, es: seq<Event>): (p: Pipeline)
    ensures Ok(p.balancer)
  {
    if es == [] then Begin(r) else Go(r, At(r, es[..|es| - 1]), es[|es| - 1])
  }

  // ----- The invariant ------------------------------------------------------------------

  /** The limiter is what its steps make of it. */
  ghost predicate LimiterSound(r: Rule, p: Pipeline) {
    && p.limiter == RateLimiting.DoAll(r.Client(), p.steps)
    && RateLimiting.WellFormed(r.Client(), r.start, p.steps)
    && RateLimiting.Clock(r.start, p.steps) <= p.now
  }

  /** Connections get where they are only through the list and the map entry, and tasks only through both checks. */
  ghost predicate Gated(r: Rule, p: Pipeline) {
    && (forall n <- p.conns :: p.conns[n].phase.Permitted? || p.conns[n].phase.Entered? || p.conns[n].phase.Spawned? ==>
          r.allowed(p.conns[n].ip))
    && (forall n <- p.conns :: p.conns[n].phase.Entered? ==> p.conns[n].ip in p.limiter)
    && (forall ip <- p.limiter :: r.allowed(ip) && r.rateLimit.enabled)
    && (forall n <- p.conns :: p.conns[n].phase.Spawned? ==> r.start <= p.conns[n].phase.at <= p.now)
    && r.start <= p.now
    && (forall t <- p.balancer.tasks :: t in p.conns && p.conns[t].phase.Spawned?)
  }

  lemma LimitSound(r: Rule, p: Pipeline, e: RateLimiting.Step)
    requires LimiterSound(r, p) && p.now <= e.at && (e.Checked? ==> e.ip in p.limiter)
    ensures LimiterSound(r, Limit(r, p, e))
  {
    RateLimiting.StepSnoc(r.Client(), r.start, p.steps, e);
  }

  lemma LimiterStep(r: Rule, p: Pipeline, e: Event)
    requires Ok(p.balancer) && LimiterSound(r, p) && Gated(r, p)
    ensures LimiterSound(r, Go(r, p, e))
  {
    if e.Handle? && e.n in p.conns && p.now <= e.at {
      var ip := p.conns[e.n].ip;
      match p.conns[e.n].phase
      case Arrived => LimitSound(r, p, RateLimiting.Denied(ip, e.at));
      case Permitted => LimitSound(r, p, RateLimiting.Entered(ip, e.at));
      case Entered => LimitSound(r, p, RateLimiting.Checked(ip, e.at));
      case _ =>
    }
  }

  lemma GatedLater(r: Rule, p: Pipeline, at: real)
    requires Gated(r, p) && p.now <= at
    ensures Gated(r, p.(now := at))
  {
  }

  lemma GatedLimit(r: Rule, p: Pipeline, e: RateLimiting.Step)
    requires Gated(r, p) && p.now <= e.at && (!e.Denied? ==> r.allowed(e.ip) && r.rateLimit.enabled)
    ensures Gated(r, Limit(r, p, e))
  {
  }

  /** What a connection must have behind it to be in a phase. */
  predicate MayBe(r: Rule, p: Pipeline, ip: IpAddr, phase: Phase) {
    && (phase.Permitted? || phase.Entered? || phase.Spawned? ==> r.allowed(ip))
    && (phase.Entered? ==> ip in p.limiter)
    && (phase.Spawned? ==> r.start <= phase.at <= p.now)
  }

  lemma GatedSetConn(r: Rule, p: Pipeline, n: nat, ip: IpAddr, phase: Phase)
    requires Gated(r, p) && n !in p.balancer.tasks && MayBe(r, p, ip, phase)
    ensures Gated(r, SetConn(p, n, ip, phase))
  {
  }

  lemma TasksAfter(limit: Option<nat>, s: State, a: Action)
    requires Ok(s)
    ensures forall t <- Do(limit, s, a).tasks :: t in s.tasks || a == Spawn(t)
  {
  }

  lemma GatedAct(r: Rule, p: Pipeline, a: Action)
    requires Ok(p.balancer) && Gated(r, p)
    requires a.Spawn? ==> a.t in p.conns && p.conns[a.t].phase.Spawned?
    ensures Gated(r, Act(r, p, a))
  {
    TasksAfter(r.limit, p.balancer, a);
  }

  lemma GatedSpawn(r: Rule, p: Pipeline, n: nat, ip: IpAddr, at: real)
    requires Ok(p.balancer) && Gated(r, p) && n !in p.balancer.tasks && r.allowed(ip) && p.now <= at
    ensures Gated(r, SpawnTask(r, p, n, ip, at))
  {
    var later := p.(now := at);
    GatedLater(r, p, at);
    GatedSetConn(r, later, n, ip, Spawned(at));
    GatedAct(r, SetConn(later, n, ip, Spawned(at)), Spawn(n));
    assert SpawnTask(r, p, n, ip, at) == Act(r, SetConn(later, n, ip, Spawned(at)), Spawn(n));
  }

  lemma GatedHandle(r: Rule, p: Pipeline, n: nat, at: real)
    requires Ok(p.balancer) && Gated(r, p) && n in p.conns && p.now <= at
    ensures Gated(r, HandleAt(r, p, n, at))
  {
    var ip := p.conns[n].ip;
    match p.conns[n].phase
    case Arrived =>
      if r.allowed(ip) {
        GatedSetConn(r, p, n, ip, Permitted);
        GatedLater(r, SetConn(p, n, ip, Permitted), at);
      } else {
        GatedLimit(r, p, RateLimiting.Denied(ip, at));
        GatedSetConn(r, Limit(r, p, RateLimiting.Denied(ip, at)), n, ip, DeniedByAcl);
      }
    case Permitted =>
      if r.rateLimit.enabled {
        GatedLimit(r, p, RateLimiting.Entered(ip, at));
        GatedSetConn(r, Limit(r, p, RateLimiting.Entered(ip, at)), n, ip, Entered);
      } else {
        GatedSpawn(r, p, n, ip, at);
      }
    case Entered =>
      var checked := Limit(r, p, RateLimiting.Checked(ip, at));
      GatedLimit(r, p, RateLimiting.Checked(ip, at));
      if Passes(r, p, ip, at) {
        GatedSpawn(r, checked, n, ip, at);
      } else {
        GatedSetConn(r, checked, n, ip, RateLimited);
      }
    case _ =>
  }

  lemma GatedStep(r: Rule, p: Pipeline, e: Event)
    requires Ok(p.balancer) && Gated(r, p)
    ensures Gated(r, Go(r, p, e))
  {
    match e
    case Arrive(n, ip) => if n !in p.conns { GatedSetConn(r, p, n, ip, Arrived); }
    case Handle(n, at) => if n in p.conns && p.now <= at { GatedHandle(r, p, n, at); }
    case Balance(a) => if !a.Spawn? { GatedAct(r, p, a); }
  }

  lemma {:induction false} Throughout(r: Rule, es: seq<Event>)
    ensures LimiterSound(r, At(r, es)) && Gated(r, At(r, es))
  {
    if es != [] {
      var past, e := es[..|es| - 1], es[|es| - 1];
      Throughout(r, past);
      LimiterStep(r, At(r, past), e);
      GatedStep(r, At(r, past), e);
    }
  }

  // ----- What the balancer sees ---------------------------------------------------------

  lemma ActReaches(r: Rule, p: Pipeline, a: Action)
    requires p.balancer == Reached(r.limit, r.backends, p.acts)
    ensures Act(r, p, a).balancer == Reached(r.limit, r.backends, Act(r, p, a).acts)
  {
    InitOk(r.backends);
    ExecSnoc(r.limit, Init(r.backends), p.acts, a);
  }

  /** Handling a connection does at most one thing to the balancer. */
  lemma HandleActs(r: Rule, p: Pipeline, n: nat, at: real)
    requires Ok(p.balancer) && n in p.conns
    ensures var p', q := HandleAt(r, p, n, at), Act(r, p, Spawn(n));
            || (p'.balancer == p.balancer && p'.acts == p.acts)
            || (p'.balancer == q.balancer && p'.acts == q.acts)
  {
  }

  lemma GoReaches(r: Rule, p: Pipeline, e: Event)
    requires Ok(p.balancer) && p.balancer == Reached(r.limit, r.backends, p.acts)
    ensures Go(r, p, e).balancer == Reached(r.limit, r.backends, Go(r, p, e).acts)
  {
    match e
    case Arrive(_, _) =>
    case Handle(n, at) =>
      ActReaches(r, p, Spawn(n));
      if n in p.conns { HandleActs(r, p, n, at); }
    case Balance(a) => ActReaches(r, p, a);
  }

  lemma {:induction false} ActsMakeBalancer(r: Rule, es: seq<Event>)
    ensures At(r, es).balancer == Reached(r.limit, r.backends, At(r, es).acts)
  {
    if es != [] {
      var p, e := At(r, es[..|es| - 1]), es[|es| - 1];
      ActsMakeBalancer(r, es[..|es| - 1]);
      GoReaches(r, p, e);
    }
  }

  /**
    In every run of the rule the balancer is in a state it reaches on its own, so everything proved of its runs holds;
    and it works only for connections that the list allows and an acceptor has handed over.
  */
  lemma BalancerServesAdmitted(r: Rule, es: seq<Event>)
    ensures var p := At(r, es);
            && p.balancer == Reached(r.limit, r.backends, p.acts)
            && forall t <- p.balancer.tasks :: t in p.conns && p.conns[t].phase.Spawned? && r.allowed(p.conns[t].ip)
  {
    ActsMakeBalancer(r, es);
    Throughout(r, es);
  }

  /** The connections of a client whose task is still alive. */
  function Live(p: Pipeline, ip: IpAddr): set<nat> {
    set t <- p.balancer.tasks | t in p.conns && p.conns[t].ip == ip
  }

  // ----- What a client gets -------------------------------------------------------------

  /** The connections of a client handed to the balancer between two instants. */
  function SpawnedIn(p: Pipeline, ip: IpAddr, s: real, t: real): set<nat> {
    set n <- p.conns | p.conns[n].ip == ip && p.conns[n].phase.Spawned? && s <= p.conns[n].phase.at <= t
  }

  /**
    At every point of every run, a check is answered as by the client's own bucket, whatever other clients do: if that
    grants it, the balancer gets exactly one new task, and otherwise the balancer does not notice.
  */
  lemma EntitledIsSpawned(r: Rule, es: seq<Event>, n: nat, at: real)
    requires var p := At(r, es); n in p.conns && p.conns[n].phase.Entered? && p.now <= at
    ensures var p, p' := At(r, es), Go(r, At(r, es), Handle(n, at));
            if RateLimiting.Entitled(r.Client(), r.start, p.steps, p.conns[n].ip, at) then
              p'.conns[n].phase == Spawned(at) && p'.balancer == p.balancer.(tasks := p.balancer.tasks[n := Started])
            else
              p'.conns[n].phase == RateLimited && p'.balancer == p.balancer
  {
    var p := At(r, es);
    Throughout(r, es);
    RateLimiting.ClientIsolation(r.Client(), r.start, p.steps, p.conns[n].ip, at);
    assert n !in p.balancer.tasks;
  }

  /** The account of one client and window: connections spawned are tokens granted by the client's own bucket. */
  ghost predicate Accounted(r: Rule, p: Pipeline, ip: IpAddr, s: real, t: real) {
    |SpawnedIn(p, ip, s, t)| == GrantsIn(r.Client(), Full(r.Client(), r.start), RateLimiting.Mine(p.steps, ip), s, t)
  }

  lemma SetConnSpawned(p: Pipeline, n: nat, who: IpAddr, phase: Phase, ip: IpAddr, s: real, t: real)
    requires n in p.conns ==> !p.conns[n].phase.Spawned?
    ensures SpawnedIn(SetConn(p, n, who, phase), ip, s, t)
         == SpawnedIn(p, ip, s, t) + if who == ip && phase.Spawned? && s <= phase.at <= t then {n} else {}
    ensures n !in SpawnedIn(p, ip, s, t)
  {
  }

  /** A step of the limiter grants the client a token exactly if it is the client's check and it passes. */
  lemma GrantSnoc(r: Rule, p: Pipeline, e: RateLimiting.Step, ip: IpAddr, s: real, t: real)
    requires LimiterSound(r, p) && p.now <= e.at && (e.Checked? ==> e.ip in p.limiter)
    ensures var c := r.Client();
            var g := GrantsIn(c, Full(c, r.start), RateLimiting.Mine(p.steps, ip), s, t);
            GrantsIn(c, Full(c, r.start), RateLimiting.Mine(p.steps + [e], ip), s, t)
            == g + if e.Checked? && e.ip == ip && Passes(r, p, ip, e.at) && s <= e.at <= t then 1 else 0
  {
    var c, mine := r.Client(), RateLimiting.Mine(p.steps, ip);
    RateLimiting.StepSnoc(c, r.start, p.steps, e);
    if e == RateLimiting.Checked(ip, e.at) {
      var more := mine + [Request(e.at, 1)];
      assert more[..|more| - 1] == mine;
      RateLimiting.ClientIsolation(c, r.start, p.steps, ip, e.at);
    } else {
      assert RateLimiting.Mine(p.steps + [e], ip) == mine;
    }
  }

  lemma AccountedHandle(r: Rule, p: Pipeline, n: nat, at: real, ip: IpAddr, s: real, t: real)
    requires Ok(p.balancer) && LimiterSound(r, p) && Gated(r, p) && n in p.conns && p.now <= at && r.rateLimit.enabled
    requires Accounted(r, p, ip, s, t)
    ensures Accounted(r, HandleAt(r, p, n, at), ip, s, t)
  {
    var who := p.conns[n].ip;
    var p' := HandleAt(r, p, n, at);
    match p.conns[n].phase
    case Arrived =>
      SetConnSpawned(p, n, who, p'.conns[n].phase, ip, s, t);
      GrantSnoc(r, p, RateLimiting.Denied(who, at), ip, s, t);
    case Permitted =>
      SetConnSpawned(p, n, who, Entered, ip, s, t);
      GrantSnoc(r, p, RateLimiting.Entered(who, at), ip, s, t);
    case Entered =>
      SetConnSpawned(p, n, who, p'.conns[n].phase, ip, s, t);
      GrantSnoc(r, p, RateLimiting.Checked(who, at), ip, s, t);
    case _ =>
  }

  lemma {:induction false} AccountedThroughout(r: Rule, es: seq<Event>, ip: IpAddr, s: real, t: real)
    requires r.rateLimit.enabled
    ensures Accounted(r, At(r, es), ip, s, t)
  {
    if es == [] {
      assert SpawnedIn(At(r, es), ip, s, t) == {};
    } else {
      var p, e := At(r, es[..|es| - 1]), es[|es| - 1];
      AccountedThroughout(r, es[..|es| - 1], ip, s, t);
      Throughout(r, es[..|es| - 1]);
      match e
      case Arrive(n, who) => if n !in p.conns { SetConnSpawned(p, n, who, Arrived, ip, s, t); }
      case Handle(n, at) => if n in p.conns && p.now <= at { AccountedHandle(r, p, n, at, ip, s, t); }
      case Balance(a) => assert SpawnedIn(At(r, es), ip, s, t) == SpawnedIn(p, ip, s, t);
    }
  }

  lemma SpawnedWithinGrants(r: Rule, es: seq<Event>, ip: IpAddr, s: real, t: real)
    requires r.rateLimit.enabled && s <= t
    ensures |SpawnedIn(At(r, es), ip, s, t)| as real <= r.Client().burst as real + Accrual(r.Client(), s, t)
  {
    var p := At(r, es);
    AccountedThroughout(r, es, ip, s, t);
    Throughout(r, es);
    MineOrdered(r, p, ip);
    AnyWindowBound(r.Client(), r.start, RateLimiting.Mine(p.steps, ip), s, t);
  }

  /**
    What a rate-limited rule promises each client, over all acceptors and whatever everyone else does: in any window of
    time, at most burst + requestsPerSecond * length of its connections get through to the balancer (a configured zero
    counts as one).
  */
  lemma ClientWindow(r: Rule, es: seq<Event>, ip: IpAddr, s: real, t: real)
    requires r.rateLimit.enabled && s <= t
    ensures var burst := if r.rateLimit.burst == 0 then 1 else r.rateLimit.burst;
            var rate := if r.rateLimit.requestsPerSecond == 0 then 1 else r.rateLimit.requestsPerSecond;
            |SpawnedIn(At(r, es), ip, s, t)| as real <= burst as real + Accrual(Config(rate, burst), s, t)
  {
    SpawnedWithinGrants(r, es, ip, s, t);
  }

  lemma MineOrdered(r: Rule, p: Pipeline, ip: IpAddr)
    requires LimiterSound(r, p)
    ensures Ordered(r.start, RateLimiting.Mine(p.steps, ip))
  {
    var created := RateLimiting.EachHasOwnBucket(r.Client(), r.start, p.steps, ip);
    if ip in p.limiter {
      RateLimiting.StillOrdered(r.start, created, RateLimiting.Mine(p.steps, ip));
    }
  }

  /** So a client's open connections are bounded by what its bucket can have granted since the start. */
  lemma ClientLive(r: Rule, es: seq<Event>, ip: IpAddr)
    requires r.rateLimit.enabled
    ensures var p := At(r, es);
            var burst := if r.rateLimit.burst == 0 then 1 else r.rateLimit.burst;
            var rate := if r.rateLimit.requestsPerSecond == 0 then 1 else r.rateLimit.requestsPerSecond;
            |Live(p, ip)| as real <= burst as real + Accrual(Config(rate, burst), r.start, p.now)
  {
    LiveWereSpawned(r, es, ip);
    Throughout(r, es);
    ClientWindow(r, es, ip, r.start, At(r, es).now);
  }

  lemma LiveWereSpawned(r: Rule, es: seq<Event>, ip: IpAddr)
    ensures |Live(At(r, es), ip)| <= |SpawnedIn(At(r, es), ip, r.start, At(r, es).now)|
  {
    var p := At(r, es);
    Throughout(r, es);
    SubsetSize(Live(p, ip), SpawnedIn(p, ip, r.start, p.now));
  }
}
