/**
  What holds in every reachable state of the balancer, under every interleaving: counters equal live guards,
  and the connection limit is exceeded by at most the calls in flight.
*/
module BalancerSafety {
  import opened Options
  import opened Rotation
  import opened BackendConfigs
  import opened BalancerMachine

  /** The state after a run of attempted actions from a new balancer. */
  ghost function Reached(limit: Option<nat>, configs: seq<BackendConfig>, acts: seq<Action>): (s: State)
    ensures Ok(s)
  {
    InitOk(configs);
    Exec(limit, Init(configs), acts)
  }

  /** The run of one more action. */
  lemma Extend(limit: Option<nat>, configs: seq<BackendConfig>, acts: seq<Action>, a: Action)
    returns (more: seq<Action>)
    requires Enabled(Reached(limit, configs, acts), a)
    ensures Reached(limit, configs, more) == Next(limit, Reached(limit, configs, acts), a)
  {
    more := acts + [a];
    ExecSnoc(limit, Init(configs), acts, a);
  }

  lemma CountZero(tasks: map<nat, Task>, p: Task -> bool)
    requires forall t <- tasks :: !p(tasks[t])
    ensures Count(tasks, p) == 0
  {
    assert Those(tasks, p) == {};
  }

  // ----- Counters equal guards ----------------------------------------------------------

  /** Every object's counter is the number of its live guards, as a 64-bit word. */
  ghost predicate CountersMatch(s: State) {
    forall b: Id :: b < |s.store| ==> s.store[b].active == Count(s.tasks, On(b)) % WORD
  }

  lemma NobodyOnNewIds(s: State, b: Id)
    requires Ok(s) && |s.store| <= b
    ensures Count(s.tasks, On(b)) == 0
  {
    CountZero(s.tasks, On(b));
  }

  /** Only a connection task changes a counter; objects never go away, and new ones start at zero. */
  lemma ActiveAfter(limit: Option<nat>, s: State, a: Action, b: Id)
    requires Ok(s) && Enabled(s, a) && b < |Next(limit, s, a).store|
    ensures |s.store| <= |Next(limit, s, a).store|
    ensures b < |s.store| ==> Next(limit, s, a).store[b].addr == s.store[b].addr
    ensures !a.Advance? ==> Next(limit, s, a).store[b].active == if b < |s.store| then s.store[b].active else 0
  {
    if a.ReloadNext? {
      FindBelow(s.store, s.reloader.snap, s.reloader.configs[|s.reloader.built|].Addr());
    }
  }

  lemma WordUpDown(n: nat)
    ensures Up(n % WORD) == (n + 1) % WORD
    ensures Down((n + 1) % WORD) == n % WORD
  {
  }

  lemma CountersAdvance(limit: Option<nat>, s: State, t: nat, b: Id)
    requires Ok(s) && t in s.tasks && b < |s.store| && s.store[b].active == Count(s.tasks, On(b)) % WORD
    ensures var s' := TaskStep(limit, s, t);
            s'.store[b].active == Count(s'.tasks, On(b)) % WORD
  {
    var k := s.tasks[t];
    var k' := After(limit, s, k);
    assert TaskOk(k, |s.store|);
    CountPut(s.tasks, t, k', On(b));
    var n := Count(s.tasks, On(b));
    WordUpDown(n);
    if n > 0 { WordUpDown(n - 1); }
    if Increments(k) {
      assert k'.Some? && On(b)(k'.value) == (Target(k) == b) && !On(b)(k);
    } else if k.Holding? {
      assert On(b)(k) == (k.b == b) && !On(b)(k'.value);
    } else {
      assert On(b)(k) == (k'.Some? && On(b)(k'.value));
    }
  }

  lemma CountersStep(limit: Option<nat>, s: State, a: Action)
    requires Ok(s) && Enabled(s, a) && CountersMatch(s)
    ensures CountersMatch(Next(limit, s, a))
  {
    var s' := Next(limit, s, a);
    forall b: Id | b < |s'.store|
      ensures s'.store[b].active == Count(s'.tasks, On(b)) % WORD
    {
      ActiveAfter(limit, s, a, b);
      if |s.store| <= b { NobodyOnNewIds(s, b); }
      match a
      case Spawn(t) => CountSet(s.tasks, t, Started, On(b));
      case Advance(t) => CountersAdvance(limit, s, t, b);
      case _ =>
    }
  }

  lemma {:induction false} CountersThroughout(limit: Option<nat>, s: State, acts: seq<Action>)
    requires Ok(s) && CountersMatch(s)
    ensures CountersMatch(Exec(limit, s, acts))
    decreases |acts|
  {
    if acts != [] {
      if Enabled(s, acts[0]) { CountersStep(limit, s, acts[0]); }
      CountersThroughout(limit, Do(limit, s, acts[0]), acts[1..]);
    }
  }

  /**
    In every reachable state, for every object ever created, listed or not, the counter is the number of its
    live guards. So a drop never underflows, and when all guards are dropped the counter is back at zero.
  */
  lemma CounterEqualsGuards(limit: Option<nat>, configs: seq<BackendConfig>, acts: seq<Action>, b: Id)
    requires b < |Reached(limit, configs, acts).store|
    ensures var s := Reached(limit, configs, acts);
            && s.store[b].active == Count(s.tasks, On(b)) % WORD
            && (Count(s.tasks, On(b)) == 0 ==> s.store[b].active == 0)
            && (forall t <- s.tasks :: s.tasks[t].Holding? && s.tasks[t].b == b && Count(s.tasks, On(b)) < WORD
                 ==> s.store[b].active > 0)
  {
    InitOk(configs);
    var s := Reached(limit, configs, acts);
    assert CountersMatch(Init(configs)) by {
      forall i: Id | i < |configs| ensures Count(Init(configs).tasks, On(i)) == 0 {
        CountZero(Init(configs).tasks, On(i));
      }
    }
    CountersThroughout(limit, Init(configs), acts);
    forall t | t in s.tasks && s.tasks[t].Holding? && s.tasks[t].b == b && Count(s.tasks, On(b)) < WORD
      ensures s.store[b].active > 0
    {
      CountSet(s.tasks, t, s.tasks[t], On(b));
    }
  }

  lemma CounterIsWord(limit: Option<nat>, configs: seq<BackendConfig>, acts: seq<Action>, b: Id)
    requires b < |Reached(limit, configs, acts).store|
    ensures Reached(limit, configs, acts).store[b].active < WORD
  {
    CounterEqualsGuards(limit, configs, acts, b);
  }

  // ----- The connection limit -----------------------------------------------------------

  /** A call to `next_backend` under way: from its first operation, the load of the list, until it returns. */
  function InCall(): Task -> bool {
    (k: Task) => k.Loaded? || k.Probing? || k.Counted?
  }

  /** A call that saw backend `b` below the limit and is about to increment its counter. */
  function AdmittedTo(b: Id): Task -> bool {
    (k: Task) => Increments(k) && k.snap != [] && Target(k) == b
  }

  /** At most `n` calls are in flight, now and after each of the actions. */
  ghost predicate AtMost(n: nat, limit: Option<nat>, s: State, acts: seq<Action>)
    requires Ok(s)
    decreases |acts|
  {
    && Count(s.tasks, InCall()) <= n
    && (acts != [] ==> AtMost(n, limit, Do(limit, s, acts[0]), acts[1..]))
  }

  /** The most connections a backend can have: none if the limit is zero, else the limit plus the other calls. */
  function Ceiling(limit: nat, calls: nat): nat {
    if limit == 0 || calls == 0 then 0 else limit + calls - 1
  }

  ghost predicate BelowCeiling(limit: nat, calls: nat, s: State) {
    && CountersMatch(s)
    && forall b: Id :: Count(s.tasks, On(b)) + Count(s.tasks, AdmittedTo(b)) <= Ceiling(limit, calls)
  }

  lemma CountMonotone(tasks: map<nat, Task>, p: Task -> bool, q: Task -> bool)
    requires forall t <- tasks :: p(tasks[t]) ==> q(tasks[t])
    ensures Count(tasks, p) <= Count(tasks, q)
  {
    SubsetSize(Those(tasks, p), Those(tasks, q));
  }

  lemma {:induction false} SubsetSize(x: set<nat>, y: set<nat>)
    requires x <= y
    ensures |x| <= |y|
  {
    assert y == x + (y - x);
  }

  /** A task is admitted to `b` by reading its counter below the limit. */
  lemma AdmissionReadsCounter(limit: nat, s: State, k: Task, b: Id)
    requires Ok(s) && TaskOk(k, |s.store|)
    requires After(Some(limit), s, k).Some? && AdmittedTo(b)(After(Some(limit), s, k).value)
    ensures b < |s.store| && s.store[b].active < limit && !On(b)(k) && !AdmittedTo(b)(k)
  {
  }

  lemma AdmittedIsInCall(tasks: map<nat, Task>, t: nat, b: Id)
    requires t in tasks && AdmittedTo(b)(tasks[t])
    ensures 0 < Count(tasks, AdmittedTo(b)) <= Count(tasks, InCall())
  {
    CountMonotone(tasks, AdmittedTo(b), InCall());
    CountSet(tasks, t, tasks[t], AdmittedTo(b));
  }

  /** A task that is not just being admitted to `b` takes no new place on it. */
  lemma NoNewPlace(limit: nat, s: State, k: Task, b: Id)
    requires Ok(s) && TaskOk(k, |s.store|)
    ensures var k' := After(Some(limit), s, k);
            k'.Some? && !AdmittedTo(b)(k'.value) ==> (On(b)(k'.value) ==> On(b)(k) || AdmittedTo(b)(k))
  {
  }

  lemma CeilingAdvance(limit: nat, calls: nat, s: State, t: nat, b: Id)
    requires Ok(s) && t in s.tasks && BelowCeiling(limit, calls, s) && Ceiling(limit, calls) < WORD
    requires Count(TaskStep(Some(limit), s, t).tasks, InCall()) <= calls
    ensures var s' := TaskStep(Some(limit), s, t);
            Count(s'.tasks, On(b)) + Count(s'.tasks, AdmittedTo(b)) <= Ceiling(limit, calls)
  {
    var k, tasks' := s.tasks[t], TaskStep(Some(limit), s, t).tasks;
    var k' := After(Some(limit), s, k);
    assert TaskOk(k, |s.store|);
    assert Count(s.tasks, On(b)) + Count(s.tasks, AdmittedTo(b)) <= Ceiling(limit, calls);
    CountPut(s.tasks, t, k', On(b));
    CountPut(s.tasks, t, k', AdmittedTo(b));
    if k'.Some? && AdmittedTo(b)(k'.value) {
      AdmissionReadsCounter(limit, s, k, b);
      assert Count(tasks', On(b)) < limit;
      AdmittedIsInCall(tasks', t, b);
    } else {
      NoNewPlace(limit, s, k, b);
    }
  }

  lemma CeilingStep(limit: nat, calls: nat, s: State, a: Action, b: Id)
    requires Ok(s) && Enabled(s, a) && BelowCeiling(limit, calls, s) && Ceiling(limit, calls) < WORD
    requires Count(Next(Some(limit), s, a).tasks, InCall()) <= calls
    ensures var s' := Next(Some(limit), s, a);
            Count(s'.tasks, On(b)) + Count(s'.tasks, AdmittedTo(b)) <= Ceiling(limit, calls)
  {
    assert Count(s.tasks, On(b)) + Count(s.tasks, AdmittedTo(b)) <= Ceiling(limit, calls);
    match a
    case Spawn(t) =>
      CountSet(s.tasks, t, Started, On(b));
      CountSet(s.tasks, t, Started, AdmittedTo(b));
    case Advance(t) => CeilingAdvance(limit, calls, s, t, b);
    case _ =>
  }

  lemma {:induction false} CeilingThroughout(limit: nat, calls: nat, s: State, acts: seq<Action>)
    requires Ok(s) && BelowCeiling(limit, calls, s) && Ceiling(limit, calls) < WORD
    requires AtMost(calls, Some(limit), s, acts)
    ensures BelowCeiling(limit, calls, Exec(Some(limit), s, acts))
    decreases |acts|
  {
    if acts != [] {
      if Enabled(s, acts[0]) {
        var s' := Next(Some(limit), s, acts[0]);
        assert s' == Do(Some(limit), s, acts[0]);
        CountersStep(Some(limit), s, acts[0]);
        forall b: Id ensures Count(s'.tasks, On(b)) + Count(s'.tasks, AdmittedTo(b)) <= Ceiling(limit, calls) {
          CeilingStep(limit, calls, s, acts[0], b);
        }
      }
      CeilingThroughout(limit, calls, Do(Some(limit), s, acts[0]), acts[1..]);
    }
  }

  lemma InitBelowCeiling(limit: nat, calls: nat, configs: seq<BackendConfig>)
    ensures Ok(Init(configs)) && BelowCeiling(limit, calls, Init(configs))
  {
    InitOk(configs);
    var s := Init(configs);
    forall b: Id ensures Count(s.tasks, On(b)) == 0 && Count(s.tasks, AdmittedTo(b)) == 0 {
      CountZero(s.tasks, On(b));
      CountZero(s.tasks, AdmittedTo(b));
    }
  }

  /**
    With at most `calls` calls in flight at a time, the load and the increment being separate, no counter ever
    exceeds limit + calls - 1; with one call at a time it never exceeds the limit, and a limit of zero admits nothing.
  */
  lemma ConnectionLimit(limit: nat, calls: nat, configs: seq<BackendConfig>, acts: seq<Action>, b: Id)
    requires Ok(Init(configs)) && AtMost(calls, Some(limit), Init(configs), acts)
    requires b < |Reached(Some(limit), configs, acts).store|
    ensures Reached(Some(limit), configs, acts).store[b].active <= Ceiling(limit, calls)
  {
    InitBelowCeiling(limit, calls, configs);
    if Ceiling(limit, calls) < WORD {
      CeilingThroughout(limit, calls, Init(configs), acts);
    } else {
      CounterIsWord(Some(limit), configs, acts, b);
    }
  }
}
