/**
  The connection limit is not strict, and exactly how far it gives: for every limit and every number of calls in
  flight, some run reaches the ceiling proved in `BalancerSafety`. Hence the limit holds in every run if and only
  if calls never overlap, or it is zero or the largest word.
*/
module BalancerLimit {
  import opened Options
  import opened Rotation
  import opened BackendConfigs
  import opened BalancerMachine
  import opened BalancerSafety

  // ----- Reaching a state with a bounded number of calls in flight ----------------------

  ghost predicate Leads(n: nat, limit: Option<nat>, s: State, acts: seq<Action>, s': State) {
    Ok(s) && AtMost(n, limit, s, acts) && Exec(limit, s, acts) == s'
  }

  ghost predicate CanReach(n: nat, limit: Option<nat>, s: State, s': State) {
    exists acts :: Leads(n, limit, s, acts, s')
  }

  lemma ReachByOne(n: nat, limit: Option<nat>, s: State, a: Action)
    requires Ok(s) && Count(s.tasks, InCall()) <= n && Count(Do(limit, s, a).tasks, InCall()) <= n
    ensures CanReach(n, limit, s, Do(limit, s, a))
  {
    assert AtMost(n, limit, Do(limit, s, a), []);
    assert [a][1..] == [];
    assert Leads(n, limit, s, [a], Do(limit, s, a));
  }

  lemma LeadsRest(n: nat, limit: Option<nat>, s: State, a: Action, rest: seq<Action>, s': State)
    requires Leads(n, limit, s, [a] + rest, s')
    ensures Count(s.tasks, InCall()) <= n && Leads(n, limit, Do(limit, s, a), rest, s')
  {
    ExecCons(limit, s, a, rest);
    assert ([a] + rest)[1..] == rest;
  }

  lemma LeadsFirst(n: nat, limit: Option<nat>, s: State, a: Action, rest: seq<Action>, s': State)
    requires Ok(s) && Count(s.tasks, InCall()) <= n && Leads(n, limit, Do(limit, s, a), rest, s')
    ensures Leads(n, limit, s, [a] + rest, s')
  {
    ExecCons(limit, s, a, rest);
    assert ([a] + rest)[1..] == rest;
  }

  lemma {:induction false} LeadsOn(n: nat, limit: Option<nat>, s: State, acts: seq<Action>, s': State,
                                   acts': seq<Action>, s'': State)
    requires Leads(n, limit, s, acts, s') && Leads(n, limit, s', acts', s'')
    ensures Leads(n, limit, s, acts + acts', s'')
    decreases |acts|
  {
    if acts == [] {
      assert acts + acts' == acts';
    } else {
      var a, rest := acts[0], acts[1..];
      assert acts == [a] + rest;
      LeadsRest(n, limit, s, a, rest, s');
      LeadsOn(n, limit, Do(limit, s, a), rest, s', acts', s'');
      LeadsFirst(n, limit, s, a, rest + acts', s'');
      assert acts + acts' == [a] + (rest + acts');
    }
  }

  lemma ReachOn(n: nat, limit: Option<nat>, s: State, s': State, s'': State)
    requires CanReach(n, limit, s, s') && CanReach(n, limit, s', s'')
    ensures CanReach(n, limit, s, s'')
  {
    var acts :| Leads(n, limit, s, acts, s');
    var acts' :| Leads(n, limit, s', acts', s'');
    LeadsOn(n, limit, s, acts, s', acts', s'');
  }

  lemma ReachSelf(n: nat, limit: Option<nat>, s: State)
    requires Ok(s) && Count(s.tasks, InCall()) <= n
    ensures CanReach(n, limit, s, s)
  {
    assert Leads(n, limit, s, [], s);
  }

  // ----- One backend under load ---------------------------------------------------------

  ghost predicate Admitted(k: Task) {
    Increments(k) && k.snap == [0] && k.i == 0 && k.ticket < WORD
  }

  /**
    One healthy backend; tasks 0, 1, 2, ... of which the first hold guards, the next have just incremented, the rest
    are admitted.
  */
  ghost predicate Loadedness(s: State, held: nat, counted: nat, admitted: nat) {
    && Ok(s) && s.list == [0] && |s.store| == 1
    && s.store[0].active == held + counted && s.store[0].healthy && !s.store[0].drain
    && (forall t: nat :: t in s.tasks <==> t < held + counted + admitted)
    && (forall t :: 0 <= t < held ==> s.tasks[t].Holding?)
    && (forall t :: held <= t < held + counted ==> s.tasks[t].Counted?)
    && (forall t :: held + counted <= t < held + counted + admitted ==> Admitted(s.tasks[t]))
    && Count(s.tasks, InCall()) == counted + admitted
  }

  lemma ProbeOfOne(ticket: nat)
    ensures Probe(ticket, 0, 1) == 0
  {
  }

  /** The balancer is as in `s` but for the ticket counter and task `t`, which is at `k`. */
  ghost predicate Differs(s: State, s': State, t: nat, k: Task) {
    && Ok(s') && s'.store == s.store && s'.list == s.list
    && s'.tasks == s.tasks[t := k]
    && Count(s'.tasks, InCall()) == Count(s.tasks, InCall()) + 1
  }

  /** Task `t`, in a call, moves one step on without touching the store. */
  lemma OneStep(n: nat, limit: Option<nat>, s: State, s': State, t: nat, k: Task, k': Task) returns (s'': State)
    requires t !in s.tasks && Differs(s, s', t, k) && CanReach(n, limit, s, s') && Count(s.tasks, InCall()) < n
    requires TaskOk(k, |s'.store|) && InCall()(k) && !Increments(k) && After(limit, s', k) == Some(k') && InCall()(k')
    ensures Differs(s, s'', t, k') && CanReach(n, limit, s, s'')
    ensures !k.Loaded? ==> s''.current == s'.current
  {
    s'' := Do(limit, s', Advance(t));
    CountSet(s'.tasks, t, k', InCall());
    assert s''.tasks == s.tasks[t := k'];
    ReachByOne(n, limit, s', Advance(t));
    ReachOn(n, limit, s, s', s'');
  }

  ghost predicate OpenSingle(limit: nat, s: State) {
    && Ok(s) && s.list == [0] && |s.store| == 1
    && s.store[0].active < limit && s.store[0].healthy && !s.store[0].drain
  }

  lemma WalkToLoad(limit: nat, calls: nat, s: State, t: nat) returns (s': State)
    requires OpenSingle(limit, s) && t !in s.tasks && Count(s.tasks, InCall()) < calls
    ensures Differs(s, s', t, Loaded([0])) && CanReach(calls, Some(limit), s, s')
  {
    var s1 := Do(Some(limit), s, Spawn(t));
    CountSet(s.tasks, t, Started, InCall());
    ReachByOne(calls, Some(limit), s, Spawn(t));
    s' := Do(Some(limit), s1, Advance(t));
    CountSet(s.tasks, t, Loaded([0]), InCall());
    assert s'.tasks == s.tasks[t := Loaded([0])];
    ReachByOne(calls, Some(limit), s1, Advance(t));
    ReachOn(calls, Some(limit), s, s1, s');
  }

  lemma WalkToProbe(limit: nat, calls: nat, s: State, t: nat) returns (s': State, ticket: nat)
    requires OpenSingle(limit, s) && t !in s.tasks && Count(s.tasks, InCall()) < calls
    ensures ticket < WORD && Differs(s, s', t, Probing(ReadDrain, [0], ticket, 0))
    ensures CanReach(calls, Some(limit), s, s')
  {
    s' := WalkToLoad(limit, calls, s, t);
    ticket := s'.current;
    s' := OneStep(calls, Some(limit), s, s', t, Loaded([0]), Probing(ReadDrain, [0], ticket, 0));
  }

  lemma WalkToIncrement(limit: nat, calls: nat, s: State, t: nat) returns (s': State, ticket: nat)
    requires OpenSingle(limit, s) && t !in s.tasks && Count(s.tasks, InCall()) < calls
    ensures ticket < WORD && Differs(s, s', t, Probing(Increment, [0], ticket, 0))
    ensures CanReach(calls, Some(limit), s, s')
  {
    s', ticket := WalkToProbe(limit, calls, s, t);
    ProbeOfOne(ticket);
    var k1, k2 := Probing(ReadDrain, [0], ticket, 0), Probing(ReadHealth, [0], ticket, 0);
    var k3, k4 := Probing(ReadCount, [0], ticket, 0), Probing(Increment, [0], ticket, 0);
    s' := OneStep(calls, Some(limit), s, s', t, k1, k2);
    s' := OneStep(calls, Some(limit), s, s', t, k2, k3);
    s' := OneStep(calls, Some(limit), s, s', t, k3, k4);
  }

  /** A new call can be walked up to the point where it has read the counter and not yet incremented it. */
  lemma AdmitOneMore(limit: nat, calls: nat, s: State, held: nat, admitted: nat) returns (s': State)
    requires Loadedness(s, held, 0, admitted) && held < limit && admitted < calls
    ensures Loadedness(s', held, 0, admitted + 1) && CanReach(calls, Some(limit), s, s')
  {
    var ticket;
    s', ticket := WalkToIncrement(limit, calls, s, held + admitted);
  }

  /** An admitted call increments the counter, whatever it has become. */
  lemma CountOneMore(limit: nat, calls: nat, s: State, held: nat, counted: nat, admitted: nat) returns (s': State)
    requires Loadedness(s, held, counted, admitted) && 0 < admitted
    requires counted + admitted <= calls && held + counted + 1 < WORD
    ensures Loadedness(s', held, counted + 1, admitted - 1) && CanReach(calls, Some(limit), s, s')
  {
    var t := held + counted;
    var k := s.tasks[t];
    ProbeOfOne(k.ticket);
    assert Admitted(k) && Target(k) == 0;
    assert After(Some(limit), s, k) == Some(Counted(0, s.store[0].addr));
    s' := Do(Some(limit), s, Advance(t));
    CountSet(s.tasks, t, Counted(0, s.store[0].addr), InCall());
    ReachByOne(calls, Some(limit), s, Advance(t));
  }

  /** The call returns and its guard is held. */
  lemma HoldOne(limit: nat, calls: nat, s: State, held: nat) returns (s': State)
    requires Loadedness(s, held, 1, 0) && 1 <= calls
    ensures Loadedness(s', held + 1, 0, 0) && CanReach(calls, Some(limit), s, s')
  {
    s' := Do(Some(limit), s, Advance(held));
    CountSet(s.tasks, held, Holding(s.tasks[held].b, s.tasks[held].addr), InCall());
    ReachByOne(calls, Some(limit), s, Advance(held));
  }

  lemma {:induction false} HoldMany(limit: nat, calls: nat, s: State, n: nat) returns (s': State)
    requires Loadedness(s, 0, 0, 0) && n <= limit < WORD && 1 <= calls
    ensures Loadedness(s', n, 0, 0) && CanReach(calls, Some(limit), s, s')
    decreases n
  {
    if n == 0 {
      s' := s;
      ReachSelf(calls, Some(limit), s);
    } else {
      var s1 := HoldMany(limit, calls, s, n - 1);
      var s2 := AdmitOneMore(limit, calls, s1, n - 1, 0);
      var s3 := CountOneMore(limit, calls, s2, n - 1, 0, 1);
      s' := HoldOne(limit, calls, s3, n - 1);
      ReachOn(calls, Some(limit), s, s1, s2);
      ReachOn(calls, Some(limit), s, s2, s3);
      ReachOn(calls, Some(limit), s, s3, s');
    }
  }

  lemma {:induction false} AdmitMany(limit: nat, calls: nat, s: State, held: nat, n: nat) returns (s': State)
    requires Loadedness(s, held, 0, 0) && held < limit && n <= calls
    ensures Loadedness(s', held, 0, n) && CanReach(calls, Some(limit), s, s')
    decreases n
  {
    if n == 0 {
      s' := s;
      ReachSelf(calls, Some(limit), s);
    } else {
      var s1 := AdmitMany(limit, calls, s, held, n - 1);
      s' := AdmitOneMore(limit, calls, s1, held, n - 1);
      ReachOn(calls, Some(limit), s, s1, s');
    }
  }

  lemma {:induction false} CountMany(limit: nat, calls: nat, s: State, held: nat, n: nat) returns (s': State)
    requires n <= calls && held + calls < WORD && Loadedness(s, held, 0, calls)
    ensures Loadedness(s', held, n, calls - n) && CanReach(calls, Some(limit), s, s')
    decreases n
  {
    if n == 0 {
      s' := s;
      ReachSelf(calls, Some(limit), s);
    } else {
      var s1 := CountMany(limit, calls, s, held, n - 1);
      s' := CountOneMore(limit, calls, s1, held, n - 1, calls - n + 1);
      ReachOn(calls, Some(limit), s, s1, s');
    }
  }

  // ----- Theorems -----------------------------------------------------------------------

  /**
    The ceiling is reached: with `calls` calls in flight at a time some run drives a counter to exactly limit + calls
    - 1.
  */
  lemma CeilingIsReached(limit: nat, calls: nat, addr: string) returns (acts: seq<Action>)
    requires limit > 0 && calls > 0 && Ceiling(limit, calls) < WORD
    ensures Ok(Init([Simple(addr)])) && AtMost(calls, Some(limit), Init([Simple(addr)]), acts)
    ensures var s := Reached(Some(limit), [Simple(addr)], acts);
            |s.store| == 1 && s.store[0].active == Ceiling(limit, calls)
  {
    var s0 := Init([Simple(addr)]);
    InitOk([Simple(addr)]);
    CountZero(s0.tasks, InCall());
    assert Loadedness(s0, 0, 0, 0);
    var s1 := HoldMany(limit, calls, s0, limit - 1);
    var s2 := AdmitMany(limit, calls, s1, limit - 1, calls);
    var s3 := CountMany(limit, calls, s2, limit - 1, calls);
    ReachOn(calls, Some(limit), s0, s1, s2);
    ReachOn(calls, Some(limit), s0, s2, s3);
    acts :| Leads(calls, Some(limit), s0, acts, s3);
  }

  /** In every run with at most `calls` calls in flight, no counter exceeds the limit. */
  ghost predicate LimitRespected(limit: nat, calls: nat) {
    forall configs, acts, b: Id ::
      (Ok(Init(configs)) && AtMost(calls, Some(limit), Init(configs), acts)
       && b < |Reached(Some(limit), configs, acts).store|)
      ==> Reached(Some(limit), configs, acts).store[b].active <= limit
  }

  lemma {:induction false} AtMostMore(n: nat, m: nat, limit: Option<nat>, s: State, acts: seq<Action>)
    requires Ok(s) && n <= m && AtMost(n, limit, s, acts)
    ensures AtMost(m, limit, s, acts)
    decreases |acts|
  {
    if acts != [] {
      AtMostMore(n, m, limit, Do(limit, s, acts[0]), acts[1..]);
    }
  }

  /** Some run with two or more calls in flight exceeds every limit that is neither zero nor the largest word. */
  lemma LimitExceeded(limit: nat, calls: nat, addr: string) returns (acts: seq<Action>)
    requires 0 < limit < WORD - 1 && calls > 1
    ensures Ok(Init([Simple(addr)])) && AtMost(calls, Some(limit), Init([Simple(addr)]), acts)
    ensures var s := Reached(Some(limit), [Simple(addr)], acts);
            |s.store| == 1 && s.store[0].active == limit + 1
  {
    acts := CeilingIsReached(limit, 2, addr);
    AtMostMore(2, calls, Some(limit), Init([Simple(addr)]), acts);
  }

  /**
    For every limit a word can hold and every number of calls: the limit is respected in every run if and only if calls
    never overlap, or the limit is zero, or no counter could exceed it.
  */
  lemma LimitRespectedIff(limit: nat, calls: nat)
    requires limit < WORD
    ensures LimitRespected(limit, calls) <==> calls <= 1 || limit == 0 || limit == WORD - 1
  {
    if calls <= 1 || limit == 0 || limit == WORD - 1 {
      forall configs, acts, b: Id |
        Ok(Init(configs)) && AtMost(calls, Some(limit), Init(configs), acts)
        && b < |Reached(Some(limit), configs, acts).store|
        ensures Reached(Some(limit), configs, acts).store[b].active <= limit
      {
        ConnectionLimit(limit, calls, configs, acts, b);
        CounterIsWord(Some(limit), configs, acts, b);
      }
    } else {
      var acts := LimitExceeded(limit, calls, "backend");
      var s := Reached(Some(limit), [Simple("backend")], acts);
      assert s.store[0].active > limit;
    }
  }
}
