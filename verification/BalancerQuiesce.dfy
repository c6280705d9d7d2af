/**
  Taking a backend out of service. Once a backend is draining, unhealthy or no longer listed, and stays so, the
  guards it still gets are bounded by the calls that were already past the corresponding check; when those have
  finished, its counter never rises again.
*/
module BalancerQuiesce {
  import opened Options
  import opened Rotation
  import opened BackendConfigs
  import opened BalancerMachine
  import opened BalancerSafety
  import opened BalancerReload

  datatype Reason = Draining | Unhealthy | Unlisted

  /** The backend is out of service, for the given reason. */
  predicate Out(why: Reason, s: State, b: Id) {
    match why
    case Draining => b < |s.store| && s.store[b].drain
    case Unhealthy => b < |s.store| && !s.store[b].healthy
    case Unlisted => b !in s.list
  }

  /** A call that the reason can no longer stop from taking `b`: past the flag's check, or holding an older list. */
  function Past(why: Reason, b: Id): Task -> bool {
    (k: Task) =>
      match why
      case Draining => k.Probing? && k.snap != [] && !k.point.ReadDrain? && Target(k) == b
      case Unhealthy => k.Probing? && k.snap != [] && (k.point.ReadCount? || k.point.Increment?) && Target(k) == b
      case Unlisted => (k.Loaded? || k.Probing?) && b in k.snap
  }

  /** The action creates a guard on `b`. */
  predicate Takes(s: State, a: Action, b: Id) {
    a.Advance? && a.t in s.tasks && Increments(s.tasks[a.t]) && s.tasks[a.t].snap != [] && Target(s.tasks[a.t]) == b
  }

  /** The number of guards created on `b` in a run. */
  ghost function Taken(limit: Option<nat>, s: State, acts: seq<Action>, b: Id): nat
    requires Ok(s)
    decreases |acts|
  {
    if acts == [] then 0
    else One(Takes(s, acts[0], b)) + Taken(limit, Do(limit, s, acts[0]), acts[1..], b)
  }

  /** The backend is out of service in every state of the run that is left by an action. */
  ghost predicate StaysOut(why: Reason, limit: Option<nat>, s: State, acts: seq<Action>, b: Id)
    requires Ok(s)
    decreases |acts|
  {
    acts != [] ==> Out(why, s, b) && StaysOut(why, limit, Do(limit, s, acts[0]), acts[1..], b)
  }

  /** A step of one task: it does not get past the check, and taking the backend uses up its being past. */
  lemma PastAfter(why: Reason, limit: Option<nat>, s: State, k: Task, b: Id)
    requires Ok(s) && TaskOk(k, |s.store|) && Out(why, s, b)
    ensures var k' := After(limit, s, k);
            One(k'.Some? && Past(why, b)(k'.value)) + One(Increments(k) && Target(k) == b) <= One(Past(why, b)(k))
  {
  }

  lemma PastStep(why: Reason, limit: Option<nat>, s: State, a: Action, b: Id)
    requires Ok(s) && Enabled(s, a) && Out(why, s, b)
    ensures Count(Next(limit, s, a).tasks, Past(why, b)) + One(Takes(s, a, b)) <= Count(s.tasks, Past(why, b))
  {
    match a
    case Spawn(t) => CountSet(s.tasks, t, Started, Past(why, b));
    case Advance(t) =>
      assert TaskOk(s.tasks[t], |s.store|);
      PastAfter(why, limit, s, s.tasks[t], b);
      CountPut(s.tasks, t, After(limit, s, s.tasks[t]), Past(why, b));
    case _ =>
  }

  /** While the backend stays out, the guards it gets number at most the calls that were already past the check. */
  lemma {:induction false} LateGuardsBounded(why: Reason, limit: Option<nat>, s: State, acts: seq<Action>, b: Id)
    requires Ok(s) && StaysOut(why, limit, s, acts, b)
    ensures Taken(limit, s, acts, b) + Count(Exec(limit, s, acts).tasks, Past(why, b)) <= Count(s.tasks, Past(why, b))
    decreases |acts|
  {
    if acts != [] {
      if Enabled(s, acts[0]) { PastStep(why, limit, s, acts[0], b); }
      LateGuardsBounded(why, limit, Do(limit, s, acts[0]), acts[1..], b);
    }
  }

  lemma GuardsStep(limit: Option<nat>, s: State, a: Action, b: Id)
    requires Ok(s) && Enabled(s, a)
    ensures Count(Next(limit, s, a).tasks, On(b)) <= Count(s.tasks, On(b)) + One(Takes(s, a, b))
  {
    match a
    case Spawn(t) => CountSet(s.tasks, t, Started, On(b));
    case Advance(t) =>
      assert TaskOk(s.tasks[t], |s.store|);
      CountPut(s.tasks, t, After(limit, s, s.tasks[t]), On(b));
    case _ =>
  }

  /** Guards come from nowhere else: a backend has at most the guards it had plus those it took. */
  lemma {:induction false} GuardsGrowByTaking(limit: Option<nat>, s: State, acts: seq<Action>, b: Id)
    requires Ok(s)
    ensures Count(Exec(limit, s, acts).tasks, On(b)) <= Count(s.tasks, On(b)) + Taken(limit, s, acts, b)
    decreases |acts|
  {
    if acts != [] {
      if Enabled(s, acts[0]) { GuardsStep(limit, s, acts[0], b); }
      GuardsGrowByTaking(limit, Do(limit, s, acts[0]), acts[1..], b);
    }
  }

  /** In the worst case the stragglers all succeed: the connections grow by no more than their number. */
  lemma StragglersBoundConnections(why: Reason, limit: Option<nat>, s: State, acts: seq<Action>, b: Id)
    requires Ok(s) && StaysOut(why, limit, s, acts, b)
    ensures Count(Exec(limit, s, acts).tasks, On(b)) <= Count(s.tasks, On(b)) + Count(s.tasks, Past(why, b))
  {
    LateGuardsBounded(why, limit, s, acts, b);
    GuardsGrowByTaking(limit, s, acts, b);
  }

  // ----- No longer listed ---------------------------------------------------------------

  /** An object that was listed and is not any more is not under construction either. */
  lemma GoneStep(limit: Option<nat>, s: State, a: Action, b: Id)
    requires Ok(s) && Listing(s) && Enabled(s, a) && b in s.known && b !in s.list
    ensures b in Next(limit, s, a).known && b !in Next(limit, s, a).list
  {
    if a.Publish? {
      var r := s.reloader;
      forall j | 0 <= j < |r.built| ensures r.built[j] != b {
        FindBelow(s.store, r.snap, r.configs[j].Addr());
      }
    }
  }

  lemma {:induction false} GoneForGood(limit: Option<nat>, s: State, acts: seq<Action>, b: Id)
    requires Ok(s) && Listing(s) && b in s.known && b !in s.list
    ensures StaysOut(Unlisted, limit, s, acts, b)
    decreases |acts|
  {
    if acts != [] {
      if Enabled(s, acts[0]) {
        ListingStep(limit, s, acts[0]);
        GoneStep(limit, s, acts[0], b);
      }
      GoneForGood(limit, Do(limit, s, acts[0]), acts[1..], b);
    }
  }

  /**
    An object dropped from the list by a reload is never listed again, whatever is reloaded later, its own address
    included.
  */
  lemma DroppedForGood(limit: Option<nat>, configs: seq<BackendConfig>, before: seq<Action>, acts: seq<Action>, b: Id)
    requires var s := Reached(limit, configs, before); b in s.known && b !in s.list
    ensures StaysOut(Unlisted, limit, Reached(limit, configs, before), acts, b)
    ensures b !in Reached(limit, configs, before + acts).list
  {
    var s := Reached(limit, configs, before);
    ListingReached(limit, configs, before);
    GoneForGood(limit, s, acts, b);
    GoneForGood(limit, s, acts + [Publish], b);
    StaysOutAtEnd(Unlisted, limit, s, acts, Publish, b);
    ReachedOn(limit, configs, before, acts);
  }

  lemma {:induction false} StaysOutAtEnd(why: Reason, limit: Option<nat>, s: State, acts: seq<Action>, a: Action, b: Id)
    requires Ok(s) && StaysOut(why, limit, s, acts + [a], b)
    ensures Out(why, Exec(limit, s, acts), b)
    decreases |acts|
  {
    if acts != [] {
      assert (acts + [a])[1..] == acts[1..] + [a];
      StaysOutAtEnd(why, limit, Do(limit, s, acts[0]), acts[1..], a, b);
    }
  }

  // ----- The counter --------------------------------------------------------------------

  /** Out of service for the rest of the run: dropped from the list, or the flag is never turned back. */
  ghost predicate OutFrom(why: Reason, limit: Option<nat>, s: State, acts: seq<Action>, b: Id)
    requires Ok(s)
  {
    if why.Unlisted? then b in s.known && b !in s.list else StaysOut(why, limit, s, acts, b)
  }

  /**
    In every run, from any point at which a backend is taken out of service: the calls already past the check are all it
    can still get, and its counter exceeds what it was by no more than their number.
  */
  lemma CounterBounded(why: Reason, limit: Option<nat>, configs: seq<BackendConfig>, before: seq<Action>,
                       acts: seq<Action>, b: Id)
    requires var s := Reached(limit, configs, before);
             && b < |s.store| && OutFrom(why, limit, s, acts, b)
             && Count(s.tasks, On(b)) + Count(s.tasks, Past(why, b)) < WORD
    ensures var s, s' := Reached(limit, configs, before), Reached(limit, configs, before + acts);
            && Taken(limit, s, acts, b) <= Count(s.tasks, Past(why, b))
            && b < |s'.store| && s'.store[b].active <= s.store[b].active + Count(s.tasks, Past(why, b))
  {
    var s := Reached(limit, configs, before);
    OutFromStaysOut(why, limit, configs, before, acts, b);
    LateGuardsBounded(why, limit, s, acts, b);
    StragglersBoundConnections(why, limit, s, acts, b);
    ReachedOn(limit, configs, before, acts);
    ObjectsStay(limit, s, acts, b);
    CounterIs(limit, configs, before, b);
    CounterIs(limit, configs, before + acts, b);
  }

  lemma OutFromStaysOut(why: Reason, limit: Option<nat>, configs: seq<BackendConfig>, before: seq<Action>,
                        acts: seq<Action>, b: Id)
    requires OutFrom(why, limit, Reached(limit, configs, before), acts, b)
    ensures StaysOut(why, limit, Reached(limit, configs, before), acts, b)
  {
    if why.Unlisted? {
      DroppedForGood(limit, configs, before, acts, b);
    }
  }

  lemma ReachedOn(limit: Option<nat>, configs: seq<BackendConfig>, before: seq<Action>, acts: seq<Action>)
    ensures Reached(limit, configs, before + acts) == Exec(limit, Reached(limit, configs, before), acts)
  {
    InitOk(configs);
    ExecAppend(limit, Init(configs), before, acts);
  }

  lemma CounterIs(limit: Option<nat>, configs: seq<BackendConfig>, acts: seq<Action>, b: Id)
    requires b < |Reached(limit, configs, acts).store| && Count(Reached(limit, configs, acts).tasks, On(b)) < WORD
    ensures Reached(limit, configs, acts).store[b].active == Count(Reached(limit, configs, acts).tasks, On(b))
  {
    CounterEqualsGuards(limit, configs, acts, b);
  }

  lemma {:induction false} ObjectsStay(limit: Option<nat>, s: State, acts: seq<Action>, b: Id)
    requires Ok(s) && b < |s.store|
    ensures b < |Exec(limit, s, acts).store|
    decreases |acts|
  {
    if acts != [] {
      if Enabled(s, acts[0]) { AddrsKept(limit, s, acts[0]); }
      ObjectsStay(limit, Do(limit, s, acts[0]), acts[1..], b);
    }
  }

  /** Once no call is past the check, the backend takes no guard and its counter never rises again. */
  lemma Quiesced(why: Reason, limit: Option<nat>, configs: seq<BackendConfig>, before: seq<Action>,
                 acts: seq<Action>, b: Id)
    requires var s := Reached(limit, configs, before);
             && b < |s.store| && OutFrom(why, limit, s, acts, b)
             && Count(s.tasks, Past(why, b)) == 0 && Count(s.tasks, On(b)) < WORD
    ensures var s, s' := Reached(limit, configs, before), Reached(limit, configs, before + acts);
            Taken(limit, s, acts, b) == 0 && b < |s'.store| && s'.store[b].active <= s.store[b].active
  {
    CounterBounded(why, limit, configs, before, acts, b);
  }
}
