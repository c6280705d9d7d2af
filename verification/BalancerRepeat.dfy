/**
  Reloading the configuration that is already in force, while connections come and go and health changes: such reloads
  leave no trace.
*/
module BalancerRepeat {
  import opened Options
  import opened BackendConfigs
  import opened BalancerMachine
  import opened BalancerSafety
  import opened BalancerReload

  // ----- One step of the reload ---------------------------------------------------------

  lemma FindPosition(store: seq<Backend>, ids: seq<Id>, configs: seq<BackendConfig>, j: nat)
    requires IdsBelow(ids, |store|) && |ids| == |configs| && Follows(store, ids, configs) && UniqueAddrs(configs)
    requires j < |ids|
    ensures Find(store, ids, configs[j].Addr()) == Some(ids[j])
  {
    FindOnly(store, ids, configs[j].Addr(), ids[j]);
  }

  /** A balancer at rest whose list follows its configuration. */
  ghost predicate Settled(s: State) {
    && Ok(s) && s.reloader.Idle? && |s.list| == |s.configs|
    && Follows(s.store, s.list, s.configs) && UniqueAddrs(s.configs)
    && forall id <- s.list :: id in s.known
  }

  /** The same balancer, with the first `j` entries of the reload done. */
  ghost function Midway(s: State, j: nat): (w: State)
    requires Settled(s) && j <= |s.list|
    ensures Ok(w)
  {
    s.(reloader := Working(s.list, s.configs, s.list[..j]))
  }

  lemma RebuildOne(limit: Option<nat>, s: State, j: nat)
    requires Settled(s) && j < |s.list|
    ensures Do(limit, Midway(s, j), ReloadNext) == Midway(s, j + 1)
  {
    FindPosition(s.store, s.list, s.configs, j);
    assert s.store[s.list[j] := s.store[s.list[j]].(drain := s.configs[j].Drain())] == s.store;
    assert s.list[..j] + [s.list[j]] == s.list[..j + 1];
  }

  lemma RebuildLast(limit: Option<nat>, s: State)
    requires Settled(s)
    ensures Do(limit, Midway(s, |s.list|), Publish) == s
  {
    assert s.list[..|s.list|] == s.list;
    assert s.known + (set id <- s.list) == s.known;
  }

  // ----- Interleaved with everything else -----------------------------------------------

  predicate Reloads(a: Action) {
    a.BeginReload? || a.ReloadNext? || a.Publish?
  }

  function WithoutReloads(acts: seq<Action>): seq<Action> {
    if acts == [] then []
    else (if Reloads(acts[0]) then [] else [acts[0]]) + WithoutReloads(acts[1..])
  }

  /** Every reload begun in the run is of the given configuration. */
  predicate OnlyRepeats(acts: seq<Action>, configs: seq<BackendConfig>) {
    forall i :: 0 <= i < |acts| && acts[i].BeginReload? ==> acts[i].configs == configs
  }

  lemma AdvanceCommutes(limit: Option<nat>, s: State, r: Reloader, t: nat)
    requires Ok(s) && ReloaderOk(r, |s.store|) && t in s.tasks
    ensures TaskStep(limit, s.(reloader := r), t) == TaskStep(limit, s, t).(reloader := r)
  {
    var w, k := s.(reloader := r), s.tasks[t];
    assert TaskOk(k, |s.store|);
    assert After(limit, w, k) == After(limit, s, k);
    assert GaugeAfter(w, k) == GaugeAfter(s, k);
  }

  /** The rest of the system neither sees nor moves the reload. */
  lemma OthersCommute(limit: Option<nat>, s: State, r: Reloader, a: Action)
    requires Ok(s) && ReloaderOk(r, |s.store|) && !Reloads(a)
    ensures Do(limit, s.(reloader := r), a) == Do(limit, s, a).(reloader := r)
  {
    if a.Advance? && a.t in s.tasks {
      AdvanceCommutes(limit, s, r, a.t);
    }
  }

  lemma OthersKeepSettled(limit: Option<nat>, s: State, a: Action)
    requires Settled(s) && !Reloads(a)
    ensures var s' := Do(limit, s, a);
            Settled(s') && s'.list == s.list && s'.configs == s.configs
  {
    if Enabled(s, a) {
      NextOk(limit, s, a);
      AddrsKept(limit, s, a);
      forall id: Id | id < |s.store| ensures Next(limit, s, a).store[id].drain == s.store[id].drain {
        OneWriterPerField(limit, s, a, id);
      }
    }
  }

  /** The balancer, possibly in the middle of a reload of its own configuration. */
  ghost predicate Shadows(w: State, s: State)
    requires Settled(s)
  {
    w == s || exists j: nat :: j <= |s.list| && w == Midway(s, j)
  }

  /** A step of the reload only moves the reload. */
  lemma ReloadShadows(limit: Option<nat>, s: State, w: State, a: Action)
    requires Settled(s) && Ok(w) && Shadows(w, s) && Reloads(a) && (a.BeginReload? ==> a.configs == s.configs)
    ensures Shadows(Do(limit, w, a), s)
  {
    if w == s {
      if a.BeginReload? {
        assert Do(limit, w, a) == Midway(s, 0);
      }
    } else {
      var j: nat :| j <= |s.list| && w == Midway(s, j);
      if a.ReloadNext? && j < |s.list| {
        RebuildOne(limit, s, j);
      } else if a.Publish? && j == |s.list| {
        RebuildLast(limit, s);
      }
    }
  }

  /** A step of anything else happens alike with and without the reload. */
  lemma OtherShadows(limit: Option<nat>, s: State, w: State, a: Action)
    requires Settled(s) && Ok(w) && Shadows(w, s) && !Reloads(a)
    ensures Settled(Do(limit, s, a)) && Shadows(Do(limit, w, a), Do(limit, s, a))
  {
    OthersKeepSettled(limit, s, a);
    if w != s {
      var j: nat :| j <= |s.list| && w == Midway(s, j);
      OthersCommute(limit, s, w.reloader, a);
      assert Do(limit, w, a) == Midway(Do(limit, s, a), j);
    }
  }

  lemma {:induction false} RepeatsLeaveNoTrace(limit: Option<nat>, s: State, w: State, acts: seq<Action>)
    requires Settled(s) && Ok(w) && Shadows(w, s) && OnlyRepeats(acts, s.configs)
    ensures Exec(limit, w, acts).(reloader := Idle) == Exec(limit, s, WithoutReloads(acts))
    decreases |acts|
  {
    if acts != [] {
      var a, rest := acts[0], acts[1..];
      if Reloads(a) {
        ReloadShadows(limit, s, w, a);
        RepeatsLeaveNoTrace(limit, s, Do(limit, w, a), rest);
        assert WithoutReloads(acts) == WithoutReloads(rest);
      } else {
        OthersKeepSettled(limit, s, a);
        OtherShadows(limit, s, w, a);
        RepeatsLeaveNoTrace(limit, Do(limit, s, a), Do(limit, w, a), rest);
        ExecCons(limit, s, a, WithoutReloads(rest));
      }
    }
  }

  lemma ReachedIsSettled(limit: Option<nat>, configs: seq<BackendConfig>, acts: seq<Action>)
    requires Reached(limit, configs, acts).reloader.Idle? && UniqueAddrs(Reached(limit, configs, acts).configs)
    ensures Settled(Reached(limit, configs, acts))
  {
    ListingReached(limit, configs, acts);
  }

  /**
    From every reachable state between reloads, over every run whose reloads all repeat the configuration in force, cut
    anywhere and interleaved with anything: apart from how far a reload under way has got, the run comes to the state it
    comes to without any reload.
  */
  lemma RepeatedReloadsLeaveNoTrace(limit: Option<nat>, configs: seq<BackendConfig>, before: seq<Action>,
                                    acts: seq<Action>)
    requires var s := Reached(limit, configs, before);
             s.reloader.Idle? && UniqueAddrs(s.configs) && OnlyRepeats(acts, s.configs)
    ensures var s := Reached(limit, configs, before);
            Exec(limit, s, acts).(reloader := Idle) == Exec(limit, s, WithoutReloads(acts))
  {
    ReachedIsSettled(limit, configs, before);
    RepeatsLeaveNoTrace(limit, Reached(limit, configs, before), Reached(limit, configs, before), acts);
  }

  // ----- The undisturbed reload ---------------------------------------------------------

  function Nexts(n: nat): (acts: seq<Action>)
    ensures |acts| == n
  {
    if n == 0 then [] else [ReloadNext] + Nexts(n - 1)
  }

  /** A reload that nothing interrupts. */
  function ReloadActions(configs: seq<BackendConfig>): seq<Action> {
    [BeginReload(configs)] + (Nexts(|configs|) + [Publish])
  }

  lemma {:induction false} RebuildSameList(limit: Option<nat>, s: State, j: nat)
    requires Settled(s) && j <= |s.list|
    ensures Exec(limit, Midway(s, j), Nexts(|s.list| - j) + [Publish]) == s
    decreases |s.list| - j
  {
    if j == |s.list| {
      RebuildLast(limit, s);
      ExecCons(limit, Midway(s, j), Publish, []);
      assert Nexts(|s.list| - j) + [Publish] == [Publish] + [];
    } else {
      RebuildOne(limit, s, j);
      RebuildSameList(limit, s, j + 1);
      var rest := Nexts(|s.list| - (j + 1)) + [Publish];
      ExecCons(limit, Midway(s, j), ReloadNext, rest);
      assert Nexts(|s.list| - j) + [Publish] == [ReloadNext] + rest;
    }
  }

  /** From every reachable state, repeating the reload of the current configuration changes nothing at all. */
  lemma RepeatedReloadIsNoop(limit: Option<nat>, configs: seq<BackendConfig>, acts: seq<Action>)
    requires Reached(limit, configs, acts).reloader.Idle? && UniqueAddrs(Reached(limit, configs, acts).configs)
    ensures var s := Reached(limit, configs, acts);
            Exec(limit, s, ReloadActions(s.configs)) == s
  {
    var s := Reached(limit, configs, acts);
    ReachedIsSettled(limit, configs, acts);
    RebuildSameList(limit, s, 0);
    assert Do(limit, s, BeginReload(s.configs)) == Midway(s, 0);
    ExecCons(limit, s, BeginReload(s.configs), Nexts(|s.list|) + [Publish]);
  }
}
