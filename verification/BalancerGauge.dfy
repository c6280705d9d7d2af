/**
  The per-address connection gauge. It is reset to zero whenever a reload creates an object for its address, while
  guards on an earlier object of that address may still be alive; from then on it is off by their number.
*/
module BalancerGauge {
  import opened Options
  import opened BackendConfigs
  import opened BalancerMachine
  import opened BalancerSafety
  import opened BalancerSolo

  function BaseOf(s: State, addr: string): nat {
    if addr in s.base then s.base[addr] else 0
  }

  /** How far the gauge of an address is above the guards it should show. */
  ghost function Excess(s: State, addr: string): int {
    GaugeOf(s, addr) - Count(s.tasks, Gauged(addr))
  }

  /** The action is the reload step that creates an object for the address, and with it resets the gauge. */
  predicate Resets(s: State, a: Action, addr: string)
    requires Ok(s)
  {
    && a.ReloadNext? && Enabled(s, a)
    && s.reloader.configs[|s.reloader.built|].Addr() == addr
    && Find(s.store, s.reloader.snap, addr) == None
  }

  // ----- One step -----------------------------------------------------------------------

  lemma ExcessAdvance(limit: Option<nat>, s: State, t: nat, addr: string)
    requires Ok(s) && t in s.tasks
    ensures Excess(TaskStep(limit, s, t), addr) == Excess(s, addr)
  {
    var k := s.tasks[t];
    var k' := After(limit, s, k);
    assert TaskOk(k, |s.store|);
    CountPut(s.tasks, t, k', Gauged(addr));
    if k.Counted? {
      assert k' == Some(Holding(k.b, k.addr));
    } else if k.Released? {
      assert k' == None;
    } else {
      assert Gauged(addr)(k) == (k'.Some? && Gauged(addr)(k'.value));
    }
  }

  /** Only a reset changes how far the gauge is off: to minus the guards alive at that moment. */
  lemma ExcessStep(limit: Option<nat>, s: State, a: Action, addr: string)
    requires Ok(s) && Enabled(s, a)
    ensures var s' := Next(limit, s, a);
            if Resets(s, a, addr) then
              && Excess(s', addr) + Count(s.tasks, Gauged(addr)) == 0
              && BaseOf(s', addr) == Count(s.tasks, Gauged(addr))
            else
              Excess(s', addr) == Excess(s, addr) && BaseOf(s', addr) == BaseOf(s, addr)
  {
    match a
    case Spawn(t) => CountSet(s.tasks, t, Started, Gauged(addr));
    case Advance(t) => ExcessAdvance(limit, s, t, addr);
    case _ =>
  }

  // ----- Runs ---------------------------------------------------------------------------

  lemma {:induction false} ExcessThroughout(limit: Option<nat>, s: State, acts: seq<Action>, addr: string)
    requires Ok(s) && Excess(s, addr) + BaseOf(s, addr) == 0
    ensures Excess(Exec(limit, s, acts), addr) + BaseOf(Exec(limit, s, acts), addr) == 0
    decreases |acts|
  {
    if acts != [] {
      if Enabled(s, acts[0]) { ExcessStep(limit, s, acts[0], addr); }
      ExcessThroughout(limit, Do(limit, s, acts[0]), acts[1..], addr);
    }
  }

  lemma InitExact(configs: seq<BackendConfig>, addr: string)
    ensures Ok(Init(configs)) && Excess(Init(configs), addr) == 0 && BaseOf(Init(configs), addr) == 0
  {
    InitOk(configs);
    CountZero(Init(configs).tasks, Gauged(addr));
  }

  /**
    In every run, the gauge of an address is the number of guards it has counted and not discounted, less those that
    were alive when it was last reset.
  */
  lemma GaugeAgreement(limit: Option<nat>, configs: seq<BackendConfig>, acts: seq<Action>, addr: string)
    ensures var s := Reached(limit, configs, acts);
            GaugeOf(s, addr) == Count(s.tasks, Gauged(addr)) - BaseOf(s, addr)
  {
    InitExact(configs, addr);
    ExcessThroughout(limit, Init(configs), acts, addr);
  }

  /** The gauge shows the guards, now and after each of the actions. */
  ghost predicate AlwaysExact(limit: Option<nat>, s: State, acts: seq<Action>, addr: string)
    requires Ok(s)
    decreases |acts|
  {
    && GaugeOf(s, addr) == Count(s.tasks, Gauged(addr))
    && (acts != [] ==> AlwaysExact(limit, Do(limit, s, acts[0]), acts[1..], addr))
  }

  /** Whenever the run creates an object for the address, no guard on that address is alive. */
  ghost predicate AddedOnlyWhenIdle(limit: Option<nat>, s: State, acts: seq<Action>, addr: string)
    requires Ok(s)
    decreases |acts|
  {
    acts != [] ==>
      && (Resets(s, acts[0], addr) ==> Count(s.tasks, Gauged(addr)) == 0)
      && AddedOnlyWhenIdle(limit, Do(limit, s, acts[0]), acts[1..], addr)
  }

  lemma {:induction false} ExactIffAddedWhenIdle(limit: Option<nat>, s: State, acts: seq<Action>, addr: string)
    requires Ok(s) && Excess(s, addr) == 0
    ensures AlwaysExact(limit, s, acts, addr) <==> AddedOnlyWhenIdle(limit, s, acts, addr)
    decreases |acts|
  {
    if acts != [] {
      var s' := Do(limit, s, acts[0]);
      if Enabled(s, acts[0]) { ExcessStep(limit, s, acts[0], addr); }
      if Excess(s', addr) == 0 {
        ExactIffAddedWhenIdle(limit, s', acts[1..], addr);
      }
    }
  }

  /**
    The gauge of an address is exact in every state of a run iff the address is never added while guards on it live.
  */
  lemma GaugeExactIff(limit: Option<nat>, configs: seq<BackendConfig>, acts: seq<Action>, addr: string)
    requires Ok(Init(configs))
    ensures AlwaysExact(limit, Init(configs), acts, addr) <==> AddedOnlyWhenIdle(limit, Init(configs), acts, addr)
  {
    InitExact(configs, addr);
    ExactIffAddedWhenIdle(limit, Init(configs), acts, addr);
  }

  // ----- A run in which it is wrong -----------------------------------------------------

  /** A call on a list of one open backend chooses it. */
  lemma OnlyChoice(s: State) returns (n: nat)
    requires Ok(s) && 0 in s.tasks && s.tasks[0].Started? && s.list == [0] && |s.store| > 0 && Open(None, s.store[0])
    ensures Exec(None, s, Advances(0, n)) == Decided(s.(current := Up(s.current)), 0, s.current, [0], Some(0))
  {
    CallAlone(None, s, 0);
    n :| Exec(None, s, Advances(0, n))
         == Decided(s.(current := Up(s.current)), 0, s.current, s.list, Pick(None, s, s.list, s.current, 0));
    assert OpenList(None, s, s.list) == [true];
  }

  lemma NewSingle(addr: string)
    ensures var s := Init([Simple(addr)]);
            && Ok(s) && s.tasks == map[] && s.list == [0] && s.store == [Backend(addr, 0, true, false)]
            && s.reloader.Idle? && GaugeOf(s, addr) == 0
  {
    InitOk([Simple(addr)]);
    assert [Simple(addr)][0] in [Simple(addr)];
  }

  /** One connection has chosen the only backend, and only its guard is left to be returned. */
  lemma OneSelected(addr: string) returns (acts: seq<Action>)
    ensures var s := Reached(None, [Simple(addr)], acts);
            && s.tasks == map[0 := Counted(0, addr)] && s.list == [0] && s.reloader.Idle?
            && |s.store| == 1 && s.store[0].addr == addr && GaugeOf(s, addr) == 0
  {
    var configs := [Simple(addr)];
    NewSingle(addr);
    acts := Extend(None, configs, [], Spawn(0));
    var n := OnlyChoice(Reached(None, configs, acts));
    ExecAppend(None, Init(configs), acts, Advances(0, n));
    acts := acts + Advances(0, n);
  }

  /** That connection is open, and the list has become empty. */
  lemma OpenAndDelisted(addr: string) returns (acts: seq<Action>)
    ensures var s := Reached(None, [Simple(addr)], acts);
            s.tasks == map[0 := Holding(0, addr)] && s.list == [] && s.reloader.Idle?
  {
    acts := OneSelected(addr);
    acts := Extend(None, [Simple(addr)], acts, Advance(0));
    acts := Extend(None, [Simple(addr)], acts, BeginReload([]));
    acts := Extend(None, [Simple(addr)], acts, Publish);
  }

  /** The backend is listed again, with its gauge reset. */
  lemma OpenAcrossReAdding(addr: string) returns (acts: seq<Action>)
    ensures var s := Reached(None, [Simple(addr)], acts);
            s.tasks == map[0 := Holding(0, addr)] && GaugeOf(s, addr) == 0
  {
    var configs := [Simple(addr)];
    acts := OpenAndDelisted(addr);
    acts := Extend(None, configs, acts, BeginReload(configs));
    acts := Extend(None, configs, acts, ReloadNext);
    acts := Extend(None, configs, acts, Publish);
  }

  /**
    The failing family: a connection is open, its backend leaves the configuration and comes back, the connection
    closes. No connection is left, and the gauge of the address shows minus one.
  */
  lemma GaugeCanGoNegative(addr: string) returns (acts: seq<Action>)
    ensures var s := Reached(None, [Simple(addr)], acts);
            GaugeOf(s, addr) == -1 && s.tasks == map[]
  {
    acts := OpenAcrossReAdding(addr);
    acts := Extend(None, [Simple(addr)], acts, Advance(0));
    acts := Extend(None, [Simple(addr)], acts, Advance(0));
  }
}
