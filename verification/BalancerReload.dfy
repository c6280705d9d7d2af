/**
  Hot reload while connections are selected and dropped: what a published list looks like, and what survives from the
  list before it.
*/
module BalancerReload {
  import opened Options
  import opened BackendConfigs
  import opened BalancerMachine
  import opened BalancerSafety

  /** Each kind of field has one kind of writer. */
  lemma OneWriterPerField(limit: Option<nat>, s: State, a: Action, id: Id)
    requires Ok(s) && Enabled(s, a) && id < |s.store|
    ensures var s' := Next(limit, s, a);
            && id < |s'.store|
            && s'.store[id].addr == s.store[id].addr
            && (s'.store[id].active != s.store[id].active ==> a.Advance?)
            && (s'.store[id].healthy != s.store[id].healthy ==> a.SetHealth? && a.id == id)
            && (s'.store[id].drain != s.store[id].drain ==> a.ReloadNext?)
            && (s'.list != s.list ==> a.Publish?)
  {
    if a.ReloadNext? {
      FindBelow(s.store, s.reloader.snap, s.reloader.configs[|s.reloader.built|].Addr());
    }
  }

  /** The health flag of an object after a run of reports and anything else: the last report that reached it, if any. */
  ghost function LastReport(limit: Option<nat>, s: State, acts: seq<Action>, id: Id, healthy: bool): bool
    requires Ok(s)
    decreases |acts|
  {
    if acts == [] then healthy
    else
      var a := acts[0];
      LastReport(limit, Do(limit, s, a), acts[1..], id,
                 if a.SetHealth? && a.id == id && id in s.known then a.healthy else healthy)
  }

  /** An object is as healthy as its last report says, over every run; reloads and connections do not matter. */
  lemma {:induction false} HealthIsLastReport(limit: Option<nat>, s: State, acts: seq<Action>, id: Id)
    requires Ok(s) && id < |s.store|
    ensures id < |Exec(limit, s, acts).store|
    ensures Exec(limit, s, acts).store[id].healthy == LastReport(limit, s, acts, id, s.store[id].healthy)
    decreases |acts|
  {
    if acts != [] {
      if Enabled(s, acts[0]) { OneWriterPerField(limit, s, acts[0], id); }
      HealthIsLastReport(limit, Do(limit, s, acts[0]), acts[1..], id);
    }
  }

  // ----- The invariant ------------------------------------------------------------------

  /** The ids a task may still touch. */
  predicate Touches(k: Task, id: Id) {
    match k
    case Loaded(snap) => id in snap
    case Probing(_, snap, _, _) => id in snap
    case Counted(b, _) => id == b
    case Holding(b, _) => id == b
    case _ => false
  }

  /** Nobody but the watcher has seen an object that was never listed, and it is as new. */
  ghost predicate UnlistedAreNew(s: State) {
    && (forall id <- s.list :: id in s.known)
    && (forall t, id: Id :: t in s.tasks && Touches(s.tasks[t], id) ==> id in s.known)
    && (forall id: Id :: id < |s.store| && id !in s.known ==> s.store[id].healthy && s.store[id].active == 0)
  }

  /** A list that follows a configuration: same order, and its drain flags, the last entry of an address deciding. */
  ghost predicate Follows(store: seq<Backend>, ids: seq<Id>, configs: seq<BackendConfig>)
    requires IdsBelow(ids, |store|) && |ids| <= |configs|
  {
    && (forall j :: 0 <= j < |ids| ==> store[ids[j]].addr == configs[j].Addr())
    && (forall j :: 0 <= j < |ids| && LastWith(configs, |ids|, j) ==> store[ids[j]].drain == configs[j].Drain())
  }

  /** Each entry built so far is the object the old list has for the address, or one that was never listed. */
  ghost predicate Inherits(s: State, snap: seq<Id>, configs: seq<BackendConfig>, built: seq<Id>)
    requires IdsBelow(snap, |s.store|) && |built| <= |configs|
  {
    forall j :: 0 <= j < |built| ==>
      match Find(s.store, snap, configs[j].Addr())
      case Some(b) => built[j] == b
      case None => built[j] !in s.known
  }

  ghost predicate Listing(s: State)
    requires Ok(s)
  {
    && UnlistedAreNew(s)
    && |s.list| == |s.configs|
    && (match s.reloader
        case Idle => Follows(s.store, s.list, s.configs)
        case Working(snap, configs, built) =>
          snap == s.list && Follows(s.store, built, configs) && Inherits(s, snap, configs, built))
  }

  lemma {:induction false} FindFrame(store: seq<Backend>, store': seq<Backend>, ids: seq<Id>, addr: string)
    requires IdsBelow(ids, |store|) && |store| <= |store'|
    requires forall id: Id :: id < |store| ==> store'[id].addr == store[id].addr
    ensures Find(store', ids, addr) == Find(store, ids, addr)
  {
    if ids != [] {
      FindFrame(store, store', ids[1..], addr);
    }
  }

  lemma AddrsKept(limit: Option<nat>, s: State, a: Action)
    requires Ok(s) && Enabled(s, a)
    ensures |s.store| <= |Next(limit, s, a).store|
    ensures forall id: Id :: id < |s.store| ==> Next(limit, s, a).store[id].addr == s.store[id].addr
  {
    if s.store != [] {
      forall id: Id | id < |s.store| ensures Next(limit, s, a).store[id].addr == s.store[id].addr {
        OneWriterPerField(limit, s, a, id);
      }
    }
  }

  lemma TouchesAfter(limit: Option<nat>, s: State, k: Task, id: Id)
    requires Ok(s) && TaskOk(k, |s.store|)
    requires After(limit, s, k).Some? && Touches(After(limit, s, k).value, id)
    ensures Touches(k, id) || id in s.list
  {
  }

  lemma UnlistedStep(limit: Option<nat>, s: State, a: Action)
    requires Ok(s) && Enabled(s, a) && UnlistedAreNew(s)
    ensures UnlistedAreNew(Next(limit, s, a))
  {
    var s' := Next(limit, s, a);
    match a
    case Advance(t) =>
      var k := s.tasks[t];
      forall u, id: Id | u in s'.tasks && Touches(s'.tasks[u], id) ensures id in s'.known {
        if u == t { TouchesAfter(limit, s, k, id); }
      }
      assert Increments(k) ==> Touches(k, Target(k));
      assert k.Holding? ==> Touches(k, k.b);
    case ReloadNext =>
      FindBelow(s.store, s.reloader.snap, s.reloader.configs[|s.reloader.built|].Addr());
    case _ =>
  }

  lemma FollowsExtended(store: seq<Backend>, snap: seq<Id>, configs: seq<BackendConfig>, built: seq<Id>)
    requires IdsBelow(snap, |store|) && IdsBelow(built, |store|)
    requires |built| < |configs| && Follows(store, built, configs)
    ensures var (store', id) := ReloadOne(store, snap, configs[|built|]);
            IdsBelow(built + [id], |store'|) && Follows(store', built + [id], configs)
  {
    var n, c := |built|, configs[|built|];
    var (store', id) := ReloadOne(store, snap, c);
    FindBelow(store, snap, c.Addr());
    assert store'[id].addr == c.Addr() && store'[id].drain == c.Drain();
    forall j | 0 <= j < n
      ensures store'[built[j]].addr == configs[j].Addr()
      ensures LastWith(configs, n + 1, j) ==> store'[built[j]].drain == configs[j].Drain()
    {
      if LastWith(configs, n + 1, j) {
        assert LastWith(configs, n, j) && built[j] != id;
      }
    }
  }

  lemma InheritsExtended(limit: Option<nat>, s: State)
    requires Ok(s) && Enabled(s, ReloadNext)
    requires Inherits(s, s.reloader.snap, s.reloader.configs, s.reloader.built)
    ensures var s' := Next(limit, s, ReloadNext);
            && Ok(s')
            && Inherits(s', s'.reloader.snap, s'.reloader.configs, s'.reloader.built)
  {
    NextOk(limit, s, ReloadNext);
    AddrsKept(limit, s, ReloadNext);
    var s', r := Next(limit, s, ReloadNext), s.reloader;
    forall j | 0 <= j < |s'.reloader.built|
      ensures match Find(s'.store, r.snap, r.configs[j].Addr())
              case Some(b) => s'.reloader.built[j] == b
              case None => s'.reloader.built[j] !in s'.known
    {
      FindFrame(s.store, s'.store, r.snap, r.configs[j].Addr());
    }
  }

  lemma ReloadNextStep(limit: Option<nat>, s: State)
    requires Ok(s) && Enabled(s, ReloadNext) && Listing(s)
    ensures Ok(Next(limit, s, ReloadNext)) && Listing(Next(limit, s, ReloadNext))
  {
    NextOk(limit, s, ReloadNext);
    UnlistedStep(limit, s, ReloadNext);
    FollowsExtended(s.store, s.reloader.snap, s.reloader.configs, s.reloader.built);
    InheritsExtended(limit, s);
  }

  lemma ListingStep(limit: Option<nat>, s: State, a: Action)
    requires Ok(s) && Enabled(s, a) && Listing(s)
    ensures Ok(Next(limit, s, a)) && Listing(Next(limit, s, a))
  {
    NextOk(limit, s, a);
    if a.ReloadNext? {
      ReloadNextStep(limit, s);
    } else {
      UnlistedStep(limit, s, a);
      AddrsKept(limit, s, a);
      var s' := Next(limit, s, a);
      forall id: Id | id < |s.store| ensures s'.store[id].drain == s.store[id].drain {
        OneWriterPerField(limit, s, a, id);
      }
      if s.reloader.Working? && s'.reloader == s.reloader {
        var r := s.reloader;
        forall j | 0 <= j < |r.built|
          ensures Find(s'.store, r.snap, r.configs[j].Addr()) == Find(s.store, r.snap, r.configs[j].Addr())
        {
          FindFrame(s.store, s'.store, r.snap, r.configs[j].Addr());
        }
      }
    }
  }

  lemma {:induction false} ListingThroughout(limit: Option<nat>, s: State, acts: seq<Action>)
    requires Ok(s) && Listing(s)
    ensures Listing(Exec(limit, s, acts))
    decreases |acts|
  {
    if acts != [] {
      if Enabled(s, acts[0]) { ListingStep(limit, s, acts[0]); }
      ListingThroughout(limit, Do(limit, s, acts[0]), acts[1..]);
    }
  }

  lemma ListingReached(limit: Option<nat>, configs: seq<BackendConfig>, acts: seq<Action>)
    ensures Listing(Reached(limit, configs, acts))
  {
    InitOk(configs);
    assert forall id: Id :: id < |configs| ==> UpTo(|configs|)[id] == id;
    ListingThroughout(limit, Init(configs), acts);
  }

  // ----- Theorems -----------------------------------------------------------------------

  /**
    Whenever a reload publishes, whatever happened meanwhile: the new list follows the configuration in order
    and in its drain flags, the last entry of an address deciding; an address the old list had keeps its object; an
    address it did not have gets an object never listed before, healthy and without connections.
  */
  lemma PublishedList(limit: Option<nat>, configs: seq<BackendConfig>, acts: seq<Action>)
    requires Enabled(Reached(limit, configs, acts), Publish)
    ensures var s := Reached(limit, configs, acts);
            var s' := Next(limit, s, Publish);
            && |s'.list| == |s'.configs| && IdsBelow(s'.list, |s'.store|)
            && Follows(s'.store, s'.list, s'.configs)
            && forall j :: 0 <= j < |s'.list| ==>
                 match Find(s.store, s.list, s'.configs[j].Addr())
                 case Some(b) => s'.list[j] == b
                 case None => s'.list[j] !in s.known && s'.store[s'.list[j]].healthy && s'.store[s'.list[j]].active == 0
  {
    ListingReached(limit, configs, acts);
    var s := Reached(limit, configs, acts);
    NextOk(limit, s, Publish);
  }

  ghost predicate Mentions(configs: seq<BackendConfig>, addr: string) {
    exists j :: 0 <= j < |configs| && configs[j].Addr() == addr
  }

  /** Every configuration published in the run mentions the address. */
  ghost predicate KeepsMentioning(limit: Option<nat>, s: State, acts: seq<Action>, addr: string)
    requires Ok(s)
    decreases |acts|
  {
    acts != [] ==>
      && (acts[0].Publish? && Enabled(s, Publish) ==> Mentions(s.reloader.configs, addr))
      && KeepsMentioning(limit, Do(limit, s, acts[0]), acts[1..], addr)
  }

  lemma {:induction false} FindOnly(store: seq<Backend>, ids: seq<Id>, addr: string, b: Id)
    requires IdsBelow(ids, |store|)
    requires forall i :: 0 <= i < |ids| && store[ids[i]].addr == addr ==> ids[i] == b
    requires exists i :: 0 <= i < |ids| && store[ids[i]].addr == addr
    ensures Find(store, ids, addr) == Some(b)
  {
    if store[ids[0]].addr != addr {
      var i :| 0 <= i < |ids| && store[ids[i]].addr == addr;
      assert ids[1..][i - 1] == ids[i];
      FindOnly(store, ids[1..], addr, b);
    }
  }

  lemma SameObjectStep(limit: Option<nat>, s: State, a: Action, addr: string, b: Id)
    requires Ok(s) && Listing(s) && Enabled(s, a) && Find(s.store, s.list, addr) == Some(b)
    requires a.Publish? ==> Mentions(s.reloader.configs, addr)
    ensures Ok(Next(limit, s, a)) && Find(Next(limit, s, a).store, Next(limit, s, a).list, addr) == Some(b)
  {
    NextOk(limit, s, a);
    AddrsKept(limit, s, a);
    var s' := Next(limit, s, a);
    if a.Publish? {
      var j :| 0 <= j < |s.reloader.configs| && s.reloader.configs[j].Addr() == addr;
      assert s'.store[s'.list[j]].addr == addr;
      FindOnly(s'.store, s'.list, addr, b);
    } else {
      FindFrame(s.store, s'.store, s.list, addr);
    }
  }

  lemma {:induction false} SameObjectFrom(limit: Option<nat>, s: State, acts: seq<Action>, addr: string, b: Id)
    requires Ok(s) && Listing(s) && Find(s.store, s.list, addr) == Some(b) && KeepsMentioning(limit, s, acts, addr)
    ensures Find(Exec(limit, s, acts).store, Exec(limit, s, acts).list, addr) == Some(b)
    decreases |acts|
  {
    if acts != [] {
      var s' := Do(limit, s, acts[0]);
      if Enabled(s, acts[0]) {
        ListingStep(limit, s, acts[0]);
        SameObjectStep(limit, s, acts[0], addr, b);
      }
      SameObjectFrom(limit, s', acts[1..], addr, b);
    }
  }

  /**
    Over every sequence of reloads, interleaved with anything, an address that every published configuration mentions
    keeps the object it had; so its counter, and with it its connection limit, span the reloads.
  */
  lemma ReloadContinuity(limit: Option<nat>, configs: seq<BackendConfig>, before: seq<Action>, acts: seq<Action>,
                         addr: string, b: Id)
    requires var s := Reached(limit, configs, before);
             Find(s.store, s.list, addr) == Some(b) && KeepsMentioning(limit, s, acts, addr)
    ensures var s' := Exec(limit, Reached(limit, configs, before), acts);
            Find(s'.store, s'.list, addr) == Some(b)
  {
    ListingReached(limit, configs, before);
    SameObjectFrom(limit, Reached(limit, configs, before), acts, addr, b);
  }
}
