/**
  `LoadBalancer`, its `Backend` objects and `ConnectionGuard`, as objects updated in place by one caller at a time.
  (`BalancerMachine` models the same operations step by step under concurrency; `NextBackend` is shown to make the
  choice that a call of the machine makes when nothing interrupts it.)
*/
module Balancer {
  import opened Options
  import opened Rotation
  import opened BackendConfigs
  import M = BalancerMachine
  import BalancerSolo

  class Backend {
    const addr: string
    var activeConnections: Word
    var healthy: bool
    var drain: bool

    constructor (addr: string, drain: bool)
      ensures this.addr == addr && this.drain == drain && healthy && activeConnections == 0
    {
      this.addr := addr;
      this.activeConnections := 0;
      this.healthy := true;
      this.drain := drain;
    }

    /** The backend as the machine sees it. */
    function View(): M.Backend
      reads this
    {
      M.Backend(addr, activeConnections, healthy, drain)
    }
  }

  class ConnectionGuard {
    const backend: Backend

    constructor (backend: Backend)
      ensures this.backend == backend
    {
      this.backend := backend;
    }

    /** Gives the connection back: counting it again would restore the counter. */
    method Drop()
      modifies backend`activeConnections
      ensures old(backend.activeConnections) == (backend.activeConnections + 1) % WORD
    {
      backend.activeConnections := (backend.activeConnections + WORD - 1) % WORD;
    }
  }

  /** The first object with the address. */
  function FindBackend(bs: seq<Backend>, addr: string): (r: Option<Backend>)
    ensures r.Some? ==> exists i :: 0 <= i < |bs| && bs[i] == r.value && bs[i].addr == addr
                                    && forall j :: 0 <= j < i ==> bs[j].addr != addr
    ensures r.None? ==> forall i :: 0 <= i < |bs| ==> bs[i].addr != addr
  {
    if bs == [] then None
    else if bs[0].addr == addr then Some(bs[0])
    else FindBackend(bs[1..], addr)
  }

  /** Of the backends, exactly `b` gained a connection; with no `b`, none did. */
  twostate predicate Gained(bs: seq<Backend>, b: Backend?)
    reads bs
  {
    forall x <- bs ::
      x.activeConnections == if x == b then (old(x.activeConnections) + 1) % WORD else old(x.activeConnections)
  }

  /** Objects in a list, as the store and the list of a machine whose next ticket is given. */
  ghost function Machine(bs: seq<Backend>, ticket: nat): (s: M.State)
    reads bs
    ensures |s.store| == |bs| && s.list == M.UpTo(|bs|) && s.current == ticket
    ensures forall i :: 0 <= i < |bs| ==> s.store[i] == bs[i].View()
  {
    M.State(seq(|bs|, i requires 0 <= i < |bs| reads bs => bs[i].View()),
            M.UpTo(|bs|), ticket, map[], M.Idle, map[], {}, [], map[], map[])
  }

  /** The positions open to a call. */
  ghost function Eligible(limit: Option<nat>, bs: seq<Backend>): (e: seq<bool>)
    reads bs
    ensures |e| == |bs|
    ensures forall i :: 0 <= i < |e| ==> e[i] == BalancerSolo.Open(limit, bs[i].View())
  {
    BalancerSolo.OpenList(limit, Machine(bs, 0), M.UpTo(|bs|))
  }

  /** What an uninterrupted call of the machine picks with the ticket. */
  ghost function Choice(limit: Option<nat>, bs: seq<Backend>, ticket: nat): (p: Option<nat>)
    reads bs
    ensures p == FirstProbe(Eligible(limit, bs), ticket, 0)
  {
    assert Eligible(limit, bs) == BalancerSolo.OpenList(limit, Machine(bs, ticket), M.UpTo(|bs|));
    BalancerSolo.Pick(limit, Machine(bs, ticket), M.UpTo(|bs|), ticket, 0)
  }

  ghost predicate Accepting(limit: Option<nat>, b: Backend)
    reads b
  {
    !b.drain && b.healthy && (limit.Some? ==> b.activeConnections < limit.value)
  }

  /** The choice, in terms of the objects. */
  lemma ChoiceMeaning(limit: Option<nat>, bs: seq<Backend>, ticket: nat)
    requires |bs| <= WORD && ticket < WORD
    ensures var p := Choice(limit, bs, ticket);
            && (p.Some? ==> p.value < |bs| && Accepting(limit, bs[p.value]))
            && (bs == [] || Aligned(ticket, |bs|) ==>
                  && FirstInRotation(Eligible(limit, bs), ticket, p)
                  && (p == None <==> forall b <- bs :: !Accepting(limit, b)))
  {
    var e := Eligible(limit, bs);
    ChoiceOfCall(e, ticket);
    ChoiceIsEligible(e, ticket);
    assert forall i :: 0 <= i < |bs| ==> (e[i] <==> Accepting(limit, bs[i]));
    if true in e {
      var i :| 0 <= i < |e| && e[i];
      assert bs[i] in bs;
    }
  }

  class LoadBalancer {
    var backends: seq<Backend>
    var current: Word
    const connectionLimit: Option<nat>

    ghost predicate Valid()
      reads this
    {
      |backends| <= WORD
    }

    /** One object per entry, healthy and idle. */
    constructor (configs: seq<BackendConfig>, connectionLimit: Option<nat>)
      requires |configs| <= WORD
      ensures Valid() && current == 0 && this.connectionLimit == connectionLimit
      ensures |backends| == |configs|
      ensures forall i :: 0 <= i < |configs| ==>
                && fresh(backends[i])
                && backends[i].addr == configs[i].Addr() && backends[i].drain == configs[i].Drain()
                && backends[i].healthy && backends[i].activeConnections == 0
      ensures forall i, j :: 0 <= i < j < |backends| ==> backends[i] != backends[j]
    {
      this.connectionLimit := connectionLimit;
      current := 0;
      var built: seq<Backend> := [];
      for n := 0 to |configs|
        invariant |built| == n
        invariant forall i :: 0 <= i < n ==>
                    && fresh(built[i]) && built[i].addr == configs[i].Addr() && built[i].drain == configs[i].Drain()
                    && built[i].healthy && built[i].activeConnections == 0
        invariant forall i, j :: 0 <= i < j < n ==> built[i] != built[j]
      {
        var b := new Backend(configs[n].Addr(), configs[n].Drain());
        built := built + [b];
      }
      backends := built;
    }

    /** The loop over the probes: takes the first backend that accepts, in probing order. */
    method Scan(startIndex: Word) returns (guard: Option<ConnectionGuard>)
      requires Valid() && backends != []
      modifies (set b <- backends)`activeConnections
      ensures match FirstProbe(old(Eligible(connectionLimit, backends)), startIndex, 0)
              case None => guard == None && Gained(backends, null)
              case Some(p) => p < |backends| && guard.Some? && fresh(guard.value)
                              && guard.value.backend == backends[p] && Gained(backends, backends[p])
    {
      var len := |backends|;
      for i := 0 to len
        invariant forall b <- backends :: b.activeConnections == old(b.activeConnections)
        invariant Eligible(connectionLimit, backends) == old(Eligible(connectionLimit, backends))
        invariant var e := Eligible(connectionLimit, backends);
                  FirstProbe(e, startIndex, 0) == FirstProbe(e, startIndex, i)
      {
        var idx := ((startIndex + i) % WORD) % len;
        var backend := backends[idx];
        assert Eligible(connectionLimit, backends)[idx] == BalancerSolo.Open(connectionLimit, backend.View());
        if backend.drain {
          continue;
        }
        if !backend.healthy {
          continue;
        }
        if connectionLimit.Some? && backend.activeConnections >= connectionLimit.value {
          continue;
        }
        backend.activeConnections := (backend.activeConnections + 1) % WORD;
        var g := new ConnectionGuard(backend);
        return Some(g);
      }
      return None;
    }

    /**
      Takes a ticket and probes: the choice is that of an uninterrupted call of the machine. A guard is only ever on a
      backend that was undrained, healthy and below the limit; an aligned call takes the first such in rotation from its
      ticket, and returns `None` exactly when there is none. The winner gains one connection and nothing else changes.
    */
    method NextBackend() returns (guard: Option<ConnectionGuard>)
      requires Valid()
      modifies this`current, (set b <- backends)`activeConnections
      ensures current == if backends == [] then old(current) else (old(current) + 1) % WORD
      ensures match old(Choice(connectionLimit, backends, current))
              case None => guard == None && Gained(backends, null)
              case Some(p) => p < |backends| && guard.Some? && fresh(guard.value)
                              && guard.value.backend == backends[p] && Gained(backends, backends[p])
      ensures backends == [] || Aligned(old(current), |backends|) ==>
                FirstInRotation(old(Eligible(connectionLimit, backends)), old(current),
                                old(Choice(connectionLimit, backends, current)))
      ensures guard.Some? ==>
                forall b <- backends :: b == guard.value.backend ==>
                  && !b.drain && b.healthy
                  && (connectionLimit.Some? ==> old(b.activeConnections) < connectionLimit.value)
      ensures backends == [] || Aligned(old(current), |backends|) ==>
                (guard == None <==>
                 forall b <- backends ::
                   || b.drain || !b.healthy
                   || (connectionLimit.Some? && connectionLimit.value <= old(b.activeConnections)))
    {
      ChoiceMeaning(connectionLimit, backends, current);
      if backends == [] {
        return None;
      }
      var startIndex := current;
      current := (current + 1) % WORD;
      guard := Scan(startIndex);
    }

    /**
      Reload: the list follows the configuration; an address the old list had keeps its object, counter and health, and
      every entry with another address gets a new one of its own, healthy and idle; drain flags are the configured ones,
      the last entry of an address deciding.
    */
    method UpdateBackends(configs: seq<BackendConfig>)
      requires Valid() && |configs| <= WORD
      modifies this`backends, (set b <- backends)`drain
      ensures Valid() && |backends| == |configs|
      ensures forall i :: 0 <= i < |configs| ==>
                && backends[i].addr == configs[i].Addr()
                && (match FindBackend(old(backends), configs[i].Addr())
                    case Some(b) => backends[i] == b
                    case None => fresh(backends[i]) && backends[i].healthy && backends[i].activeConnections == 0)
      ensures forall i :: 0 <= i < |configs| && LastWith(configs, |configs|, i) ==>
                backends[i].drain == configs[i].Drain()
      ensures forall i, j :: 0 <= i < j < |configs| && fresh(backends[j]) ==> backends[i] != backends[j]
      ensures forall b <- old(backends) :: b !in backends ==> b.drain == old(b.drain)
    {
      var built: seq<Backend> := [];
      for n := 0 to |configs|
        invariant |built| == n && backends == old(backends)
        invariant forall i :: 0 <= i < n ==>
                    && built[i].addr == configs[i].Addr()
                    && (match FindBackend(backends, configs[i].Addr())
                        case Some(b) => built[i] == b
                        case None => fresh(built[i]) && built[i].healthy && built[i].activeConnections == 0)
        invariant forall i :: 0 <= i < n && LastWith(configs, n, i) ==> built[i].drain == configs[i].Drain()
        invariant forall i, j :: 0 <= i < j < n && fresh(built[j]) ==> built[i] != built[j]
        invariant forall b <- backends :: b !in built ==> b.drain == old(b.drain)
      {
        var c := configs[n];
        match FindBackend(backends, c.Addr()) {
          case Some(existing) =>
            existing.drain := c.Drain();
            built := built + [existing];
          case None =>
            var b := new Backend(c.Addr(), c.Drain());
            built := built + [b];
        }
      }
      backends := built;
    }

    /** A health report reaches the first listed backend with the address, and no other. */
    method SetBackendHealth(addr: string, healthy: bool)
      modifies (set b <- backends)`healthy
      ensures forall b <- backends ::
                b.healthy == if FindBackend(backends, addr) == Some(b) then healthy else old(b.healthy)
    {
      match FindBackend(backends, addr) {
        case Some(b) => b.healthy := healthy;
        case None =>
      }
    }
  }

  lemma OnePredecessor(x: Word, y: Word)
    requires (x + 1) % WORD == (y + 1) % WORD
    ensures x == y
  {
    ModInjective(x + 1, y + 1, WORD);
  }

  /** Selecting and dropping at once leaves every counter as it was, and moves the rotation on by one. */
  method SelectThenDrop(lb: LoadBalancer)
    requires lb.Valid()
    modifies lb`current, (set b <- lb.backends)`activeConnections
    ensures forall b <- lb.backends :: b.activeConnections == old(b.activeConnections)
    ensures lb.backends != [] ==> lb.current == (old(lb.current) + 1) % WORD
  {
    var guard := lb.NextBackend();
    if guard.Some? {
      var b := guard.value.backend;
      guard.value.Drop();
      OnePredecessor(b.activeConnections, old(b.activeConnections));
    }
  }
}
