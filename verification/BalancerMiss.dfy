/**
  The rotation overflow in runs of the balancer. The ticket is the balancer's own counter, so a misaligned call takes
  many calls before it; here they are made, from a new balancer, and the call misses an open backend.
*/
module BalancerMiss {
  import opened Options
  import opened Rotation
  import opened BackendConfigs
  import opened BalancerMachine
  import opened BalancerSafety
  import opened BalancerSolo
  import opened BalancerAvailability

  // ----- Runs between two states --------------------------------------------------------

  ghost predicate Leads(limit: Option<nat>, s: State, s': State) {
    Ok(s) && Ok(s') && exists acts :: Exec(limit, s, acts) == s'
  }

  lemma LeadsBy(limit: Option<nat>, s: State, s': State, a: Action)
    requires Leads(limit, s, s')
    ensures Leads(limit, s, Do(limit, s', a))
  {
    var acts :| Exec(limit, s, acts) == s';
    ExecSnoc(limit, s, acts, a);
  }

  lemma LeadsAlone(limit: Option<nat>, s: State, s': State, t: nat, s'': State)
    requires Leads(limit, s, s') && Comes(limit, s', t, s'')
    ensures Leads(limit, s, s'')
  {
    var acts :| Exec(limit, s, acts) == s';
    var n: nat :| Exec(limit, s', Advances(t, n)) == s'';
    ExecAppend(limit, s, acts, Advances(t, n));
  }

  // ----- Call after call ----------------------------------------------------------------

  /** The same objects and list, the given next ticket, and one task at most. */
  ghost predicate Like(u: State, s: State, current: nat, tasks: map<nat, Task>) {
    Ok(s) && s.store == u.store && s.list == u.list && s.current == current && s.tasks == tasks
  }

  lemma SpawnStep(limit: Option<nat>, s: State)
    requires Ok(s) && s.tasks == map[]
    ensures Like(s, Do(limit, s, Spawn(0)), s.current, map[0 := Started])
  {
  }

  lemma ReturnStep(limit: Option<nat>, s: State, b: Id, addr: string)
    requires Ok(s) && s.tasks == map[0 := Counted(b, addr)]
    ensures Like(s, Do(limit, s, Advance(0)), s.current, map[0 := Holding(b, addr)])
  {
  }

  lemma DropStep(limit: Option<nat>, u: State, s: State, b: Id, addr: string)
    requires Ok(s) && s.tasks == map[0 := Holding(b, addr)] && s.list == u.list
    requires b < |u.store| && u.store[b].active < WORD
    requires s.store == u.store[b := u.store[b].(active := Up(u.store[b].active))]
    ensures Like(u, Do(limit, s, Advance(0)), s.current, map[0 := Released(addr)])
  {
    WordUpDown(u.store[b].active);
    assert Do(limit, s, Advance(0)).store == u.store;
  }

  lemma EndStep(limit: Option<nat>, s: State, addr: string)
    requires Ok(s) && s.tasks == map[0 := Released(addr)]
    ensures Like(s, Do(limit, s, Advance(0)), s.current, map[])
  {
  }

  /** A call that has chosen returns, and its guard is dropped: the counter is back. */
  lemma ReturnAndDrop(limit: Option<nat>, from: State, u: State, s: State, b: Id, addr: string) returns (s': State)
    requires Leads(limit, from, s) && s.tasks == map[0 := Counted(b, addr)] && s.list == u.list
    requires b < |u.store| && u.store[b].active < WORD
    requires s.store == u.store[b := u.store[b].(active := Up(u.store[b].active))]
    ensures Leads(limit, from, s') && Like(u, s', s.current, map[])
  {
    var s1 := Do(limit, s, Advance(0));
    ReturnStep(limit, s, b, addr);
    LeadsBy(limit, from, s, Advance(0));
    var s2 := Do(limit, s1, Advance(0));
    DropStep(limit, u, s1, b, addr);
    LeadsBy(limit, from, s1, Advance(0));
    s' := Do(limit, s2, Advance(0));
    EndStep(limit, s2, addr);
    LeadsBy(limit, from, s2, Advance(0));
  }

  /** What a choice makes of a balancer whose only task is making it. */
  ghost predicate Chose(u: State, s: State, picked: Option<Id>) {
    && s.list == u.list && s.current == Up(u.current)
    && match picked
       case None => s.tasks == map[] && s.store == u.store
       case Some(b) =>
         && b < |u.store| && s.tasks == map[0 := Counted(b, u.store[b].addr)]
         && s.store == u.store[b := u.store[b].(active := Up(u.store[b].active))]
  }

  lemma DecidedChose(u: State, ticket: nat, pick: Option<nat>)
    requires Ok(u) && u.tasks == map[0 := Started] && (pick.Some? ==> pick.value < |u.list|)
    ensures Chose(u, Decided(u.(current := Up(u.current)), 0, ticket, u.list, pick),
                  if pick.Some? then Some(u.list[pick.value]) else None)
  {
  }

  lemma ChooseAlone(limit: Option<nat>, s: State) returns (s': State, picked: Option<Id>)
    requires Ok(s) && s.tasks == map[0 := Started] && s.list != []
    ensures Comes(limit, s, 0, s') && Chose(s, s', picked)
  {
    CallAlone(limit, s, 0);
    var pick := Pick(limit, s, s.list, s.current, 0);
    DecidedChose(s, s.current, pick);
    s' := Decided(s.(current := Up(s.current)), 0, s.current, s.list, pick);
    picked := if pick.Some? then Some(s.list[pick.value]) else None;
  }

  lemma SpawnAndChoose(limit: Option<nat>, from: State, s: State) returns (s': State, picked: Option<Id>)
    requires Leads(limit, from, s) && s.tasks == map[] && s.list != []
    ensures Leads(limit, from, s') && Chose(s, s', picked)
  {
    var s1 := Do(limit, s, Spawn(0));
    SpawnStep(limit, s);
    LeadsBy(limit, from, s, Spawn(0));
    s', picked := ChooseAlone(limit, s1);
    LeadsAlone(limit, from, s1, 0, s');
  }

  /** One call alone and its drop use up one ticket and leave nothing else behind. */
  lemma OneMoreTicket(limit: Option<nat>, from: State, s: State) returns (s': State)
    requires Leads(limit, from, s) && s.tasks == map[] && s.list != [] && s.current + 1 < WORD
    requires forall b: Id :: b < |s.store| ==> s.store[b].active < WORD
    ensures Leads(limit, from, s') && Like(s, s', s.current + 1, map[])
  {
    var s1, picked := SpawnAndChoose(limit, from, s);
    assert s1.current == s.current + 1;
    if picked == None {
      s' := s1;
    } else {
      var b := picked.value;
      s' := ReturnAndDrop(limit, from, s, s1, b, s.store[b].addr);
    }
  }

  /** Every ticket is reached from a new balancer, with its objects as they were made. */
  lemma {:induction false} TicketIsReached(limit: Option<nat>, configs: seq<BackendConfig>, n: nat) returns (s: State)
    requires configs != [] && n < WORD
    ensures Leads(limit, Init(configs), s) && Like(Init(configs), s, n, map[])
  {
    if n == 0 {
      s := Init(configs);
      InitOk(configs);
      assert Exec(limit, s, []) == s;
    } else {
      var past := TicketIsReached(limit, configs, n - 1);
      s := OneMoreTicket(limit, Init(configs), past);
    }
  }

  // ----- The missed backend -------------------------------------------------------------

  /** Every backend is draining, except at the position that a call with the ticket misses. */
  function OnlyMissed(addrs: seq<string>, ticket: nat): seq<BackendConfig>
    requires 0 < |addrs| <= WORD && ticket < WORD && !Aligned(ticket, |addrs|)
  {
    seq(|addrs|, i requires 0 <= i < |addrs| => Detailed(addrs[i], i != Missed(ticket, |addrs|)))
  }

  lemma OnlyMissedIsOpen(limit: Option<nat>, addrs: seq<string>, ticket: nat, s: State)
    requires 0 < |addrs| <= WORD && ticket < WORD && !Aligned(ticket, |addrs|) && limit != Some(0)
    requires var u := Init(OnlyMissed(addrs, ticket)); s.store == u.store && s.list == u.list
    ensures |s.store| == |s.list| == |addrs|
    ensures forall p: nat :: p < |addrs| ==>
              && s.list[p] == p
              && (Open(limit, s.store[s.list[p]]) <==> p == Missed(ticket, |addrs|))
  {
  }

  lemma LoadStep(limit: Option<nat>, s: State)
    requires Ok(s) && s.tasks == map[0 := Started] && s.list != []
    ensures Like(s, Do(limit, s, Advance(0)), s.current, map[0 := Loaded(s.list)])
  {
  }

  lemma TicketStep(limit: Option<nat>, s: State)
    requires Ok(s) && s.tasks == map[0 := Loaded(s.list)]
    ensures Like(s, Do(limit, s, Advance(0)), Up(s.current), map[0 := Probing(ReadDrain, s.list, s.current, 0)])
  {
  }

  lemma TakeTicket(limit: Option<nat>, from: State, s: State) returns (s': State)
    requires Leads(limit, from, s) && s.tasks == map[] && s.list != []
    ensures Leads(limit, from, s') && Like(s, s', Up(s.current), map[0 := Probing(ReadDrain, s.list, s.current, 0)])
  {
    var s1 := Do(limit, s, Spawn(0));
    SpawnStep(limit, s);
    LeadsBy(limit, from, s, Spawn(0));
    var s2 := Do(limit, s1, Advance(0));
    LoadStep(limit, s1);
    LeadsBy(limit, from, s1, Advance(0));
    s' := Do(limit, s2, Advance(0));
    TicketStep(limit, s2);
    LeadsBy(limit, from, s2, Advance(0));
  }

  /**
    From a new balancer: after `before`, task `t` is about to probe a list of length `len`; its call ends during `acts`
    without a backend, though backend `b` of the list is open all along.
  */
  ghost predicate Misses(limit: Option<nat>, configs: seq<BackendConfig>, before: seq<Action>, acts: seq<Action>,
                         t: nat, b: Id, len: nat)
  {
    var s := Reached(limit, configs, before);
    && t in s.tasks && s.tasks[t].Probing? && s.tasks[t].i == 0 && |s.tasks[t].snap| == len && b in s.tasks[t].snap
    && StaysOpen(limit, s, acts, b) && GivesUp(limit, s, acts, t)
  }

  /**
    For every list of addresses, every limit that admits anything and every ticket misaligned for the list: a new
    balancer in which only the missed backend is in service comes to a call with that ticket, and the call misses it.
  */
  lemma MisalignedCallIsReached(limit: Option<nat>, addrs: seq<string>, ticket: nat)
    returns (before: seq<Action>, n: nat)
    requires 0 < |addrs| <= WORD && ticket < WORD && !Aligned(ticket, |addrs|) && limit != Some(0)
    ensures var configs := OnlyMissed(addrs, ticket);
            && Misses(limit, configs, before, Advances(0, n), 0, Missed(ticket, |addrs|), |addrs|)
            && Reached(limit, configs, before).tasks[0].ticket == ticket
  {
    var configs, b := OnlyMissed(addrs, ticket), Missed(ticket, |addrs|);
    var s := TicketIsReached(limit, configs, ticket);
    s := TakeTicket(limit, Init(configs), s);
    before :| Exec(limit, Init(configs), before) == s;
    CoverageIffAligned(ticket, |addrs|);
    OnlyMissedIsOpen(limit, addrs, ticket, s);
    n := MisalignedCallMisses(limit, s, 0);
  }

  ghost predicate NeverMisses(limit: Option<nat>, len: nat) {
    forall configs, before, acts, t, b :: !Misses(limit, configs, before, acts, t, b, len)
  }

  /**
    In every run of every balancer, no call over a list of the given length misses a backend that stays open, if and
    only if the length divides 2^64 (or the limit is zero, and none is ever open).
  */
  lemma NeverMissesIffDivides(limit: Option<nat>, len: nat)
    requires 0 < len <= WORD
    ensures NeverMisses(limit, len) <==> WORD % len == 0 || limit == Some(0)
  {
    if WORD % len == 0 || limit == Some(0) {
      forall configs, before, acts, t, b ensures !Misses(limit, configs, before, acts, t, b, len) {
        DividingNeverMisses(limit, configs, before, acts, t, b, len);
      }
    } else {
      var addrs := seq(len, i => "backend");
      assert !Aligned(WORD - 1, len);
      var before, n := MisalignedCallIsReached(limit, addrs, WORD - 1);
    }
  }

  lemma DividingNeverMisses(limit: Option<nat>, configs: seq<BackendConfig>, before: seq<Action>, acts: seq<Action>,
                            t: nat, b: Id, len: nat)
    requires 0 < len <= WORD && (WORD % len == 0 || limit == Some(0))
    ensures !Misses(limit, configs, before, acts, t, b, len)
  {
    if Misses(limit, configs, before, acts, t, b, len) && limit != Some(0) {
      var s := Reached(limit, configs, before);
      assert TaskOk(s.tasks[t], |s.store|);
      AlignedCallFinds(limit, s, acts, t, b);
    }
  }
}
