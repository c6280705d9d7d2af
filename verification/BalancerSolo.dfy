/**
  One call of the machine, advanced without interruption, does what the sequential `NextBackend` does: the same ticket,
  the same choice from the same eligibility, limit included, and the same effect on the counters.
*/
module BalancerSolo {
  import opened Options
  import opened Rotation
  import opened BalancerMachine

  /** The three checks of a probe at one instant. */
  predicate Open(limit: Option<nat>, b: Backend) {
    !b.drain && b.healthy && (limit.Some? ==> b.active < limit.value)
  }

  function OpenList(limit: Option<nat>, s: State, snap: seq<Id>): (e: seq<bool>)
    requires IdsBelow(snap, |s.store|)
    ensures |e| == |snap|
  {
    seq(|snap|, i requires 0 <= i < |snap| => Open(limit, s.store[snap[i]]))
  }

  function Advances(t: nat, n: nat): seq<Action> {
    if n == 0 then [] else [Advance(t)] + Advances(t, n - 1)
  }

  /** The balancer with task `t` moved to `k`. */
  function Moved(s: State, t: nat, k: Task): State {
    s.(tasks := s.tasks[t := k])
  }

  /** The balancer after the call of task `t` with the given ticket and list has made its choice. */
  function Decided(s: State, t: nat, ticket: nat, snap: seq<Id>, pick: Option<nat>): State
    requires pick.Some? ==> pick.value < |snap| && snap[pick.value] < |s.store|
  {
    match pick
    case None => s.(tasks := s.tasks - {t}, log := s.log[ticket := None])
    case Some(p) =>
      var b := snap[p];
      Moved(s, t, Counted(b, s.store[b].addr)).(
        store := s.store[b := s.store[b].(active := Up(s.store[b].active))],
        log := s.log[ticket := Some(p)])
  }

  // ----- One probe ----------------------------------------------------------------------

  lemma MovedOk(s: State, t: nat, k: Task)
    requires Ok(s) && TaskOk(k, |s.store|)
    ensures Ok(Moved(s, t, k))
  {
  }

  lemma PointStep(limit: Option<nat>, s: State, t: nat, k: Task, k': Task)
    requires Ok(s) && TaskOk(k, |s.store|) && k.Probing? && !k.point.Increment? && After(limit, s, k) == Some(k')
    ensures Ok(Moved(s, t, k)) && Do(limit, Moved(s, t, k), Advance(t)) == Moved(s, t, k')
  {
    MovedOk(s, t, k);
    assert s.tasks[t := k][t := k'] == s.tasks[t := k'];
  }

  lemma LastSkip(limit: Option<nat>, s: State, t: nat, k: Task)
    requires Ok(s) && TaskOk(k, |s.store|) && k.Probing? && !k.point.Increment? && After(limit, s, k) == None
    ensures Ok(Moved(s, t, k)) && Do(limit, Moved(s, t, k), Advance(t)) == Decided(s, t, k.ticket, k.snap, None)
  {
    MovedOk(s, t, k);
    assert s.tasks[t := k] - {t} == s.tasks - {t};
  }

  lemma Take(limit: Option<nat>, s: State, t: nat, k: Task)
    requires Ok(s) && TaskOk(k, |s.store|) && Increments(k)
    ensures Ok(Moved(s, t, k))
    ensures Do(limit, Moved(s, t, k), Advance(t))
         == Decided(s, t, k.ticket, k.snap, Some(Probe(k.ticket, k.i, |k.snap|)))
  {
    MovedOk(s, t, k);
    assert s.tasks[t := k][t := Counted(Target(k), s.store[Target(k)].addr)]
        == s.tasks[t := Counted(Target(k), s.store[Target(k)].addr)];
  }

  /** Advancing task `t` alone leads from one state to the other. */
  ghost predicate Comes(limit: Option<nat>, s: State, t: nat, s': State) {
    Ok(s) && exists n: nat :: Exec(limit, s, Advances(t, n)) == s'
  }

  lemma ComesAtOnce(limit: Option<nat>, s: State, t: nat)
    requires Ok(s)
    ensures Comes(limit, s, t, s)
  {
    assert Exec(limit, s, Advances(t, 0)) == s;
  }

  /** One step, then the rest. */
  lemma ComesNext(limit: Option<nat>, s: State, t: nat, s1: State, s': State)
    requires Ok(s) && Do(limit, s, Advance(t)) == s1 && Comes(limit, s1, t, s')
    ensures Comes(limit, s, t, s')
  {
    var n: nat :| Exec(limit, s1, Advances(t, n)) == s';
    ExecCons(limit, s, Advance(t), Advances(t, n));
    assert Exec(limit, s, Advances(t, n + 1)) == s';
  }

  /** An open backend is taken; `k` may be at any of its checks. */
  lemma {:induction false} OpenIsTaken(limit: Option<nat>, s: State, t: nat, k: Task)
    requires Ok(s) && TaskOk(k, |s.store|) && k.Probing? && Open(limit, s.store[Target(k)])
    ensures Comes(limit, Moved(s, t, k), t, Decided(s, t, k.ticket, k.snap, Some(Probe(k.ticket, k.i, |k.snap|))))
    decreases ChecksLeft(k)
  {
    var s' := Decided(s, t, k.ticket, k.snap, Some(Probe(k.ticket, k.i, |k.snap|)));
    if k.point.Increment? {
      Take(limit, s, t, k);
      ComesAtOnce(limit, s', t);
      ComesNext(limit, Moved(s, t, k), t, s', s');
    } else {
      var k' := After(limit, s, k).value;
      OpenIsTaken(limit, s, t, k');
      PointStep(limit, s, t, k, k');
      ComesNext(limit, Moved(s, t, k), t, Moved(s, t, k'), s');
    }
  }

  function ChecksLeft(k: Task): nat
    requires k.Probing?
  {
    match k.point case ReadDrain => 3 case ReadHealth => 2 case ReadCount => 1 case Increment => 0
  }

  /** Where a call goes from a backend that is not open. */
  function Skipped(s: State, t: nat, k: Task): State
    requires k.Probing?
  {
    if Skip(k).Some? then Moved(s, t, Skip(k).value) else Decided(s, t, k.ticket, k.snap, None)
  }

  lemma SkipStep(limit: Option<nat>, s: State, t: nat, k: Task, s': State)
    requires Ok(s) && TaskOk(k, |s.store|) && k.Probing? && !k.point.Increment? && After(limit, s, k) == Skip(k)
    requires Comes(limit, Skipped(s, t, k), t, s')
    ensures Comes(limit, Moved(s, t, k), t, s')
  {
    if Skip(k).Some? { PointStep(limit, s, t, k, Skip(k).value); } else { LastSkip(limit, s, t, k); }
    ComesNext(limit, Moved(s, t, k), t, Skipped(s, t, k), s');
  }

  /** The check at which a call turns away from a backend that is not open is ahead. */
  predicate WillTurn(limit: Option<nat>, b: Backend, point: Point) {
    match point
    case ReadDrain => !Open(limit, b)
    case ReadHealth => !b.healthy || (limit.Some? && b.active >= limit.value)
    case ReadCount => limit.Some? && b.active >= limit.value
    case Increment => false
  }

  lemma TurnsLater(limit: Option<nat>, s: State, k: Task)
    requires TaskOk(k, |s.store|) && k.Probing? && WillTurn(limit, s.store[Target(k)], k.point)
    requires After(limit, s, k) != Skip(k)
    ensures var k' := After(limit, s, k);
            && k'.Some? && TaskOk(k'.value, |s.store|) && k'.value.Probing? && ChecksLeft(k'.value) < ChecksLeft(k)
            && k'.value == k.(point := k'.value.point) && WillTurn(limit, s.store[Target(k'.value)], k'.value.point)
  {
  }

  lemma {:induction false} ShutIsSkipped(limit: Option<nat>, s: State, t: nat, k: Task, s': State)
    requires Ok(s) && TaskOk(k, |s.store|) && k.Probing? && WillTurn(limit, s.store[Target(k)], k.point)
    requires Comes(limit, Skipped(s, t, k), t, s')
    ensures Comes(limit, Moved(s, t, k), t, s')
    decreases ChecksLeft(k)
  {
    if After(limit, s, k) == Skip(k) {
      SkipStep(limit, s, t, k, s');
    } else {
      var k' := After(limit, s, k).value;
      TurnsLater(limit, s, k);
      assert Skipped(s, t, k') == Skipped(s, t, k);
      ShutIsSkipped(limit, s, t, k', s');
      PointStep(limit, s, t, k, k');
      ComesNext(limit, Moved(s, t, k), t, Moved(s, t, k'), s');
    }
  }

  // ----- The whole call -----------------------------------------------------------------

  lemma FirstProbeInRange(eligible: seq<bool>, start: nat, i: nat)
    requires i <= |eligible|
    ensures FirstProbe(eligible, start, i).Some? ==> FirstProbe(eligible, start, i).value < |eligible|
  {
    var d := FirstProbeFrom(eligible, start, i);
  }

  /** The first open position of a list, in probing order from probe `i` on. */
  function Pick(limit: Option<nat>, s: State, snap: seq<Id>, ticket: nat, i: nat): (p: Option<nat>)
    requires IdsBelow(snap, |s.store|) && i <= |snap|
    ensures p.Some? ==> p.value < |snap|
  {
    FirstProbeInRange(OpenList(limit, s, snap), ticket, i);
    FirstProbe(OpenList(limit, s, snap), ticket, i)
  }

  lemma PickStep(limit: Option<nat>, s: State, k: Task)
    requires TaskOk(k, |s.store|) && k.Probing?
    ensures Pick(limit, s, k.snap, k.ticket, k.i)
         == if Open(limit, s.store[Target(k)]) then Some(Probe(k.ticket, k.i, |k.snap|))
            else Pick(limit, s, k.snap, k.ticket, k.i + 1)
    ensures Pick(limit, s, k.snap, k.ticket, |k.snap|) == None
  {
    assert OpenList(limit, s, k.snap)[Probe(k.ticket, k.i, |k.snap|)] == Open(limit, s.store[Target(k)]);
  }

  /** From any probe on, the call picks the first open position. */
  lemma {:induction false} ProbesAlone(limit: Option<nat>, s: State, t: nat, k: Task)
    requires Ok(s) && TaskOk(k, |s.store|) && k.Probing? && k.point.ReadDrain?
    ensures Comes(limit, Moved(s, t, k), t,
                  Decided(s, t, k.ticket, k.snap, Pick(limit, s, k.snap, k.ticket, k.i)))
    decreases |k.snap| - k.i
  {
    PickStep(limit, s, k);
    if Open(limit, s.store[Target(k)]) {
      OpenIsTaken(limit, s, t, k);
    } else {
      var s' := Decided(s, t, k.ticket, k.snap, Pick(limit, s, k.snap, k.ticket, k.i + 1));
      if k.i + 1 < |k.snap| {
        ProbesAlone(limit, s, t, k.(i := k.i + 1));
        assert Skipped(s, t, k) == Moved(s, t, k.(i := k.i + 1));
      } else {
        assert Skipped(s, t, k) == s';
        LastSkipOk(s, t, k);
        ComesAtOnce(limit, s', t);
      }
      ShutIsSkipped(limit, s, t, k, s');
    }
  }

  lemma LastSkipOk(s: State, t: nat, k: Task)
    requires Ok(s) && k.Probing?
    ensures Ok(Decided(s, t, k.ticket, k.snap, None))
  {
  }

  /**
    A call that nothing interrupts: it takes one ticket, picks the first open position of the list in probing order from
    that ticket, and increments the counter of that backend and no other; on an empty list it ends and changes nothing.
  */
  lemma CallAlone(limit: Option<nat>, s: State, t: nat)
    requires Ok(s) && t in s.tasks && s.tasks[t].Started?
    ensures if s.list == [] then
              Comes(limit, s, t, s.(tasks := s.tasks - {t}))
            else
              Comes(limit, s, t, Decided(s.(current := Up(s.current)), t, s.current, s.list,
                                         Pick(limit, s, s.list, s.current, 0)))
  {
    var s1 := Do(limit, s, Advance(t));
    if s.list == [] {
      ComesAtOnce(limit, s1, t);
      ComesNext(limit, s, t, s1, s1);
    } else {
      var u, k := s.(current := Up(s.current)), Probing(ReadDrain, s.list, s.current, 0);
      var s2 := Moved(u, t, k);
      assert s1.tasks[t := k] == s.tasks[t := k];
      assert Do(limit, s1, Advance(t)) == s2;
      ProbesAlone(limit, u, t, k);
      assert OpenList(limit, u, s.list) == OpenList(limit, s, s.list);
      var s' := Decided(u, t, s.current, s.list, Pick(limit, s, s.list, s.current, 0));
      ComesNext(limit, s1, t, s2, s');
      ComesNext(limit, s, t, s1, s');
    }
  }
}
