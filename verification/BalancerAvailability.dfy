/**
  What a call is promised while flags and counters move under it: a backend that stays open to it is found.
*/
module BalancerAvailability {
  import opened Options
  import opened Rotation
  import opened BalancerMachine
  import opened BalancerSolo

  /** The backend is undrained, healthy and below the limit in every state of the run that is left by an action. */
  ghost predicate StaysOpen(limit: Option<nat>, s: State, acts: seq<Action>, b: Id)
    requires Ok(s)
    decreases |acts|
  {
    acts != [] ==>
      b < |s.store| && Open(limit, s.store[b]) && StaysOpen(limit, Do(limit, s, acts[0]), acts[1..], b)
  }

  /** The call that task `t` is making ends, during the run, without a backend. */
  ghost predicate GivesUp(limit: Option<nat>, s: State, acts: seq<Action>, t: nat)
    requires Ok(s)
    decreases |acts|
  {
    && acts != [] && t in s.tasks && s.tasks[t].Probing? && TaskOk(s.tasks[t], |s.store|)
    && (|| (acts[0] == Advance(t) && After(limit, s, s.tasks[t]) == None)
        || GivesUp(limit, Do(limit, s, acts[0]), acts[1..], t))
  }

  /** Probe `d` of the call, not yet finished with, looks at `b`. */
  ghost predicate Ahead(k: Task, b: Id, d: nat) {
    k.Probing? && k.i <= d < |k.snap| && k.snap[Probe(k.ticket, d, |k.snap|)] == b
  }

  lemma AheadAfter(limit: Option<nat>, s: State, k: Task, b: Id, d: nat)
    requires Ok(s) && TaskOk(k, |s.store|) && Ahead(k, b, d) && b < |s.store| && Open(limit, s.store[b])
    ensures var k' := After(limit, s, k);
            k'.Some? && (k'.value.Probing? ==> Ahead(k'.value, b, d))
  {
    if k.i == d {
      assert Target(k) == b;
    }
  }

  lemma AheadStep(limit: Option<nat>, s: State, a: Action, t: nat, b: Id, d: nat)
    requires Ok(s) && t in s.tasks && Ahead(s.tasks[t], b, d) && b < |s.store| && Open(limit, s.store[b])
    ensures TaskOk(s.tasks[t], |s.store|) && After(limit, s, s.tasks[t]).Some?
    ensures var s' := Do(limit, s, a);
            t in s'.tasks && (s'.tasks[t].Probing? ==> Ahead(s'.tasks[t], b, d))
  {
    assert TaskOk(s.tasks[t], |s.store|);
    AheadAfter(limit, s, s.tasks[t], b, d);
  }

  lemma {:induction false} FindsWhatIsAhead(limit: Option<nat>, s: State, acts: seq<Action>, t: nat, b: Id, d: nat)
    requires Ok(s) && t in s.tasks && Ahead(s.tasks[t], b, d) && StaysOpen(limit, s, acts, b)
    ensures !GivesUp(limit, s, acts, t)
    decreases |acts|
  {
    if acts != [] {
      AheadStep(limit, s, acts[0], t, b, d);
      var s' := Do(limit, s, acts[0]);
      if t in s'.tasks && s'.tasks[t].Probing? {
        FindsWhatIsAhead(limit, s', acts[1..], t, b, d);
      }
    }
  }

  /**
    Whatever else happens, reloads, drops and health changes of other backends included: a call with an aligned ticket
    does not end without a backend if one backend of its list stays undrained, healthy and below the limit.
  */
  lemma AlignedCallFinds(limit: Option<nat>, s: State, acts: seq<Action>, t: nat, b: Id)
    requires Ok(s) && t in s.tasks && s.tasks[t].Probing? && s.tasks[t].i == 0
    requires var k := s.tasks[t]; 0 < |k.snap| <= WORD && k.ticket < WORD && Aligned(k.ticket, |k.snap|) && b in k.snap
    requires StaysOpen(limit, s, acts, b)
    ensures !GivesUp(limit, s, acts, t)
  {
    var k := s.tasks[t];
    var p: nat :| p < |k.snap| && k.snap[p] == b;
    AlignedReaches(k.ticket, |k.snap|, p);
    var d: nat :| d < |k.snap| && Probe(k.ticket, d, |k.snap|) == p;
    FindsWhatIsAhead(limit, s, acts, t, b, d);
  }

  // ----- A misaligned call can fail -----------------------------------------------------

  /** From probe `i` on, the call looks at no open backend. */
  ghost predicate NothingAhead(limit: Option<nat>, s: State, k: Task) {
    && k.Probing? && IdsBelow(k.snap, |s.store|)
    && forall d: nat :: k.i <= d < |k.snap| ==> !Open(limit, s.store[k.snap[Probe(k.ticket, d, |k.snap|)]])
  }

  lemma StillTurns(limit: Option<nat>, s: State, k: Task)
    requires TaskOk(k, |s.store|) && NothingAhead(limit, s, k) && WillTurn(limit, s.store[Target(k)], k.point)
    ensures var k' := After(limit, s, k);
            k'.Some? ==>
              && k'.value.Probing? && k'.value.snap == k.snap && TaskOk(k'.value, |s.store|)
              && (k'.value.i == k.i + 1 || (k'.value.i == k.i && ChecksLeft(k'.value) < ChecksLeft(k)))
              && NothingAhead(limit, s, k'.value) && WillTurn(limit, s.store[Target(k'.value)], k'.value.point)
  {
    if After(limit, s, k) != Skip(k) {
      TurnsLater(limit, s, k);
    }
  }

  lemma {:induction false} FailsAlone(limit: Option<nat>, s: State, t: nat, b: Id) returns (n: nat)
    requires Ok(s) && t in s.tasks && NothingAhead(limit, s, s.tasks[t])
    requires WillTurn(limit, s.store[Target(s.tasks[t])], s.tasks[t].point)
    requires b < |s.store| && Open(limit, s.store[b])
    ensures GivesUp(limit, s, Advances(t, n), t) && StaysOpen(limit, s, Advances(t, n), b)
    decreases |s.tasks[t].snap| - s.tasks[t].i, ChecksLeft(s.tasks[t])
  {
    var k := s.tasks[t];
    assert TaskOk(k, |s.store|);
    var k' := After(limit, s, k);
    if k' == None {
      n := 1;
    } else {
      var s' := Do(limit, s, Advance(t));
      StillTurns(limit, s, k);
      assert s'.store == s.store && s'.tasks[t] == k'.value;
      var m := FailsAlone(limit, s', t, b);
      n := m + 1;
      assert Advances(t, n)[1..] == Advances(t, m);
    }
  }

  /** With a misaligned ticket, a backend at the missed position is not found, though it is open all along. */
  lemma MisalignedCallMisses(limit: Option<nat>, s: State, t: nat) returns (n: nat)
    requires Ok(s) && t in s.tasks && s.tasks[t].Probing? && s.tasks[t].point.ReadDrain? && s.tasks[t].i == 0
    requires var k := s.tasks[t];
             && 0 < |k.snap| <= WORD && k.ticket < WORD && !Aligned(k.ticket, |k.snap|) && IdsBelow(k.snap, |s.store|)
             && forall p: nat :: p < |k.snap| ==> (Open(limit, s.store[k.snap[p]]) <==> p == Missed(k.ticket, |k.snap|))
    ensures var k := s.tasks[t];
            && Missed(k.ticket, |k.snap|) < |k.snap|
            && StaysOpen(limit, s, Advances(t, n), k.snap[Missed(k.ticket, |k.snap|)])
            && GivesUp(limit, s, Advances(t, n), t)
  {
    var k := s.tasks[t];
    CoverageIffAligned(k.ticket, |k.snap|);
    forall d: nat | d < |k.snap| ensures !Open(limit, s.store[k.snap[Probe(k.ticket, d, |k.snap|)]]) {
      MisalignedProbe(k.ticket, d, |k.snap|);
    }
    n := FailsAlone(limit, s, t, k.snap[Missed(k.ticket, |k.snap|)]);
  }
}
