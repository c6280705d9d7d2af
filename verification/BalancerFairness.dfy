/**
  Fair shares under concurrency. While the list and the flags do not change and no backend is full, what a call
  picks depends on its ticket alone, so any lap of consecutive tickets splits among the backends in exact shares,
  in whatever order the calls interleave.
*/
module BalancerFairness {
  import opened Options
  import opened Rotation
  import opened BalancerMachine

  /** Which positions of the current list accept traffic, the limit aside. */
  function Eligible(s: State): (e: seq<bool>)
    requires Ok(s)
    ensures |e| == |s.list|
  {
    seq(|s.list|, i requires 0 <= i < |s.list| => !s.store[s.list[i]].drain && s.store[s.list[i]].healthy)
  }

  /** No listed backend is at its limit, and the ticket counter is not about to wrap. */
  ghost predicate Roomy(limit: Option<nat>, s: State)
    requires Ok(s)
  {
    && s.current + |s.list| + 1 < WORD
    && (limit.Some? ==> forall i :: 0 <= i < |s.list| ==> s.store[s.list[i]].active < limit.value)
  }

  /** A run of connection tasks only, through states with room. */
  ghost predicate Calm(limit: Option<nat>, s: State, acts: seq<Action>)
    requires Ok(s)
    decreases |acts|
  {
    acts != [] ==>
      && Roomy(limit, s)
      && (acts[0].Spawn? || acts[0].Advance?)
      && Calm(limit, Do(limit, s, acts[0]), acts[1..])
  }

  /** No ticket from the counter on is in use, and calls about to take one hold the current list. */
  ghost predicate QuietStart(s: State) {
    && (forall t <- s.tasks :: s.tasks[t].Probing? ==> s.tasks[t].ticket < s.current)
    && (forall t <- s.tasks :: s.tasks[t].Loaded? ==> s.tasks[t].snap == s.list)
    && (forall ticket <- s.log :: ticket < s.current)
  }

  /** A call with a ticket from `since` on: the probes behind it do not change what it will pick. */
  ghost predicate OnCourse(s: State, since: nat, k: Task)
    requires Ok(s)
  {
    && (k.Loaded? ==> k.snap == s.list)
    && (k.Probing? && since <= k.ticket ==>
          && k.snap == s.list && k.i < |s.list|
          && k.ticket < s.current && NoOverflow(k.ticket, |s.list|)
          && FirstProbe(Eligible(s), k.ticket, 0) == FirstProbe(Eligible(s), k.ticket, k.i)
          && (!k.point.ReadDrain? ==> !s.store[Target(k)].drain)
          && (k.point.ReadCount? || k.point.Increment? ==> s.store[Target(k)].healthy))
  }

  /** Every call with a ticket from `since` on picks, or has picked, by its ticket alone. */
  ghost predicate ByTicket(s: State, since: nat)
    requires Ok(s)
  {
    && since <= s.current
    && (forall t <- s.tasks :: OnCourse(s, since, s.tasks[t]))
    && (forall ticket <- s.log :: since <= ticket ==>
          NoOverflow(ticket, |s.list|) && ticket < WORD && s.log[ticket] == FirstProbe(Eligible(s), ticket, 0))
  }

  lemma FlagsKept(limit: Option<nat>, s: State, a: Action)
    requires Ok(s) && Enabled(s, a) && (a.Spawn? || a.Advance?)
    ensures var s' := Next(limit, s, a);
            && Ok(s') && s'.list == s.list && |s'.store| == |s.store|
            && (forall b: Id :: b < |s.store| ==>
                  s'.store[b].drain == s.store[b].drain && s'.store[b].healthy == s.store[b].healthy)
            && Eligible(s') == Eligible(s)
  {
    NextOk(limit, s, a);
    if a.Advance? { assert TaskOk(s.tasks[a.t], |s.store|); }
  }

  lemma OnCourseFrame(s: State, s': State, since: nat, k: Task)
    requires Ok(s) && Ok(s') && OnCourse(s, since, k) && TaskOk(k, |s.store|)
    requires s'.list == s.list && |s'.store| == |s.store| && s.current <= s'.current
    requires forall b: Id :: b < |s.store| ==>
               s'.store[b].drain == s.store[b].drain && s'.store[b].healthy == s.store[b].healthy
    requires Eligible(s') == Eligible(s)
    ensures OnCourse(s', since, k)
  {
  }

  lemma TargetEligible(s: State, k: Task)
    requires Ok(s) && TaskOk(k, |s.store|) && k.Probing? && k.snap == s.list
    ensures Target(k) < |s.store|
    ensures Eligible(s)[Probe(k.ticket, k.i, |s.list|)] == (!s.store[Target(k)].drain && s.store[Target(k)].healthy)
  {
  }

  /** Skipping an ineligible position does not change what the call will pick. */
  lemma SkipKept(s: State, since: nat, k: Task)
    requires Ok(s) && TaskOk(k, |s.store|) && OnCourse(s, since, k) && k.Probing? && since <= k.ticket
    requires !Eligible(s)[Probe(k.ticket, k.i, |s.list|)]
    ensures if Skip(k).Some? then OnCourse(s, since, Skip(k).value) else FirstProbe(Eligible(s), k.ticket, 0) == None
  {
    assert FirstProbe(Eligible(s), k.ticket, k.i) == FirstProbe(Eligible(s), k.ticket, k.i + 1);
  }

  /** Moving on keeps a call on course; it gives up only if nothing is eligible from its ticket. */
  lemma CourseKept(limit: Option<nat>, s: State, since: nat, k: Task)
    requires Ok(s) && Roomy(limit, s) && TaskOk(k, |s.store|) && OnCourse(s, since, k)
    requires k.Probing? && since <= k.ticket && !k.point.Increment?
    ensures var k' := After(limit, s, k);
            if k'.Some? then OnCourse(s, since, k'.value) else FirstProbe(Eligible(s), k.ticket, 0) == None
  {
    TargetEligible(s, k);
    if After(limit, s, k) == Skip(k) {
      SkipKept(s, since, k);
    } else {
      var k' := After(limit, s, k).value;
      assert Target(k') == Target(k);
    }
  }

  lemma PickIsFirstProbe(s: State, since: nat, k: Task)
    requires Ok(s) && TaskOk(k, |s.store|) && OnCourse(s, since, k) && Increments(k) && since <= k.ticket
    ensures FirstProbe(Eligible(s), k.ticket, 0) == Some(Probe(k.ticket, k.i, |k.snap|))
  {
    assert Target(k) == s.list[Probe(k.ticket, k.i, |s.list|)];
  }

  lemma ByTicketAdvance(limit: Option<nat>, s: State, since: nat, t: nat)
    requires Ok(s) && Roomy(limit, s) && ByTicket(s, since) && t in s.tasks
    ensures Ok(TaskStep(limit, s, t)) && ByTicket(TaskStep(limit, s, t), since)
  {
    var k, s' := s.tasks[t], TaskStep(limit, s, t);
    var k' := After(limit, s, k);
    FlagsKept(limit, s, Advance(t));
    assert TaskOk(k, |s.store|) && OnCourse(s, since, k);
    if k.Probing? && since <= k.ticket {
      if Increments(k) { PickIsFirstProbe(s, since, k); } else { CourseKept(limit, s, since, k); }
    }
    forall u | u in s'.tasks ensures OnCourse(s', since, s'.tasks[u]) {
      if u != t {
        OnCourseFrame(s, s', since, s.tasks[u]);
      } else if k.Probing? && !Increments(k) && since <= k.ticket {
        AfterOk(limit, s, k);
        OnCourseFrame(s, s', since, k'.value);
      }
    }
  }

  lemma {:induction false} ByTicketThroughout(limit: Option<nat>, s: State, since: nat, acts: seq<Action>)
    requires Ok(s) && Calm(limit, s, acts) && ByTicket(s, since)
    ensures var s' := Exec(limit, s, acts);
            ByTicket(s', since) && s'.list == s.list && Eligible(s') == Eligible(s)
    decreases |acts|
  {
    if acts != [] {
      var s' := Do(limit, s, acts[0]);
      if Enabled(s, acts[0]) {
        FlagsKept(limit, s, acts[0]);
        if acts[0].Advance? {
          ByTicketAdvance(limit, s, since, acts[0].t);
        } else {
          forall u | u in s'.tasks ensures OnCourse(s', since, s'.tasks[u]) {
            if u != acts[0].t { OnCourseFrame(s, s', since, s.tasks[u]); }
          }
        }
      }
      ByTicketThroughout(limit, s', since, acts[1..]);
    }
  }

  /** In a calm run, every call that finished picked the first eligible position in rotation from its own ticket. */
  lemma PicksByTicket(limit: Option<nat>, s: State, acts: seq<Action>, ticket: nat)
    requires Ok(s) && QuietStart(s) && Calm(limit, s, acts)
    requires s.current <= ticket && ticket in Exec(limit, s, acts).log
    ensures FirstInRotation(Eligible(s), ticket, Exec(limit, s, acts).log[ticket])
  {
    ByTicketThroughout(limit, s, s.current, acts);
    ProbingChoosesFirstInRotation(Eligible(s), ticket);
  }

  // ----- Every ticket is served once ----------------------------------------------------

  /** A task in the call that holds the ticket. */
  predicate Serves(k: Task, ticket: nat) {
    k.Probing? && k.ticket == ticket
  }

  /** Every ticket taken since `since` is held by a call that is still probing, or has been decided. */
  ghost predicate NoneLost(s: State, since: nat) {
    forall ticket: nat :: since <= ticket < s.current ==>
      ticket in s.log || exists t :: t in s.tasks && Serves(s.tasks[t], ticket)
  }

  /** No ticket taken since `since` is held twice, or held and decided. */
  ghost predicate NoneTwice(s: State, since: nat) {
    && (forall t, u :: t in s.tasks && u in s.tasks && t != u && s.tasks[t].Probing? && since <= s.tasks[t].ticket ==>
          !Serves(s.tasks[u], s.tasks[t].ticket))
    && (forall t <- s.tasks :: s.tasks[t].Probing? && since <= s.tasks[t].ticket ==>
          s.tasks[t].ticket < s.current && s.tasks[t].ticket !in s.log)
    && (forall ticket <- s.log :: ticket < s.current)
    && (forall t <- s.tasks :: s.tasks[t].Probing? ==> s.tasks[t].ticket < s.current)
  }

  ghost predicate TicketsServed(s: State, since: nat) {
    since <= s.current && NoneLost(s, since) && NoneTwice(s, since)
  }

  /** A call takes its ticket from the counter, keeps it, and is decided when it stops probing. */
  lemma TicketKept(limit: Option<nat>, s: State, k: Task)
    requires Ok(s) && TaskOk(k, |s.store|)
    ensures var k', log := After(limit, s, k), LogAfter(limit, s, k);
            if k.Loaded? then
              log == s.log && k'.Some? && Serves(k'.value, s.current)
            else if k.Probing? && k'.Some? && k'.value.Probing? then
              log == s.log && Serves(k'.value, k.ticket)
            else if k.Probing? then
              k.ticket in log && log == s.log[k.ticket := log[k.ticket]]
            else
              log == s.log && (k'.Some? ==> !k'.value.Probing?)
  {
  }

  lemma NoneLostAdvance(limit: Option<nat>, s: State, since: nat, t: nat)
    requires Ok(s) && t in s.tasks && NoneLost(s, since) && s.current + 1 < WORD
    ensures NoneLost(TaskStep(limit, s, t), since)
  {
    var k, s' := s.tasks[t], TaskStep(limit, s, t);
    assert TaskOk(k, |s.store|);
    TicketKept(limit, s, k);
    forall ticket: nat | since <= ticket < s'.current && ticket !in s'.log
      ensures exists u :: u in s'.tasks && Serves(s'.tasks[u], ticket)
    {
      if ticket == s.current {
        assert Serves(s'.tasks[t], ticket);
      } else {
        var u :| u in s.tasks && Serves(s.tasks[u], ticket);
        assert Serves(s'.tasks[u], ticket);
      }
    }
  }

  lemma NoneTwiceAdvance(limit: Option<nat>, s: State, since: nat, t: nat)
    requires Ok(s) && t in s.tasks && NoneTwice(s, since) && since <= s.current && s.current + 1 < WORD
    ensures NoneTwice(TaskStep(limit, s, t), since)
  {
    var k, s' := s.tasks[t], TaskStep(limit, s, t);
    assert TaskOk(k, |s.store|);
    TicketKept(limit, s, k);
  }

  lemma TicketsSpawn(s: State, since: nat, t: nat)
    requires TicketsServed(s, since) && t !in s.tasks
    ensures TicketsServed(s.(tasks := s.tasks[t := Started]), since)
  {
    var s' := s.(tasks := s.tasks[t := Started]);
    forall ticket: nat | since <= ticket < s'.current && ticket !in s'.log
      ensures exists u :: u in s'.tasks && Serves(s'.tasks[u], ticket)
    {
      var u :| u in s.tasks && Serves(s.tasks[u], ticket);
      assert Serves(s'.tasks[u], ticket);
    }
  }

  /** In a calm run every ticket handed out is served by exactly one call. */
  lemma {:induction false} TicketsThroughout(limit: Option<nat>, s: State, since: nat, acts: seq<Action>)
    requires Ok(s) && Calm(limit, s, acts) && TicketsServed(s, since)
    ensures TicketsServed(Exec(limit, s, acts), since)
    decreases |acts|
  {
    if acts != [] {
      if Enabled(s, acts[0]) {
        if acts[0].Advance? {
          NoneLostAdvance(limit, s, since, acts[0].t);
          NoneTwiceAdvance(limit, s, since, acts[0].t);
        } else {
          TicketsSpawn(s, since, acts[0].t);
        }
      }
      TicketsThroughout(limit, Do(limit, s, acts[0]), since, acts[1..]);
    }
  }

  /** The calls with tickets from `lo` on, `n` of them, that picked position `p`. */
  ghost function Choosers(log: map<nat, Option<nat>>, p: nat, lo: nat, n: nat): set<nat> {
    set t | lo <= t < lo + n && t in log && log[t] == Some(p)
  }

  lemma ChoosersGrow(log: map<nat, Option<nat>>, p: nat, lo: nat, n: nat)
    ensures var t := lo + n;
            |Choosers(log, p, lo, n + 1)| == |Choosers(log, p, lo, n)| + One(t in log && log[t] == Some(p))
  {
    var t := lo + n;
    if t in log && log[t] == Some(p) {
      assert Choosers(log, p, lo, n + 1) == Choosers(log, p, lo, n) + {t};
    } else {
      assert Choosers(log, p, lo, n + 1) == Choosers(log, p, lo, n);
    }
  }

  lemma {:induction false} ChoosersArePicks(eligible: seq<bool>, log: map<nat, Option<nat>>, p: nat, lo: nat, n: nat)
    requires forall t :: lo <= t < lo + n ==> t in log && FirstInRotation(eligible, t, log[t])
    ensures |Choosers(log, p, lo, n)| == Picks(eligible, p, lo, n)
    decreases n
  {
    if n == 0 {
      assert Choosers(log, p, lo, n) == {};
    } else {
      var t := lo + n - 1;
      ChoosersArePicks(eligible, log, p, lo, n - 1);
      ChoosersGrow(log, p, lo, n - 1);
      if FirstInRotation(eligible, t, Some(p)) { FirstInRotationUnique(eligible, t, Some(p), log[t]); }
    }
  }

  /**
    Once any lap of consecutive tickets has been served, an eligible position has been picked by exactly one of its
    calls plus one more for each ineligible position in the gap before it, however the calls interleaved.
  */
  lemma FairShares(limit: Option<nat>, s: State, acts: seq<Action>, lo: nat, p: nat)
    requires Ok(s) && QuietStart(s) && Calm(limit, s, acts) && s.current <= lo
    requires p < |s.list| && Eligible(s)[p]
    requires forall t :: lo <= t < lo + |s.list| ==> t in Exec(limit, s, acts).log
    ensures |Choosers(Exec(limit, s, acts).log, p, lo, |s.list|)| == 1 + Gap(Eligible(s), p)
  {
    var log := Exec(limit, s, acts).log;
    forall t | lo <= t < lo + |s.list| ensures FirstInRotation(Eligible(s), t, log[t]) {
      PicksByTicket(limit, s, acts, t);
    }
    ChoosersArePicks(Eligible(s), log, p, lo, |s.list|);
    ExactShares(Eligible(s), p, lo);
  }

  /**
    The same for a run after which no call is still probing: every ticket handed out has been served, once, so the
    shares are exact over any lap of the tickets handed out.
  */
  lemma FairSharesAtRest(limit: Option<nat>, s: State, acts: seq<Action>, lo: nat, p: nat)
    requires Ok(s) && QuietStart(s) && Calm(limit, s, acts)
    requires s.current <= lo && lo + |s.list| <= Exec(limit, s, acts).current
    requires forall t <- Exec(limit, s, acts).tasks :: !Exec(limit, s, acts).tasks[t].Probing?
    requires p < |s.list| && Eligible(s)[p]
    ensures |Choosers(Exec(limit, s, acts).log, p, lo, |s.list|)| == 1 + Gap(Eligible(s), p)
  {
    TicketsThroughout(limit, s, s.current, acts);
    FairShares(limit, s, acts, lo, p);
  }
}
