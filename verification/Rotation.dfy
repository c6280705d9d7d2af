/**
  The arithmetic of round-robin probing: which positions the probes of one call visit, which one it picks,
  and how often each position is picked over consecutive tickets.

  Tickets and probe indices are 64-bit and wrap around silently (the release profile leaves overflow
  checks off).
*/
module Rotation {
  import opened Options

  const WORD: nat := 0x1_0000_0000_0000_0000

  /** The contents of an `AtomicUsize`. */
  type Word = n: nat | n < WORD

  /** The position looked at by probe `i` of a call with ticket `start`. */
  function Probe(start: nat, i: nat, len: nat): (p: nat)
    requires len > 0
    ensures p < len
  {
    ((start + i) % WORD) % len
  }

  // ----- Modular arithmetic -------------------------------------------------------------

  lemma NonzeroMultiple(d: int, m: int)
    requires m > 0
    ensures d == 0 || d * m >= m || d * m <= -m
  {
    if d > 0 {
      assert (d - 1) * m >= 0;
    } else if d < 0 {
      assert (-d - 1) * m >= 0;
    }
  }

  lemma ModUnique(x: int, q: int, r: int, m: int)
    requires m > 0 && 0 <= r < m && x == q * m + r
    ensures x % m == r
  {
    var d := x / m - q;
    assert x == (x / m) * m + x % m;
    assert d * m == r - x % m;
    NonzeroMultiple(d, m);
  }

  lemma ModShift(x: int, m: int)
    requires m > 0
    ensures (x + m) % m == x % m
  {
    assert x + m == (x / m + 1) * m + x % m;
    ModUnique(x + m, x / m + 1, x % m, m);
  }

  /** Numbers less than `m` apart with equal remainders are equal. */
  lemma ModInjective(x: int, y: int, m: int)
    requires m > 0 && x % m == y % m && x - m < y < x + m
    ensures x == y
  {
    var d := x / m - y / m;
    assert x == (x / m) * m + x % m && y == (y / m) * m + y % m;
    assert x - y == d * m;
    NonzeroMultiple(d, m);
  }

  /** Every residue occurs among any `m` consecutive numbers. */
  lemma ModReaches(x: int, r: int, m: int) returns (y: int)
    requires 0 <= r < m
    ensures x <= y < x + m && y % m == r
  {
    y := x + (if r >= x % m then r - x % m else r - x % m + m);
    var q := if r >= x % m then x / m else x / m + 1;
    assert x == (x / m) * m + x % m;
    assert y == q * m + r;
    ModUnique(y, q, r, m);
  }

  lemma ModAdd(x: int, y: int, m: int)
    requires m > 0
    ensures (x + y) % m == (x % m + y) % m
  {
    var z := x % m + y;
    assert x == (x / m) * m + x % m;
    assert x + y == (x / m + z / m) * m + z % m;
    ModUnique(x + y, x / m + z / m, z % m, m);
  }

  // ----- Coverage -----------------------------------------------------------------------

  ghost predicate Visited(start: nat, len: nat, p: nat)
    requires len > 0
  {
    exists i: nat :: i < len && Probe(start, i, len) == p
  }

  /** The probes of one call visit every position, and none twice. */
  ghost predicate VisitsEachOnce(start: nat, len: nat)
    requires len > 0
  {
    && (forall p: nat :: p < len ==> Visited(start, len, p))
    && (forall i: nat, j: nat :: i < j < len ==> Probe(start, i, len) != Probe(start, j, len))
  }

  /** The probe index does not overflow during the call. */
  predicate NoOverflow(start: nat, len: nat) {
    start + len <= WORD
  }

  /** The condition under which wrapping is harmless: no overflow, or a length that divides 2^64. */
  predicate Aligned(start: nat, len: nat)
    requires len > 0
  {
    NoOverflow(start, len) || WORD % len == 0
  }

  lemma AlignedProbe(start: nat, i: nat, len: nat)
    requires 0 < len && start < WORD && i < len <= WORD && Aligned(start, len)
    ensures Probe(start, i, len) == (start + i) % len
  {
    if start + i < WORD {
      ModUnique(start + i, 0, start + i, WORD);
    } else {
      var x := start + i - WORD;
      ModUnique(start + i, 1, x, WORD);
      assert WORD % len == 0;
      ModAdd(WORD, x, len);
    }
  }

  lemma AlignedReaches(start: nat, len: nat, p: nat)
    requires 0 < len <= WORD && start < WORD && Aligned(start, len) && p < len
    ensures Visited(start, len, p)
  {
    var y := ModReaches(start, p, len);
    AlignedProbe(start, y - start, len);
  }

  lemma AlignedDistinct(start: nat, len: nat, i: nat, j: nat)
    requires 0 < len <= WORD && start < WORD && Aligned(start, len) && i < j < len
    ensures Probe(start, i, len) != Probe(start, j, len)
  {
    AlignedProbe(start, i, len);
    AlignedProbe(start, j, len);
    if (start + i) % len == (start + j) % len {
      ModInjective(start + i, start + j, len);
    }
  }

  lemma AlignedVisitsEachOnce(start: nat, len: nat)
    requires 0 < len <= WORD && start < WORD && Aligned(start, len)
    ensures VisitsEachOnce(start, len)
  {
    forall p: nat | p < len ensures Visited(start, len, p) {
      AlignedReaches(start, len, p);
    }
    forall i: nat, j: nat | i < j < len ensures Probe(start, i, len) != Probe(start, j, len) {
      AlignedDistinct(start, len, i, j);
    }
  }

  /** A position that a misaligned call never looks at. */
  function Missed(start: nat, len: nat): nat
    requires 0 < len <= WORD && start < WORD && !Aligned(start, len)
  {
    var left, m := WORD - start, WORD % len;
    if left < m then len - 1 else len + m - left - 1
  }

  /** Before the overflow the probes end at 2^64 - 1; after it they start again at position 0. */
  lemma ProbeAcrossOverflow(start: nat, i: nat, len: nat)
    requires 0 < len <= WORD && start < WORD < start + len && i < len
    ensures var left, m := WORD - start, WORD % len;
            Probe(start, i, len) == if left <= i then i - left
                                    else if left <= m + i then m + i - left
                                    else len + m + i - left
  {
    var left, m, q := WORD - start, WORD % len, WORD / len;
    if left <= i {
      ModUnique(start + i, 1, i - left, WORD);
      ModUnique(i - left, 0, i - left, len);
    } else {
      ModUnique(start + i, 0, start + i, WORD);
      assert WORD == q * len + m;
      if left <= m + i {
        ModUnique(start + i, q, m + i - left, len);
      } else {
        assert start + i == (q - 1) * len + (len + m + i - left);
        ModUnique(start + i, q - 1, len + m + i - left, len);
      }
    }
  }

  lemma MisalignedProbe(start: nat, i: nat, len: nat)
    requires 0 < len <= WORD && start < WORD && !Aligned(start, len) && i < len
    ensures Probe(start, i, len) != Missed(start, len)
  {
    ProbeAcrossOverflow(start, i, len);
  }

  /**
    The probes of a call reach every position exactly once if and only if the call is aligned; otherwise they miss
    one.
  */
  lemma CoverageIffAligned(start: nat, len: nat)
    requires 0 < len <= WORD && start < WORD
    ensures VisitsEachOnce(start, len) <==> Aligned(start, len)
    ensures !Aligned(start, len) ==> Missed(start, len) < len && !Visited(start, len, Missed(start, len))
  {
    if Aligned(start, len) {
      AlignedVisitsEachOnce(start, len);
    } else {
      forall i: nat | i < len ensures Probe(start, i, len) != Missed(start, len) {
        MisalignedProbe(start, i, len);
      }
      assert !Visited(start, len, Missed(start, len));
    }
  }

  /** Every 64-bit ticket gives full coverage if and only if the length divides 2^64. */
  lemma EveryTicketCoversIffDivides(len: nat)
    requires 0 < len <= WORD
    ensures (forall start: nat :: start < WORD ==> VisitsEachOnce(start, len)) <==> WORD % len == 0
  {
    forall start: nat | start < WORD
      ensures VisitsEachOnce(start, len) <==> Aligned(start, len)
    {
      CoverageIffAligned(start, len);
    }
    if WORD % len != 0 {
      assert len > 1;
      assert !Aligned(WORD - 1, len);
      assert !VisitsEachOnce(WORD - 1, len);
    }
  }

  // ----- The choice ---------------------------------------------------------------------

  /** The loop over the probes: the first eligible position from probe `i` on. */
  function FirstProbe(eligible: seq<bool>, start: nat, i: nat): Option<nat>
    requires i <= |eligible|
    decreases |eligible| - i
  {
    if i == |eligible| then
      None
    else if eligible[Probe(start, i, |eligible|)] then
      Some(Probe(start, i, |eligible|))
    else
      FirstProbe(eligible, start, i + 1)
  }

  /** The list repeated in both directions. */
  predicate At(eligible: seq<bool>, x: int)
    requires eligible != []
  {
    eligible[x % |eligible|]
  }

  /** Counting up from `ticket`, `x` is the first number that lies on an eligible position. */
  ghost predicate Reaches(eligible: seq<bool>, ticket: nat, x: nat) {
    && ticket <= x < ticket + |eligible|
    && At(eligible, x)
    && forall y :: ticket <= y < x ==> !At(eligible, y)
  }

  /**
    The declarative choice, with no probing in it: no position if none is eligible; otherwise the eligible
    position that is met first when counting up cyclically from the ticket.
  */
  ghost predicate FirstInRotation(eligible: seq<bool>, ticket: nat, r: Option<nat>) {
    match r
    case None => true !in eligible
    case Some(p) => exists x: nat :: Reaches(eligible, ticket, x) && x % |eligible| == p
  }

  lemma {:induction false} FirstProbeFrom(eligible: seq<bool>, start: nat, i: nat) returns (d: nat)
    requires i <= |eligible|
    ensures FirstProbe(eligible, start, i).Some? ==>
              && i <= d < |eligible|
              && FirstProbe(eligible, start, i).value == Probe(start, d, |eligible|)
              && eligible[Probe(start, d, |eligible|)]
    ensures FirstProbe(eligible, start, i).None? ==> d == |eligible|
    ensures forall e: nat :: i <= e < d ==> !eligible[Probe(start, e, |eligible|)]
    decreases |eligible| - i
  {
    if i == |eligible| || eligible[Probe(start, i, |eligible|)] {
      d := i;
    } else {
      d := FirstProbeFrom(eligible, start, i + 1);
    }
  }

  /** An aligned call makes the declarative choice, whatever the list, the empty one included. */
  lemma ProbingChoosesFirstInRotation(eligible: seq<bool>, start: nat)
    requires |eligible| <= WORD && start < WORD && (eligible == [] || Aligned(start, |eligible|))
    ensures FirstInRotation(eligible, start, FirstProbe(eligible, start, 0))
  {
    var len := |eligible|;
    var d := FirstProbeFrom(eligible, start, 0);
    forall y | start <= y < start + d ensures !At(eligible, y) {
      AlignedProbe(start, y - start, len);
    }
    if d < len {
      AlignedProbe(start, d, len);
      assert Reaches(eligible, start, start + d);
    } else if true in eligible {
      var p: nat :| p < len && eligible[p];
      var y := ModReaches(start, p, len);
      assert At(eligible, y);
    }
  }

  /** What the choice of a call with any ticket comes to: the declarative one, unless the call is misaligned. */
  lemma ChoiceOfCall(eligible: seq<bool>, start: nat)
    requires |eligible| <= WORD && start < WORD
    ensures eligible == [] || Aligned(start, |eligible|) ==>
              FirstInRotation(eligible, start, FirstProbe(eligible, start, 0))
  {
    if eligible == [] || Aligned(start, |eligible|) {
      ProbingChoosesFirstInRotation(eligible, start);
    }
  }

  /** What is chosen is eligible, and an aligned call chooses nothing only if nothing is. */
  lemma ChoiceIsEligible(eligible: seq<bool>, start: nat)
    requires |eligible| <= WORD && start < WORD
    ensures var r := FirstProbe(eligible, start, 0);
            && (r.Some? ==> r.value < |eligible| && eligible[r.value])
            && (eligible == [] || Aligned(start, |eligible|) ==> (r == None <==> true !in eligible))
  {
    var d := FirstProbeFrom(eligible, start, 0);
    ChoiceOfCall(eligible, start);
  }

  /** The declarative choice is unique. */
  lemma FirstInRotationUnique(eligible: seq<bool>, ticket: nat, r: Option<nat>, r': Option<nat>)
    requires FirstInRotation(eligible, ticket, r) && FirstInRotation(eligible, ticket, r')
    ensures r == r'
  {
    if r.Some? && r'.Some? {
      var x: nat :| Reaches(eligible, ticket, x) && x % |eligible| == r.value;
      var x': nat :| Reaches(eligible, ticket, x') && x' % |eligible| == r'.value;
      assert At(eligible, x) && At(eligible, x');
    }
  }

  /** A misaligned call can come back empty-handed: it does when the missed position is the only eligible one. */
  lemma MisalignedCallCanFail(eligible: seq<bool>, start: nat)
    requires 0 < |eligible| <= WORD && start < WORD && !Aligned(start, |eligible|)
    requires forall p :: 0 <= p < |eligible| ==> (eligible[p] <==> p == Missed(start, |eligible|))
    ensures true in eligible && FirstProbe(eligible, start, 0) == None
  {
    CoverageIffAligned(start, |eligible|);
    assert eligible[Missed(start, |eligible|)];
    var d := FirstProbeFrom(eligible, start, 0);
  }

  /**
    With three backends and ticket 2^64 - 1, the probes look at positions 0, 0 and 1: the third backend is never
    tried. With ticket 2^32 - 1 it is found.
  */
  lemma ThreeBackendsCanFail()
    ensures FirstProbe([false, false, true], 18446744073709551615, 0) == None
    ensures FirstProbe([false, false, true], 4294967295, 0) == Some(2)
  {
    var eligible := [false, false, true];
    assert WORD % 3 == 1;
    MisalignedCallCanFail(eligible, WORD - 1);
    assert Probe(4294967295, 0, 3) == 0 && Probe(4294967295, 1, 3) == 1 && Probe(4294967295, 2, 3) == 2;
    FoundThird(eligible, 4294967295);
  }

  lemma FoundThird(eligible: seq<bool>, ticket: nat)
    requires |eligible| == 3 && eligible == [false, false, true]
    requires Probe(ticket, 0, 3) == 0 && Probe(ticket, 1, 3) == 1 && Probe(ticket, 2, 3) == 2
    ensures FirstProbe(eligible, ticket, 0) == Some(2)
  {
    assert FirstProbe(eligible, ticket, 2) == Some(2);
    assert FirstProbe(eligible, ticket, 1) == Some(2);
  }

  /**
    A call is certain to find an eligible position whenever there is one, whichever ones they are,
    if and only if it is aligned.
  */
  lemma AlwaysFindsIffAligned(start: nat, len: nat)
    requires 0 < len <= WORD && start < WORD
    ensures (forall eligible: seq<bool> ::
               |eligible| == len && true in eligible ==> FirstProbe(eligible, start, 0).Some?)
       <==> Aligned(start, len)
  {
    if Aligned(start, len) {
      forall eligible: seq<bool> | |eligible| == len && true in eligible
        ensures FirstProbe(eligible, start, 0).Some?
      {
        ProbingChoosesFirstInRotation(eligible, start);
      }
    } else {
      var eligible := seq(len, p requires 0 <= p < len => p == Missed(start, len));
      MisalignedCallCanFail(eligible, start);
    }
  }

  // ----- Shares -------------------------------------------------------------------------

  /** The number of consecutive false places just before `p`, going back at most `most` places. */
  function GapBefore(ring: int -> bool, p: int, g: nat, most: nat): nat
    requires g <= most
    decreases most - g
  {
    if g == most || ring(p - g - 1) then g else GapBefore(ring, p, g + 1, most)
  }

  function Ring(eligible: seq<bool>): int -> bool
    requires eligible != []
  {
    (x: int) => At(eligible, x)
  }

  /** The number of ineligible positions just before `p`, cyclically. */
  function Gap(eligible: seq<bool>, p: nat): nat
    requires p < |eligible|
  {
    GapBefore(Ring(eligible), p, 0, |eligible| - 1)
  }

  /** How many of the tickets from `lo` on, `n` of them, choose position `p`. */
  ghost function Picks(eligible: seq<bool>, p: nat, lo: nat, n: nat): nat {
    if n == 0 then
      0
    else
      Picks(eligible, p, lo, n - 1) + if FirstInRotation(eligible, lo + n - 1, Some(p)) then 1 else 0
  }

  lemma {:induction false} GapBeforeIsFalse(ring: int -> bool, p: int, g: nat, most: nat)
    requires g <= most && forall y :: p - g <= y < p ==> !ring(y)
    ensures var gap := GapBefore(ring, p, g, most);
            && g <= gap <= most
            && (forall y :: p - gap <= y < p ==> !ring(y))
            && (gap == most || ring(p - gap - 1))
    decreases most - g
  {
    if g < most && !ring(p - g - 1) {
      GapBeforeIsFalse(ring, p, g + 1, most);
    }
  }

  lemma GapIsIneligible(eligible: seq<bool>, p: nat)
    requires p < |eligible|
    ensures var gap := Gap(eligible, p);
            && gap < |eligible|
            && (forall y :: p - gap <= y < p ==> !At(eligible, y))
            && (gap == |eligible| - 1 || At(eligible, p - gap - 1))
  {
    var gap := Gap(eligible, p);
    GapBeforeIsFalse(Ring(eligible), p, 0, |eligible| - 1);
    forall y | p - gap <= y < p ensures !At(eligible, y) {
      assert !Ring(eligible)(y);
    }
  }

  lemma AtShift(eligible: seq<bool>, x: int, p: nat, y: int)
    requires eligible != [] && p < |eligible| && x % |eligible| == p
    ensures At(eligible, y) == At(eligible, p + (y - x))
  {
    ModAdd(x, y - x, |eligible|);
    assert x + (y - x) == y;
  }

  /** A ticket at most a lap before `x`, which lies on `p`, picks `p` exactly when only the gap separates them. */
  lemma PicksWithinGap(eligible: seq<bool>, p: nat, x: nat, t: nat)
    requires p < |eligible| && eligible[p] && x % |eligible| == p && t <= x < t + |eligible|
    ensures FirstInRotation(eligible, t, Some(p)) <==> x <= t + Gap(eligible, p)
  {
    var gap := Gap(eligible, p);
    GapIsIneligible(eligible, p);
    if x <= t + gap {
      forall y | t <= y < x ensures !At(eligible, y) {
        AtShift(eligible, x, p, y);
      }
      assert Reaches(eligible, t, x);
    } else if FirstInRotation(eligible, t, Some(p)) {
      var x': nat :| Reaches(eligible, t, x') && x' % |eligible| == p;
      ModInjective(x', x, |eligible|);
      AtShift(eligible, x, p, x - gap - 1);
    }
  }

  lemma ReachesPeriodic(eligible: seq<bool>, t: nat, x: nat)
    requires eligible != []
    ensures Reaches(eligible, t, x) <==> Reaches(eligible, t + |eligible|, x + |eligible|)
  {
    forall y ensures At(eligible, y + |eligible|) == At(eligible, y) {
      ModShift(y, |eligible|);
    }
    if Reaches(eligible, t + |eligible|, x + |eligible|) {
      forall y | t <= y < x ensures !At(eligible, y) {
        assert !At(eligible, y + |eligible|);
      }
    }
    if Reaches(eligible, t, x) {
      forall y | t + |eligible| <= y < x + |eligible| ensures !At(eligible, y) {
        assert !At(eligible, y - |eligible|);
        ModShift(y - |eligible|, |eligible|);
      }
    }
  }

  lemma FirstInRotationPeriodic(eligible: seq<bool>, p: nat, t: nat)
    requires eligible != []
    ensures FirstInRotation(eligible, t, Some(p)) <==> FirstInRotation(eligible, t + |eligible|, Some(p))
  {
    var len := |eligible|;
    if FirstInRotation(eligible, t, Some(p)) {
      var x: nat :| Reaches(eligible, t, x) && x % len == p;
      ReachesPeriodic(eligible, t, x);
      ModShift(x, len);
      assert Reaches(eligible, t + len, x + len);
    } else if FirstInRotation(eligible, t + len, Some(p)) {
      var x: nat :| Reaches(eligible, t + len, x) && x % len == p;
      ReachesPeriodic(eligible, t, x - len);
      ModShift(x - len, len);
    }
  }

  lemma {:induction false} PicksSplit(eligible: seq<bool>, p: nat, lo: nat, m: nat, n: nat)
    ensures Picks(eligible, p, lo, m + n) == Picks(eligible, p, lo, m) + Picks(eligible, p, lo + m, n)
    decreases n
  {
    if n > 0 {
      PicksSplit(eligible, p, lo, m, n - 1);
      assert lo + m + n - 1 == lo + (m + n) - 1;
    }
  }

  lemma {:induction false} PicksUniform(eligible: seq<bool>, p: nat, lo: nat, n: nat, picks: bool)
    requires forall t :: lo <= t < lo + n ==> FirstInRotation(eligible, t, Some(p)) == picks
    ensures Picks(eligible, p, lo, n) == if picks then n else 0
    decreases n
  {
    if n > 0 {
      PicksUniform(eligible, p, lo, n - 1, picks);
    }
  }

  /** A lap of tickets picks `p` equally often wherever the lap starts. */
  lemma {:induction false} LapShift(eligible: seq<bool>, p: nat, lo: nat, k: nat)
    requires eligible != []
    ensures Picks(eligible, p, lo, |eligible|) == Picks(eligible, p, lo + k, |eligible|)
    decreases k
  {
    if k > 0 {
      var len, a := |eligible|, lo + k - 1;
      LapShift(eligible, p, lo, k - 1);
      PicksSplit(eligible, p, a, 1, len);
      PicksSplit(eligible, p, a, len, 1);
      assert 1 + len == len + 1;
      FirstInRotationPeriodic(eligible, p, a);
      assert Picks(eligible, p, a, 1)
          == Picks(eligible, p, a, 0) + if FirstInRotation(eligible, a, Some(p)) then 1 else 0;
      assert Picks(eligible, p, a + len, 1)
          == Picks(eligible, p, a + len, 0) + if FirstInRotation(eligible, a + len, Some(p)) then 1 else 0;
    }
  }

  /** The shares over the lap of tickets that ends on `p`. */
  lemma LapEndingOn(eligible: seq<bool>, p: nat, x: nat)
    requires p < |eligible| && eligible[p] && x % |eligible| == p && |eligible| - 1 <= x
    ensures Picks(eligible, p, x + 1 - |eligible|, |eligible|) == 1 + Gap(eligible, p)
  {
    var len, gap, a := |eligible|, Gap(eligible, p), x + 1 - |eligible|;
    GapIsIneligible(eligible, p);
    forall t: nat | a <= t <= x ensures FirstInRotation(eligible, t, Some(p)) <==> x - gap <= t {
      PicksWithinGap(eligible, p, x, t);
    }
    PicksSplit(eligible, p, a, len - 1 - gap, gap + 1);
    PicksUniform(eligible, p, a, len - 1 - gap, false);
    PicksUniform(eligible, p, x - gap, gap + 1, true);
  }

  /**
    Over any lap of consecutive tickets, an eligible position is picked once for itself and once for each ineligible
    position in the gap before it.
  */
  lemma ExactShares(eligible: seq<bool>, p: nat, lo: nat)
    requires p < |eligible| && eligible[p]
    ensures Picks(eligible, p, lo, |eligible|) == 1 + Gap(eligible, p)
  {
    var x := ModReaches(lo + |eligible| - 1, p, |eligible|);
    LapShift(eligible, p, lo, x + 1 - |eligible| - lo);
    LapEndingOn(eligible, p, x);
  }
}
