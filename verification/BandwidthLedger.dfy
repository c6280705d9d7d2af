/** Accounts of what a limiter's attempts came to: tokens paid, bytes moved, tokens forfeited, in total and by time. */
module BandwidthLedger {
  import opened Bandwidth

  /** An attempt's instant of payment, instant of transfer, and outcome. */
  datatype Entry = Entry(at: real, io: real, outcome: Outcome)

  function Paid(o: Outcome): nat {
    if o.Charged? then o.n else 0
  }

  function Bytes(o: Outcome): nat {
    if o.Charged? && o.fate.Moved? then o.fate.k else 0
  }

  /** Tokens paid at instants between `s` and `t`. */
  function PaidIn(xs: seq<Entry>, s: real, t: real): nat {
    if xs == [] then 0
    else
      var x := xs[|xs| - 1];
      PaidIn(xs[..|xs| - 1], s, t) + if s <= x.at <= t then Paid(x.outcome) else 0
  }

  /** Bytes moved by transfers between `s` and `t`. */
  function BytesIn(xs: seq<Entry>, s: real, t: real): nat {
    if xs == [] then 0
    else
      var x := xs[|xs| - 1];
      BytesIn(xs[..|xs| - 1], s, t) + if s <= x.io <= t then Bytes(x.outcome) else 0
  }

  /** Where the tokens went: bytes moved, parts of chunks not used, whole charges lost; and bytes nobody paid for. */
  datatype Ledger = Ledger(moved: nat, unused: nat, blocked: nat, failed: nat, empty: nat, unpaid: nat)

  function Record(l: Ledger, o: Outcome): Ledger {
    match o
    case Charged(n, Moved(k)) =>
      if k <= n then l.(moved := l.moved + k, unused := l.unused + (n - k))
      else l.(moved := l.moved + k, unpaid := l.unpaid + (k - n))
    case Charged(n, Blocked) => l.(blocked := l.blocked + n)
    case Charged(n, Failed) => l.(failed := l.failed + n)
    case Charged(n, Empty) => l.(empty := l.empty + n)
    case _ => l
  }

  function Book(xs: seq<Entry>): Ledger {
    if xs == [] then Ledger(0, 0, 0, 0, 0, 0)
    else Record(Book(xs[..|xs| - 1]), xs[|xs| - 1].outcome)
  }

  function TotalPaid(xs: seq<Entry>): nat {
    if xs == [] then 0 else TotalPaid(xs[..|xs| - 1]) + Paid(xs[|xs| - 1].outcome)
  }

  /** Every token paid is a byte moved or a token forfeited; bytes beyond that are the unpaid ones. */
  lemma {:induction false} Balanced(xs: seq<Entry>)
    ensures var l := Book(xs);
            TotalPaid(xs) + l.unpaid == l.moved + l.unused + l.blocked + l.failed + l.empty
  {
    if xs != [] {
      Balanced(xs[..|xs| - 1]);
    }
  }

  /** What a fate adds up to over the entries: bytes if they moved, tokens if they were lost. */
  function Total(xs: seq<Entry>, amount: Outcome -> nat): nat {
    if xs == [] then 0 else Total(xs[..|xs| - 1], amount) + amount(xs[|xs| - 1].outcome)
  }

  function LostTo(fate: Fate): Outcome -> nat {
    (o: Outcome) => if o.Charged? && o.fate == fate then o.n else 0
  }

  function BytesOf(): Outcome -> nat {
    (o: Outcome) => if o.Charged? && o.fate.Moved? then o.fate.k else 0
  }

  /** Tokens of a charge that its transfer left unused. */
  function UnusedOf(): Outcome -> nat {
    (o: Outcome) => if o.Charged? && o.fate.Moved? && o.fate.k < o.n then o.n - o.fate.k else 0
  }

  /** Each account of the ledger is the total of its own kind of outcome. */
  lemma {:induction false} AccountsByFate(xs: seq<Entry>)
    ensures var l := Book(xs);
            && l.moved == Total(xs, BytesOf()) && l.unused == Total(xs, UnusedOf())
            && l.blocked == Total(xs, LostTo(Blocked)) && l.failed == Total(xs, LostTo(Failed))
            && l.empty == Total(xs, LostTo(Empty))
  {
    if xs != [] {
      AccountsByFate(xs[..|xs| - 1]);
    }
  }

  /** No transfer moves more than was paid for it. */
  ghost predicate PaidUp(xs: seq<Entry>) {
    forall i :: 0 <= i < |xs| ==> Bytes(xs[i].outcome) <= Paid(xs[i].outcome)
  }

  lemma {:induction false} PaidUpMeansNoUnpaid(xs: seq<Entry>)
    ensures PaidUp(xs) <==> Book(xs).unpaid == 0
  {
    if xs != [] {
      var past := xs[..|xs| - 1];
      PaidUpMeansNoUnpaid(past);
      assert PaidUp(xs) <==> PaidUp(past) && Bytes(xs[|xs| - 1].outcome) <= Paid(xs[|xs| - 1].outcome);
    }
  }

  /** Payment and transfer belong to one poll call, which takes at most `span`. */
  ghost predicate WithinSpan(xs: seq<Entry>, span: real) {
    forall i :: 0 <= i < |xs| ==> xs[i].at <= xs[i].io <= xs[i].at + span
  }

  /** What moves in a window was paid for in the window widened by the span of a call. */
  lemma {:induction false} BytesWerePaidFor(xs: seq<Entry>, s: real, t: real, span: real)
    requires PaidUp(xs) && WithinSpan(xs, span)
    ensures BytesIn(xs, s, t) <= PaidIn(xs, s - span, t)
  {
    if xs != [] {
      BytesWerePaidFor(xs[..|xs| - 1], s, t, span);
    }
  }
}
