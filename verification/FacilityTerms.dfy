/** What each facility call does to what is owed, said in the terms of the agreement and not of the call's own steps. */
module FacilityTerms {
  import opened Results
  import opened RateSchedule
  import opened Facility
  import opened FacilityRuns

  // ---- opening

  /** A facility opens owing nothing, at the agreed rate from any second on. */
  lemma OpensAsAgreed(rateBps: int, capitalize: bool, at: int, s: int)
    ensures var l := Opened(rateBps, capitalize, at);
      && l.LegalDebt() == 0 && l.principal == l.fees == l.Unpaid() == 0
      && l.capitalize == capitalize && l.lastAccrualAt == at && l.history == []
      && !l.impaired && !l.frozen && l.writtenOffPrincipal == l.writtenOffInterest == 0
      && RateAt(l.segments, s) == rateBps && SortedByStart(l.segments)
  {
    SoleSegment(Opened(rateBps, capitalize, at).segments, s);
  }

  lemma SoleSegment(segments: seq<RateSegment>, s: int)
    requires |segments| == 1
    ensures RateAt(segments, s) == segments[0].rateBps && SortedByStart(segments)
  {
    var none := segments[..|segments| - 1];
    assert none == [] && Started(none, s) == None;
    assert Started(segments, s) == if segments[0].start <= s then Some(segments[0]) else None;
  }

  // ---- interest

  /** A year of 365 days at one rate earns that rate, in basis points, of the principal. */
  lemma AYearEarnsItsRate(l: Ledger, at: int)
    requires l.Valid() && !l.frozen && l.accum == 0 && l.lastAccrualAt == at
    requires NoStartWithin(l.segments, at, at + 31_536_000 - 1)
    ensures l.UnpaidAt(at + 31_536_000) == l.principal * RateAt(l.segments, at) / 10_000
  {
    IntegralOfStretch(l.principal, l.segments, at, at + 31_536_000);
    YearInUnits(l.principal * RateAt(l.segments, at));
  }

  lemma YearInUnits(x: int)
    ensures UnitsIn(x * 31_536_000) == x / 10_000
  {
  }

  /** So a first draw on a new facility, left alone for a year, owes that rate on it. */
  lemma FirstYearOfALoan(rateBps: int, capitalize: bool, at: int, amount: int)
    requires amount > 0
    ensures var (l, r) := Borrow(Opened(rateBps, capitalize, at), at, amount);
      && r.Ok? && l.principal == amount && l.fees == 0
      && l.UnpaidAt(at) == 0 && l.UnpaidAt(at + 31_536_000) == amount * rateBps / 10_000
  {
    var l := Borrow(Opened(rateBps, capitalize, at), at, amount).0;
    OpensAsAgreed(rateBps, capitalize, at, at);
    assert l.accum == 0 && l.segments == [RateSegment(at, rateBps)];
    AYearEarnsItsRate(l, at);
  }

  // ---- draws

  /** An accepted draw is owed; interest is turned into principal exactly when the terms say so. */
  lemma DrawFollowsTheTerms(l: Ledger, at: int, amount: int)
    ensures var (l', r) := Borrow(l, at, amount);
      && (r.Ok? <==> amount > 0 && l.lastAccrualAt <= at)
      && (r.Err? ==> l' == l)
      && (r.Ok? ==>
        && l'.principal == l.principal + amount + (if l.capitalize then l.UnpaidAt(at) else 0)
        && l'.Unpaid() == (if l.capitalize then 0 else l.UnpaidAt(at))
        && l'.fees == l.fees && l'.lastAccrualAt == at)
  {
  }

  /** What draws have turned into principal: the interest unpaid at each accepted draw, if the terms say so. */
  function Compounded(l: Ledger, op: Op): int {
    if op.Borrowing? && op.amount > 0 && l.lastAccrualAt <= op.at && l.capitalize then l.UnpaidAt(op.at) else 0
  }

  ghost function AllCompounded(l: Ledger, ops: seq<Op>): int {
    if ops == [] then 0
    else AllCompounded(l, ops[..|ops| - 1]) + Compounded(Run(l, ops[..|ops| - 1]), ops[|ops| - 1])
  }

  lemma PrincipalMoves(l: Ledger, op: Op)
    ensures Apply(l, op).principal == l.principal + NetPrincipal(Trail(l, op)) + Compounded(l, op)
    ensures Apply(l, op).capitalize == l.capitalize
  {
    hide UnitsIn, AccumOf;
    if op.Borrowing? {
      DrawFollowsTheTerms(l, op.at, op.amount);
    }
  }

  /** Over every run, principal is what the history drew less what it repaid, plus the interest compounded at draws. */
  lemma {:induction false} PrincipalIsExplained(rateBps: int, capitalize: bool, openedAt: int, ops: seq<Op>)
    ensures var l := Opened(rateBps, capitalize, openedAt);
      && Run(l, ops).principal == NetPrincipal(Run(l, ops).history) + AllCompounded(l, ops)
      && Run(l, ops).capitalize == capitalize
  {
    hide Apply, Trail, NetPrincipal, Compounded;
    if ops != [] {
      PrincipalIsExplained(rateBps, capitalize, openedAt, ops[..|ops| - 1]);
      var before := Run(Opened(rateBps, capitalize, openedAt), ops[..|ops| - 1]);
      StepSums(before, ops[|ops| - 1]);
      PrincipalMoves(before, ops[|ops| - 1]);
    } else {
      NothingSums();
    }
  }

  /** With capitalisation off, principal is what was drawn less what was repaid of it, and nothing else. */
  lemma {:induction false} NothingCompoundsUnlessAgreed(rateBps: int, openedAt: int, ops: seq<Op>)
    ensures AllCompounded(Opened(rateBps, false, openedAt), ops) == 0
    ensures var l := Run(Opened(rateBps, false, openedAt), ops); l.principal == NetPrincipal(l.history)
  {
    hide Apply, NetPrincipal;
    PrincipalIsExplained(rateBps, false, openedAt, ops);
    if ops != [] {
      NothingCompoundsUnlessAgreed(rateBps, openedAt, ops[..|ops| - 1]);
      PrincipalIsExplained(rateBps, false, openedAt, ops[..|ops| - 1]);
    }
  }

  // ---- rates, fees, write-offs

  /** An accepted rate change moves nothing that is owed; from then on the new rate is in force, before it the old. */
  lemma RateChangeFollowsTheTerms(l: Ledger, at: int, rateBps: int, s: int)
    requires l.Valid() && SortedByStart(l.segments) && l.segments[0].start <= l.lastAccrualAt
    ensures var (l', r) := SetRate(l, at, rateBps);
      && (r.Ok? <==> l.lastAccrualAt <= at)
      && (r.Err? ==> l' == l)
      && (r.Ok? ==>
        && l'.principal == l.principal && l'.fees == l.fees && l'.Unpaid() == l.UnpaidAt(at) && l'.lastAccrualAt == at
        && (l.segments[0].start <= s < at ==> RateAt(l'.segments, s) == RateAt(l.segments, s))
        && (at <= s && NoStartWithin(l.segments, at, s) ==> RateAt(l'.segments, s) == rateBps))
  {
    hide UnitsIn, WithRate, RateAt, NoStartWithin, SortedByStart;
    RateChangeIsForwardOnly(l.segments, at, rateBps, s);
  }

  /** A fee is owed once, and moves nothing else that is. */
  lemma FeeIsOwedOnce(l: Ledger, at: int, amount: int)
    ensures var (l', r) := ChargeFee(l, at, amount);
      && (r.Ok? <==> l.lastAccrualAt <= at)
      && (r.Err? ==> l' == l)
      && (r.Ok? ==> l'.fees == l.fees + amount && l'.principal == l.principal && l'.Unpaid() == l.UnpaidAt(at))
  {
  }

  /** A write-off records principal and interest as what they were, forgives neither, and stops the interest for
      good. */
  lemma WriteOffForgivesNothing(l: Ledger, t: int)
    ensures var l' := MarkWrittenOff(l);
      && l'.writtenOffPrincipal - l.writtenOffPrincipal == l.principal == l'.principal
      && l'.writtenOffInterest - l.writtenOffInterest == l.Unpaid() == l'.Unpaid() == l'.UnpaidAt(t)
      && l'.fees == l.fees && l'.LegalDebt() == l.LegalDebt() && l'.impaired
  {
  }
}
