/** Whole runs of one facility: interest is conserved to the last accumulator unit, and the audit trail explains the
    book. */
module FacilityRuns {
  import opened RateSchedule
  import opened Facility

  datatype Op =
    | Accruing(at: int)
    | ChangingRate(at: int, rateBps: int)
    | Borrowing(at: int, amount: int)
    | Charging(at: int, amount: int)
    | Repaying(at: int, amount: int)
    | WritingOff

  function Apply(l: Ledger, op: Op): Ledger {
    match op
    case Accruing(at) => Accrue(l, at).0
    case ChangingRate(at, rateBps) => SetRate(l, at, rateBps).0
    case Borrowing(at, amount) => Borrow(l, at, amount).0
    case Charging(at, amount) => ChargeFee(l, at, amount).0
    case Repaying(at, amount) => Repay(l, at, amount).0
    case WritingOff => MarkWrittenOff(l)
  }

  lemma ApplyAdvances(l: Ledger, op: Op)
    ensures l.lastAccrualAt <= Apply(l, op).lastAccrualAt
  {
  }

  ghost function Run(l: Ledger, ops: seq<Op>): (l': Ledger)
    ensures l.lastAccrualAt <= l'.lastAccrualAt
  {
    if ops == [] then l
    else
      var before := Run(l, ops[..|ops| - 1]);
      var op := ops[|ops| - 1];
      ApplyAdvances(before, op);
      Apply(before, op)
  }

  /** The ledger in force during second `s` of a run: the last one whose accrual clock had not passed `s`. */
  ghost function InForce(l: Ledger, ops: seq<Op>, s: int): Ledger {
    if ops == [] || Run(l, ops).lastAccrualAt <= s then Run(l, ops) else InForce(l, ops[..|ops| - 1], s)
  }

  /** Every second of [from, until) charged on the principal, rate and accrual status in force at that second. */
  ghost function Charged(l: Ledger, ops: seq<Op>, from: int, until: int): int
    decreases until - from
  {
    if until <= from then 0 else Charged(l, ops, from, until - 1) + InForce(l, ops, until - 1).Charge(until - 1)
  }

  function InterestPaid(history: seq<Entry>): int {
    if history == [] then 0
    else
      var last := history[|history| - 1];
      InterestPaid(history[..|history| - 1]) + if last.Repaid? then last.alloc.interest else 0
  }

  ghost function InterestCapitalised(l: Ledger, ops: seq<Op>): int {
    if ops == [] then 0
    else
      var before, op := Run(l, ops[..|ops| - 1]), ops[|ops| - 1];
      InterestCapitalised(l, ops[..|ops| - 1]) + CapitalisedBy(before, op)
  }

  /** Charges already made do not depend on what happens later. */
  lemma {:induction false} ChargesAreSettled(l: Ledger, ops: seq<Op>, op: Op, from: int, until: int)
    requires until <= Run(l, ops).lastAccrualAt
    ensures Charged(l, ops + [op], from, until) == Charged(l, ops, from, until)
    decreases until - from
  {
    if from < until {
      ChargesAreSettled(l, ops, op, from, until - 1);
      var all := ops + [op];
      assert all[..|all| - 1] == ops;
      ApplyAdvances(Run(l, ops), op);
      assert Run(l, all).lastAccrualAt > until - 1;
    }
  }

  /** The seconds an operation accrues are charged on the ledger it found. */
  lemma {:induction false} NewChargesAreTheIntegral(l: Ledger, ops: seq<Op>, op: Op, until: int)
    requires Run(l, ops).lastAccrualAt <= until <= Run(l, ops + [op]).lastAccrualAt
    ensures var before := Run(l, ops);
      Charged(l, ops + [op], before.lastAccrualAt, until)
      == if before.frozen then 0 else Integral(before.principal, before.segments, before.lastAccrualAt, until)
    decreases until - Run(l, ops).lastAccrualAt
  {
    var before, all := Run(l, ops), ops + [op];
    if before.lastAccrualAt < until {
      NewChargesAreTheIntegral(l, ops, op, until - 1);
      assert all[..|all| - 1] == ops;
      assert InForce(l, all, until - 1) == InForce(l, ops, until - 1) == before;
    }
  }

  lemma {:induction false} ChargedSplits(l: Ledger, ops: seq<Op>, from: int, mid: int, until: int)
    requires from <= mid <= until
    ensures Charged(l, ops, from, until) == Charged(l, ops, from, mid) + Charged(l, ops, mid, until)
    decreases until - mid
  {
    if mid < until {
      ChargedSplits(l, ops, from, mid, until - 1);
    }
  }

  function Trail(l: Ledger, op: Op): seq<Entry> {
    match op
    case ChangingRate(at, rateBps) => if SetRate(l, at, rateBps).1.Ok? then [RateSet(at, rateBps)] else []
    case Borrowing(at, amount) => if Borrow(l, at, amount).1.Ok? then [Borrowed(at, amount)] else []
    case Charging(at, amount) => if ChargeFee(l, at, amount).1.Ok? then [FeeCharged(at, amount)] else []
    case Repaying(at, amount) =>
      var r := Repay(l, at, amount).1;
      if r.Ok? then [Repaid(at, r.value)] else []
    case _ => []
  }

  ghost function CapitalisedBy(l: Ledger, op: Op): int {
    if op.Borrowing? && Borrow(l, op.at, op.amount).1.Ok? then Capitalised(l.Accrued(op.at)) else 0
  }

  /** Every accepted call leaves one entry, every refused one none. */
  lemma HistoryGrows(l: Ledger, op: Op)
    ensures Apply(l, op).history == l.history + Trail(l, op)
  {
  }

  lemma SumsOfTrail(history: seq<Entry>, entry: Entry)
    ensures InterestPaid(history + [entry]) == InterestPaid(history) + InterestPaid([entry])
    ensures NetPrincipal(history + [entry]) == NetPrincipal(history) + NetPrincipal([entry])
    ensures NetFees(history + [entry]) == NetFees(history) + NetFees([entry])
  {
    assert (history + [entry])[..|history|] == history;
    assert [entry][..0] == [];
  }

  lemma StepSums(l: Ledger, op: Op)
    ensures var trail := Trail(l, op);
      && InterestPaid(Apply(l, op).history) == InterestPaid(l.history) + InterestPaid(trail)
      && NetPrincipal(Apply(l, op).history) == NetPrincipal(l.history) + NetPrincipal(trail)
      && NetFees(Apply(l, op).history) == NetFees(l.history) + NetFees(trail)
  {
    HistoryGrows(l, op);
    TrailIsShort(l, op);
    hide Apply, Trail, InterestPaid, NetPrincipal, NetFees;
    var trail := Trail(l, op);
    if trail == [] {
      assert l.history + trail == l.history;
      NothingSums();
    } else {
      assert trail == [trail[0]];
      SumsOfTrail(l.history, trail[0]);
    }
  }

  lemma TrailIsShort(l: Ledger, op: Op)
    ensures |Trail(l, op)| <= 1
  {
  }

  lemma NothingSums()
    ensures InterestPaid([]) == NetPrincipal([]) == NetFees([]) == 0
  {
  }

  /** One operation adds to the accumulator, gross of what was paid or capitalised, what its seconds earn. */
  ghost predicate AccruesExactly(l: Ledger, op: Op) {
    var l' := Apply(l, op);
    l'.accum + AccumOf(InterestPaid(Trail(l, op)) + CapitalisedBy(l, op))
    == l.accum + if l.frozen then 0 else Integral(l.principal, l.segments, l.lastAccrualAt, l'.lastAccrualAt)
  }

  lemma BorrowingAccrues(l: Ledger, op: Op)
    requires op.Borrowing?
    ensures AccruesExactly(l, op)
  {
  }

  lemma RepayingAccrues(l: Ledger, op: Op)
    requires op.Repaying?
    ensures AccruesExactly(l, op)
  {
    hide Waterfall;
    var r := Repay(l, op.at, op.amount).1;
    if r.Ok? {
      SumsOfTrail([], Repaid(op.at, r.value));
      assert [] + [Repaid(op.at, r.value)] == Trail(l, op);
    }
  }

  lemma PlainOpAccrues(l: Ledger, op: Op)
    requires !op.Borrowing? && !op.Repaying?
    ensures AccruesExactly(l, op)
  {
  }

  lemma StepAccrues(l: Ledger, op: Op)
    ensures AccruesExactly(l, op)
  {
    if op.Borrowing? {
      BorrowingAccrues(l, op);
    } else if op.Repaying? {
      RepayingAccrues(l, op);
    } else {
      PlainOpAccrues(l, op);
    }
  }

  lemma StepBalances(l: Ledger, op: Op)
    ensures Apply(l, op).fees == l.fees + NetFees(Trail(l, op))
    ensures Apply(l, op).principal == l.principal + NetPrincipal(Trail(l, op)) + CapitalisedBy(l, op)
  {
    var trail := Trail(l, op);
    if trail != [] {
      assert trail[..0] == [] && |trail| == 1;
    }
  }

  /** What one more operation adds to the charges of a run. */
  lemma ChargesGrow(l: Ledger, prior: seq<Op>, op: Op)
    ensures Run(l, prior + [op]) == Apply(Run(l, prior), op)
    ensures var before, after := Run(l, prior), Run(l, prior + [op]);
      Charged(l, prior + [op], l.lastAccrualAt, after.lastAccrualAt)
      == Charged(l, prior, l.lastAccrualAt, before.lastAccrualAt)
         + if before.frozen then 0
           else Integral(before.principal, before.segments, before.lastAccrualAt, after.lastAccrualAt)
  {
    var before, ops := Run(l, prior), prior + [op];
    assert ops[..|ops| - 1] == prior;
    ApplyAdvances(before, op);
    var after := Run(l, ops);
    ChargedSplits(l, ops, l.lastAccrualAt, before.lastAccrualAt, after.lastAccrualAt);
    ChargesAreSettled(l, prior, op, l.lastAccrualAt, before.lastAccrualAt);
    NewChargesAreTheIntegral(l, prior, op, after.lastAccrualAt);
  }

  /** The accumulator of a run, gross of all interest it has paid or capitalised. */
  ghost function GrossInterest(l: Ledger, ops: seq<Op>): int {
    Run(l, ops).accum + AccumOf(InterestPaid(Run(l, ops).history) + InterestCapitalised(l, ops))
  }

  lemma GrossInterestGrows(l: Ledger, prior: seq<Op>, op: Op)
    ensures var before, after := Run(l, prior), Run(l, prior + [op]);
      after == Apply(before, op)
      && GrossInterest(l, prior + [op])
         == GrossInterest(l, prior)
            + if before.frozen then 0
              else Integral(before.principal, before.segments, before.lastAccrualAt, after.lastAccrualAt)
  {
    var before, ops := Run(l, prior), prior + [op];
    assert ops[..|ops| - 1] == prior;
    StepAccrues(before, op);
    StepSums(before, op);
  }

  /**
   Over every run, the accumulator plus the interest paid and capitalised is exactly the per-second charge on the
   principal and rate in force: nothing is lost to how often, or when, anything was called.
   */
  lemma {:induction false} InterestIsConserved(l: Ledger, ops: seq<Op>)
    ensures GrossInterest(l, ops)
         == GrossInterest(l, []) + Charged(l, ops, l.lastAccrualAt, Run(l, ops).lastAccrualAt)
  {
    if ops != [] {
      var prior, op := ops[..|ops| - 1], ops[|ops| - 1];
      assert ops == prior + [op];
      InterestIsConserved(l, prior);
      ChargesGrow(l, prior, op);
      GrossInterestGrows(l, prior, op);
    }
  }

  lemma NothingAccruedYet(l: Ledger)
    requires l.history == []
    ensures GrossInterest(l, []) == l.accum
  {
  }

  /** All rounding of a facility's life, added up, is under one unit and in the borrower's favour. */
  lemma {:induction false} RoundingStaysBelowOneUnit(rateBps: int, capitalize: bool, openedAt: int, ops: seq<Op>)
    ensures var l := Opened(rateBps, capitalize, openedAt); var l' := Run(l, ops);
      var units := l'.Unpaid() + InterestPaid(l'.history) + InterestCapitalised(l, ops);
      AccumOf(units) <= Charged(l, ops, openedAt, l'.lastAccrualAt) < AccumOf(units + 1)
  {
    hide Run, Charged, InterestPaid, InterestCapitalised, AccumOf, UnitsIn;
    var l := Opened(rateBps, capitalize, openedAt);
    InterestIsConserved(l, ops);
    NothingAccruedYet(l);
    WholeUnitsBracket(Run(l, ops).accum, InterestPaid(Run(l, ops).history) + InterestCapitalised(l, ops));
  }

  // ---- the audit trail

  function NetPrincipal(history: seq<Entry>): int {
    if history == [] then 0
    else
      NetPrincipal(history[..|history| - 1])
      + match history[|history| - 1]
        case Borrowed(_, amount) => amount
        case Repaid(_, alloc) => -alloc.principal
        case _ => 0
  }

  function NetFees(history: seq<Entry>): int {
    if history == [] then 0
    else
      NetFees(history[..|history| - 1])
      + match history[|history| - 1]
        case FeeCharged(_, amount) => amount
        case Repaid(_, alloc) => -alloc.fees
        case _ => 0
  }

  /** The history a facility keeps explains its principal and its fees, whatever was called and refused. */
  lemma {:induction false} HistoryExplainsTheBook(rateBps: int, capitalize: bool, openedAt: int, ops: seq<Op>)
    ensures var l := Opened(rateBps, capitalize, openedAt); var l' := Run(l, ops);
      l'.fees == NetFees(l'.history) && l'.principal == NetPrincipal(l'.history) + InterestCapitalised(l, ops)
  {
    if ops != [] {
      HistoryExplainsTheBook(rateBps, capitalize, openedAt, ops[..|ops| - 1]);
      var before := Run(Opened(rateBps, capitalize, openedAt), ops[..|ops| - 1]);
      StepSums(before, ops[|ops| - 1]);
      StepBalances(before, ops[|ops| - 1]);
    }
  }

  predicate SignsChecked(op: Op) {
    (op.ChangingRate? ==> op.rateBps >= 0) && (op.Charging? ==> op.amount >= 0)
  }

  /** With non-negative rates and fees, no balance of a facility ever goes negative. */
  lemma {:induction false} RunStaysSolvent(l: Ledger, ops: seq<Op>)
    requires l.Solvent() && forall i :: 0 <= i < |ops| ==> SignsChecked(ops[i])
    ensures Run(l, ops).Solvent()
  {
    if ops != [] {
      RunStaysSolvent(l, ops[..|ops| - 1]);
      StepStaysSolvent(Run(l, ops[..|ops| - 1]), ops[|ops| - 1]);
    }
  }

  lemma StepStaysSolvent(l: Ledger, op: Op)
    requires l.Solvent() && SignsChecked(op)
    ensures Apply(l, op).Solvent()
  {
    if !op.WritingOff? && l.lastAccrualAt <= op.at {
      AccrualKeepsSolvent(l, op.at);
      match op
      case ChangingRate(at, rateBps) => SetRateKeeps(l, at, rateBps);
      case Borrowing(at, amount) => if amount > 0 { BorrowKeeps(l, at, amount); }
      case Repaying(at, amount) => if amount > 0 { RepaymentReducesDebt(l, at, amount); }
      case _ =>
    }
  }
}
