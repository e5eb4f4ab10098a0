/**
 The book value of one facility and what each operation makes of it: interest accrual, rate changes, draws, fees
 and the repayment waterfall. `FacilityLedger` in FacilityLedger.dfy keeps the same fields in place.
 */
module Facility {
  import opened Results
  import opened FloorArithmetic
  import opened RateSchedule

  /** Accumulator units in whole units of interest: one unit is 10 000 basis points for a year of 365 days. */
  function AccumOf(units: int): int {
    units * 315_360_000_000
  }

  /** Whole units in an accumulator, rounded down. */
  function UnitsIn(accum: int): int {
    accum / 315_360_000_000
  }

  /** What an accumulator holds beyond its whole units. */
  function Dust(accum: int): int {
    accum - AccumOf(UnitsIn(accum))
  }

  lemma WholeUnitsBracket(accum: int, units: int)
    ensures AccumOf(UnitsIn(accum) + units) <= accum + AccumOf(units) < AccumOf(UnitsIn(accum) + units + 1)
  {
  }

  datatype Error =
    | AccrualBackwards
    | AmountNotPositive
    | ClockBackwards
    | MissingKey
    | DepositTooSmall
    | InsufficientShares
    | InsufficientCash
    | LegExceedsEscrow
    | ReceiptExceedsInFlight
    | ImpairmentExceedsExposure
    | DivisionByZero

  datatype Alloc = Alloc(fees: int, interest: int, principal: int, excess: int)

  datatype Entry =
    | RateSet(at: int, rateBps: int)
    | Borrowed(at: int, amount: int)
    | FeeCharged(at: int, amount: int)
    | Repaid(at: int, alloc: Alloc)

  datatype Ledger = Ledger(
    capitalize: bool,
    principal: int,
    fees: int,
    accum: int,
    lastAccrualAt: int,
    segments: seq<RateSegment>,
    writtenOffPrincipal: int,
    writtenOffInterest: int,
    impaired: bool,
    frozen: bool,
    history: seq<Entry>)
  {
    predicate Valid() {
      segments != []
    }

    /** Every balance and rate is non-negative. The source does not check this; its callers are to keep it. */
    predicate Solvent() {
      Valid() && principal >= 0 && fees >= 0 && accum >= 0 && NonNegativeRates(segments)
    }

    function Unpaid(): int {
      UnitsIn(accum)
    }

    function LegalDebt(): int {
      principal + Unpaid() + fees
    }

    /** What second `s` adds to the accumulator while this ledger is in force. */
    function Charge(s: int): int {
      if frozen then 0 else principal * RateAt(segments, s)
    }

    /** The ledger with every second up to `at` charged. */
    function Accrued(at: int): Ledger {
      if frozen then this.(lastAccrualAt := at)
      else this.(accum := accum + Integral(principal, segments, lastAccrualAt, at), lastAccrualAt := at)
    }

    /** Interest as of `at`, pending accrual included. */
    function UnpaidAt(at: int): int {
      if frozen || at <= lastAccrualAt then Unpaid()
      else UnitsIn(accum + Integral(principal, segments, lastAccrualAt, at))
    }

    /** The ledger without its audit trail. */
    function Book(): Ledger {
      this.(history := [])
    }
  }

  function Opened(rateBps: int, capitalize: bool, at: int): Ledger {
    Ledger(capitalize, 0, 0, 0, at, [RateSegment(at, rateBps)], 0, 0, false, false, [])
  }

  // ---- operations: each gives the new ledger and what the caller gets back

  function Accrue(l: Ledger, at: int): (Ledger, Result<(), Error>) {
    if at < l.lastAccrualAt then (l, Err(AccrualBackwards)) else (l.Accrued(at), Ok(()))
  }

  function SetRate(l: Ledger, at: int, rateBps: int): (Ledger, Result<(), Error>) {
    if at < l.lastAccrualAt then (l, Err(AccrualBackwards))
    else
      var a := l.Accrued(at);
      (a.(segments := WithRate(a.segments, at, rateBps), history := a.history + [RateSet(at, rateBps)]), Ok(()))
  }

  /** Unpaid whole units that a draw turns into principal. */
  function Capitalised(l: Ledger): int {
    if l.capitalize then l.Unpaid() else 0
  }

  function Borrow(l: Ledger, at: int, amount: int): (Ledger, Result<(), Error>) {
    if amount <= 0 then (l, Err(AmountNotPositive))
    else if at < l.lastAccrualAt then (l, Err(AccrualBackwards))
    else
      var a := l.Accrued(at);
      var cap := Capitalised(a);
      (a.(principal := a.principal + cap + amount,
          accum := a.accum - AccumOf(cap),
          history := a.history + [Borrowed(at, amount)]), Ok(()))
  }

  function ChargeFee(l: Ledger, at: int, amount: int): (Ledger, Result<(), Error>) {
    if at < l.lastAccrualAt then (l, Err(AccrualBackwards))
    else
      var a := l.Accrued(at);
      (a.(fees := a.fees + amount, history := a.history + [FeeCharged(at, amount)]), Ok(()))
  }

  /** Fees, then unpaid interest, then principal; the rest is the borrower's. */
  function Waterfall(fees: int, interest: int, principal: int, amount: int): Alloc {
    var toFees := Min(amount, fees);
    var toInterest := Min(amount - toFees, interest);
    var toPrincipal := Min(amount - toFees - toInterest, principal);
    Alloc(toFees, toInterest, toPrincipal, amount - toFees - toInterest - toPrincipal)
  }

  function Pay(l: Ledger, alloc: Alloc): Ledger {
    l.(fees := l.fees - alloc.fees,
       accum := l.accum - AccumOf(alloc.interest),
       principal := l.principal - alloc.principal)
  }

  function Repay(l: Ledger, at: int, amount: int): (Ledger, Result<Alloc, Error>) {
    if amount <= 0 then (l, Err(AmountNotPositive))
    else if at < l.lastAccrualAt then (l, Err(AccrualBackwards))
    else
      var a := l.Accrued(at);
      var alloc := Waterfall(a.fees, a.Unpaid(), a.principal, amount);
      (Pay(a, alloc).(history := a.history + [Repaid(at, alloc)]), Ok(alloc))
  }

  /** The marks a write-off leaves; the debt itself stays. */
  function MarkWrittenOff(l: Ledger): Ledger {
    l.(impaired := true, frozen := true,
       writtenOffPrincipal := l.writtenOffPrincipal + l.principal,
       writtenOffInterest := l.writtenOffInterest + l.Unpaid())
  }

  // ---- accrual

  /** Accruing in two steps is accruing once, for any segment list. */
  lemma AccrualIsPathIndependent(l: Ledger, mid: int, at: int)
    requires l.lastAccrualAt <= mid <= at
    ensures l.Accrued(mid).Accrued(at) == l.Accrued(at)
    ensures l.Accrued(mid).UnpaidAt(at) == l.UnpaidAt(at)
  {
    IntegralSplits(l.principal, l.segments, l.lastAccrualAt, mid, at);
  }

  ghost predicate Chronological(from: int, times: seq<int>) {
    && (times != [] ==> from <= times[0])
    && forall i, j :: 0 <= i < j < |times| ==> times[i] <= times[j]
  }

  ghost function AccruedAlong(l: Ledger, times: seq<int>): Ledger
    decreases |times|
  {
    if times == [] then l else AccruedAlong(l.Accrued(times[0]), times[1..])
  }

  /** However often `accrue` is called, and at whatever times, the ledger ends the same. */
  lemma {:induction false} AccrualFrequencyIsIrrelevant(l: Ledger, times: seq<int>, at: int)
    requires Chronological(l.lastAccrualAt, times + [at])
    ensures AccruedAlong(l, times + [at]) == l.Accrued(at)
    decreases |times|
  {
    if times == [] {
      assert (times + [at])[1..] == [];
    } else {
      var t := times[0];
      assert (times + [at])[0] == t && (times + [at])[|times|] == at;
      assert t <= at;
      assert (times + [at])[1..] == times[1..] + [at];
      assert forall i :: 0 <= i < |times[1..] + [at]| ==> (times[1..] + [at])[i] == (times + [at])[i + 1];
      AccrualFrequencyIsIrrelevant(l.Accrued(t), times[1..], at);
      AccrualIsPathIndependent(l, t, at);
    }
  }

  /** Reading ahead agrees with accruing and then reading. */
  lemma ReadingAheadIsAccruing(l: Ledger, at: int)
    requires l.lastAccrualAt <= at
    ensures l.UnpaidAt(at) == l.Accrued(at).Unpaid()
  {
  }

  lemma AccrualKeepsSolvent(l: Ledger, at: int)
    requires l.Solvent() && l.lastAccrualAt <= at
    ensures l.Accrued(at).Solvent() && 0 <= l.Unpaid() <= l.UnpaidAt(at) == l.Accrued(at).Unpaid()
  {
    IntegralNonNegative(l.principal, l.segments, l.lastAccrualAt, at);
  }

  /** Unpaid interest never falls as time passes. */
  lemma UnpaidGrows(l: Ledger, t: int, s: int)
    requires l.Solvent() && t <= s
    ensures 0 <= l.UnpaidAt(t) <= l.UnpaidAt(s)
  {
    var from := Max(l.lastAccrualAt, t);
    if from <= s {
      IntegralSplits(l.principal, l.segments, l.lastAccrualAt, from, s);
      IntegralNonNegative(l.principal, l.segments, from, s);
      IntegralNonNegative(l.principal, l.segments, l.lastAccrualAt, from);
    }
  }

  // ---- the waterfall

  /** What a waterfall is, said without computing one: nobody is overpaid, and money reaches a claim only once the
      claims before it are settled. */
  predicate PaysInOrder(fees: int, interest: int, principal: int, amount: int, alloc: Alloc) {
    && 0 <= alloc.fees <= fees
    && 0 <= alloc.interest <= interest
    && 0 <= alloc.principal <= principal
    && 0 <= alloc.excess
    && alloc.fees + alloc.interest + alloc.principal + alloc.excess == amount
    && (alloc.interest + alloc.principal + alloc.excess > 0 ==> alloc.fees == fees)
    && (alloc.principal + alloc.excess > 0 ==> alloc.interest == interest)
    && (alloc.excess > 0 ==> alloc.principal == principal)
  }

  lemma WaterfallIsTheOnlyOrder(fees: int, interest: int, principal: int, amount: int, alloc: Alloc)
    requires fees >= 0 && interest >= 0 && principal >= 0 && amount >= 0
    ensures PaysInOrder(fees, interest, principal, amount, alloc)
      <==> alloc == Waterfall(fees, interest, principal, amount)
  {
  }

  /** What an accepted payment does: the debt falls by exactly what was not handed back, and money is handed back only
      when nothing is owed any more. */
  lemma RepaymentReducesDebt(l: Ledger, at: int, amount: int)
    requires l.Solvent() && l.lastAccrualAt <= at && amount > 0
    ensures var (l', r) := Repay(l, at, amount);
      && r.Ok? && l'.Solvent() && l'.lastAccrualAt == at
      && PaysInOrder(l.fees, l.UnpaidAt(at), l.principal, amount, r.value)
      && l'.principal == l.principal - r.value.principal && l'.Unpaid() == l.UnpaidAt(at) - r.value.interest
      && l'.LegalDebt() == l.Accrued(at).LegalDebt() - (amount - r.value.excess)
      && Dust(l'.accum) == Dust(l.Accrued(at).accum)
      && (r.value.excess > 0 ==> l'.LegalDebt() == 0 && l'.fees == 0 && l'.principal == 0 && l'.Unpaid() == 0)
  {
    AccrualKeepsSolvent(l, at);
    var a := l.Accrued(at);
    WaterfallIsTheOnlyOrder(a.fees, a.Unpaid(), a.principal, amount,
      Waterfall(a.fees, a.Unpaid(), a.principal, amount));
  }

  function AllocSum(a: Alloc, b: Alloc): Alloc {
    Alloc(a.fees + b.fees, a.interest + b.interest, a.principal + b.principal, a.excess + b.excess)
  }

  /** Paying the parts of an allocation one after the other is paying their sum. */
  lemma PaymentsAdd(l: Ledger, a: Alloc, b: Alloc)
    ensures Pay(l, a).Unpaid() == l.Unpaid() - a.interest
    ensures Pay(Pay(l, a), b) == Pay(l, AllocSum(a, b))
  {
  }

  /** On a ledger already accrued to `at`, a payment is its waterfall. */
  lemma RepayOnTheSpot(l: Ledger, at: int, amount: int)
    requires l.lastAccrualAt <= at && amount > 0
    ensures var a := l.Accrued(at); var alloc := Waterfall(a.fees, a.Unpaid(), a.principal, amount);
      && Repay(l, at, amount).1 == Ok(alloc) && Repay(l, at, amount).0.Book() == Pay(a, alloc).Book()
      && Repay(l, at, amount).0.Accrued(at) == Repay(l, at, amount).0
  {
  }

  /** Two payments at one time are one payment of their sum. */
  lemma RepaymentsCompose(l: Ledger, at: int, first: int, second: int)
    requires l.Solvent() && l.lastAccrualAt <= at && first > 0 && second > 0
    ensures var (l1, r1) := Repay(l, at, first); var (l2, r2) := Repay(l1, at, second);
      var (whole, r) := Repay(l, at, first + second);
      l2.Book() == whole.Book() && r1.Ok? && r2.Ok? && r == Ok(AllocSum(r1.value, r2.value))
  {
    hide UnitsIn, AccumOf, Waterfall, Repay, Integral;
    AccrualKeepsSolvent(l, at);
    assert l.Accrued(at).Unpaid() >= 0;
    RepayOnTheSpot(l, at, first);
    RepayOnTheSpot(l, at, first + second);
    var a, l1 := l.Accrued(at), Repay(l, at, first).0;
    RepayOnTheSpot(l1, at, second);
    var x := Waterfall(a.fees, a.Unpaid(), a.principal, first);
    var y := Waterfall(a.fees - x.fees, a.Unpaid() - x.interest, a.principal - x.principal, second);
    PaymentsAdd(a, x, y);
    assert l1.Unpaid() == a.Unpaid() - x.interest;
    WaterfallComposes(a.fees, a.Unpaid(), a.principal, first, second);
    assert Pay(l1, y).Book() == Pay(Pay(a, x), y).Book();
  }

  lemma WaterfallComposes(fees: int, interest: int, principal: int, first: int, second: int)
    requires fees >= 0 && interest >= 0 && principal >= 0 && first >= 0 && second >= 0
    ensures var a := Waterfall(fees, interest, principal, first);
      var b := Waterfall(fees - a.fees, interest - a.interest, principal - a.principal, second);
      AllocSum(a, b) == Waterfall(fees, interest, principal, first + second)
  {
  }

  ghost function Total(amounts: seq<int>): int {
    if amounts == [] then 0 else amounts[0] + Total(amounts[1..])
  }

  /** Payments made one after the other at the same time, and the sum of their allocations. */
  ghost function RepayAll(l: Ledger, at: int, amounts: seq<int>): (Ledger, Alloc)
    decreases |amounts|
  {
    if amounts == [] then (l, Alloc(0, 0, 0, 0))
    else
      var (l1, r1) := Repay(l, at, amounts[0]);
      var (l2, rest) := RepayAll(l1, at, amounts[1..]);
      (l2, if r1.Ok? then AllocSum(r1.value, rest) else rest)
  }

  /** Any split of one payment into payments at the same time ends in the same book with the same totals. */
  lemma {:induction false} AnySplitIsOnePayment(l: Ledger, at: int, amounts: seq<int>)
    requires l.Solvent() && l.lastAccrualAt <= at
    requires amounts != [] && forall i :: 0 <= i < |amounts| ==> amounts[i] > 0
    ensures Total(amounts) > 0
    ensures var (whole, r) := Repay(l, at, Total(amounts)); var (last, sum) := RepayAll(l, at, amounts);
      last.Book() == whole.Book() && r == Ok(sum)
    decreases |amounts|
  {
    hide UnitsIn, AccumOf;
    var first, rest := amounts[0], amounts[1..];
    var (l1, r1) := Repay(l, at, first);
    RepaymentReducesDebt(l, at, first);
    if rest == [] {
      assert Total(amounts) == first;
    } else {
      AnySplitIsOnePayment(l1, at, rest);
      RepaymentsCompose(l, at, first, Total(rest));
    }
  }

  // ---- what each operation keeps

  lemma BorrowKeeps(l: Ledger, at: int, amount: int)
    requires l.Solvent() && l.lastAccrualAt <= at && amount > 0
    ensures var (l', r) := Borrow(l, at, amount);
      r.Ok? && l'.Solvent() && l'.lastAccrualAt == at
      && l'.principal + l'.Unpaid() == l.principal + l.UnpaidAt(at) + amount
      && Dust(l'.accum) == Dust(l.Accrued(at).accum)
  {
    AccrualKeepsSolvent(l, at);
  }

  lemma SetRateKeeps(l: Ledger, at: int, rateBps: int)
    requires l.Solvent() && l.lastAccrualAt <= at && rateBps >= 0
    ensures var (l', r) := SetRate(l, at, rateBps);
      r.Ok? && l'.Solvent() && l'.lastAccrualAt == at && l'.LegalDebt() == l.Accrued(at).LegalDebt()
  {
    AccrualKeepsSolvent(l, at);
    WithRateKeepsSigns(l.segments, at, rateBps);
  }
}
