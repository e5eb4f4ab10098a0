/** Every unit of cash a run brings in or pays out is in one of the vault's pockets, and nowhere else. */
module VaultConservation {
  import opened Results
  import opened MapSums
  import opened Facility
  import opened Vault
  import opened VaultRuns
  import opened VaultShares

  /** LP cash, borrowers' cash, source escrow and cash in flight. */
  ghost function Holdings(v: Vault): int {
    v.cash + Pockets(v.borrowerReserve, v.borrowerRefundable, v.sourceEscrow, v.inFlight)
  }

  ghost function Pockets(reserve: map<string, int>, refundable: map<string, int>, escrow: map<string, int>,
                         inFlight: map<string, int>): int
  {
    Sum(reserve) + Sum(refundable) + Sum(escrow) + Sum(inFlight)
  }

  /** What an accepted call brings in from outside (out is negative). */
  ghost function Inflow(v: Vault, op: Op): int {
    match op
    case Depositing(lp, assets) => if Deposit(v, lp, assets).1.Ok? then assets else 0
    case Withdrawing(lp, shares) =>
      var r := Withdraw(v, lp, shares).1;
      if r.Ok? then -r.value else 0
    case Donating(assets) => assets
    case Drawing(id, at, amount) => if Draw(v, id, at, amount).1.Ok? then -amount else 0
    case Collecting(_, amount) => amount
    case Repaying(id, at, amount, thirdParty) =>
      if thirdParty && RepayFor(v, id, at, amount, thirdParty).1.Ok? then amount else 0
    case Funding(_, amount) => amount
    case Recovering(id, at, amount) => if Recover(v, id, at, amount).1.Ok? then amount else 0
    case _ => 0
  }

  /** Cash a call books before it raises: a payment that is not positive or is dated before the facility's last accrual,
      and a withdrawal by somebody who never held shares. */
  ghost function BookedThenRaised(v: Vault, op: Op): int {
    match op
    case Repaying(id, at, amount, thirdParty) => if thirdParty then PaymentBookedThenRaised(v, id, at, amount) else 0
    case Recovering(id, at, amount) => PaymentBookedThenRaised(v, id, at, amount)
    case Withdrawing(lp, shares) =>
      if lp !in v.sharesOf && shares <= 0 && ToAssets(v, shares).Ok? && ToAssets(v, shares).value <= v.cash
      then -ToAssets(v, shares).value
      else 0
    case _ => 0
  }

  function PaymentBookedThenRaised(v: Vault, id: string, at: int, amount: int): int {
    if id in v.facilities && v.clock <= at && (amount <= 0 || at < v.facilities[id].lastAccrualAt) then amount else 0
  }

  ghost function NetInflow(v: Vault, ops: seq<Op>): int {
    if ops == [] then 0 else NetInflow(v, ops[..|ops| - 1]) + Inflow(Run(v, ops[..|ops| - 1]), ops[|ops| - 1])
  }

  ghost function NetBookedThenRaised(v: Vault, ops: seq<Op>): int {
    if ops == [] then 0
    else NetBookedThenRaised(v, ops[..|ops| - 1]) + BookedThenRaised(Run(v, ops[..|ops| - 1]), ops[|ops| - 1])
  }

  // ---- one call

  lemma DepositConserves(v: Vault, lp: string, assets: int)
    ensures var (v', r) := Deposit(v, lp, assets); Holdings(v') == Holdings(v) + if r.Ok? then assets else 0
  {
    hide ToShares, Pockets, Get;
  }

  lemma WithdrawConserves(v: Vault, lp: string, shares: int)
    ensures var (v', r) := Withdraw(v, lp, shares);
      && (r.Ok? ==> Holdings(v') == Holdings(v) - r.value && BookedThenRaised(v, Withdrawing(lp, shares)) == 0)
      && (r.Err? ==> Holdings(v') == Holdings(v) + BookedThenRaised(v, Withdrawing(lp, shares)))
  {
    hide ToAssets, Pockets, PaymentBookedThenRaised;
  }

  lemma DrawConserves(v: Vault, id: string, at: int, amount: int)
    ensures var (v', r) := Draw(v, id, at, amount); Holdings(v') == Holdings(v) - if r.Ok? then amount else 0
  {
    hide Borrow, Pockets;
  }

  lemma ReceiptsConserve(v: Vault, key: string, amount: int)
    ensures Holdings(SourceReceipt(v, key, amount)) == Holdings(v) + amount
    ensures Holdings(FundReserve(v, key, amount)) == Holdings(v) + amount
  {
    hide Sum;
    SumUpdate(v.sourceEscrow, key, Get(v.sourceEscrow, key) + amount);
    SumUpdate(v.borrowerReserve, key, Get(v.borrowerReserve, key) + amount);
  }

  lemma TransfersConserve(v: Vault, key: string, amount: int)
    ensures Holdings(StartLeg(v, key, amount).0) == Holdings(v)
    ensures Holdings(DestinationReceipt(v, key, amount).0) == Holdings(v)
  {
    hide Sum;
    SumUpdate(v.sourceEscrow, key, Get(v.sourceEscrow, key) - amount);
    SumUpdate(v.inFlight, key, Get(v.inFlight, key) + amount);
    SumUpdate(v.inFlight, key, Get(v.inFlight, key) - amount);
  }

  lemma SettlementConserves(v: Vault, id: string, at: int, amount: int, booked: int)
    requires booked == amount || booked == 0
    ensures var (v', r) := Settle(v, id, at, amount, booked);
      && (r.Ok? ==> Holdings(v') == Holdings(v) + booked && PaymentBookedThenRaised(v, id, at, amount) == 0)
      && (r.Err? && booked == amount ==> Holdings(v') == Holdings(v) + PaymentBookedThenRaised(v, id, at, amount))
      && (r.Err? && booked == 0 ==> Holdings(v') == Holdings(v))
  {
    hide Repay, Sum;
    if id in v.facilities {
      PaymentsRefused(v, id, at, amount);
    }
    var r := Settle(v, id, at, amount, booked).1;
    if r.Ok? {
      SumUpdate(v.borrowerRefundable, id, Get(v.borrowerRefundable, id) + r.value.excess);
    }
  }

  lemma PaymentsRefused(v: Vault, id: string, at: int, amount: int)
    requires id in v.facilities
    ensures Repay(v.facilities[id], at, amount).1.Err? <==> (amount <= 0 || at < v.facilities[id].lastAccrualAt)
  {
    hide Waterfall, Pay, Ledger.Accrued;
  }

  lemma ReserveConserves(v: Vault, id: string, at: int, used: int)
    requires id in v.facilities
    ensures Holdings(PayFromReserve(v, id, at, used).0) == Holdings(v)
  {
    hide Repay, Sum;
    SumUpdate(v.borrowerReserve, id, Get(v.borrowerReserve, id) - used);
  }

  lemma WriteOffConserves(v: Vault, id: string, at: int)
    ensures Holdings(WriteOff(v, id, at).0) == Holdings(v)
  {
    hide PayFromReserve, ReserveToUse, MarkWrittenOff, Ledger.Accrued, Ledger.Unpaid, Pockets;
    if id in v.facilities && v.clock <= at && v.facilities[id].lastAccrualAt <= at {
      var l := v.facilities[id].Accrued(at);
      ReserveConserves(WithFacility(v.(clock := at), id, l), id, at, ReserveToUse(v, id, l));
    }
  }

  lemma FacilityCallsConserve(v: Vault, id: string, at: int, amount: int)
    ensures Holdings(Impair(v, id, amount).0) == Holdings(v)
    ensures Holdings(AccrueFacility(v, id, at)) == Holdings(v)
    ensures Holdings(SetFacilityRate(v, id, at, amount)) == Holdings(v)
    ensures Holdings(ChargeFacilityFee(v, id, at, amount)) == Holdings(v)
  {
    hide Accrue, SetRate, ChargeFee, Pockets, Ledger.Unpaid;
  }

  lemma PlainCallsConserve(v: Vault, id: string, l: Ledger, at: int, amount: int)
    ensures Holdings(Donate(v, amount)) == Holdings(v) + amount
    ensures Holdings(Tick(v, at).0) == Holdings(v)
    ensures Holdings(WithFacility(v, id, l)) == Holdings(v)
  {
    hide Pockets;
  }

  ghost predicate Conserves(v: Vault, op: Op) {
    Holdings(Apply(v, op)) == Holdings(v) + Inflow(v, op) + BookedThenRaised(v, op)
  }

  lemma EveryCallConserves(v: Vault, op: Op)
    ensures Conserves(v, op)
  {
    hide Deposit, Withdraw, Draw, Settle, WriteOff, Impair, AccrueFacility, SetFacilityRate, ChargeFacilityFee;
    hide SourceReceipt, StartLeg, DestinationReceipt, FundReserve, PaymentBookedThenRaised, ToAssets;
    hide Holdings, Donate, Tick, WithFacility, Opened;
    match op
    case Depositing(lp, assets) => DepositConserves(v, lp, assets);
    case Withdrawing(lp, shares) => WithdrawConserves(v, lp, shares);
    case Drawing(id, at, amount) => DrawConserves(v, id, at, amount);
    case Collecting(s, amount) => ReceiptsConserve(v, s, amount);
    case StartingLeg(s, amount) => TransfersConserve(v, s, amount);
    case Arriving(s, amount) => TransfersConserve(v, s, amount);
    case Funding(id, amount) => ReceiptsConserve(v, id, amount);
    case Repaying(id, at, amount, thirdParty) =>
      SettlementConserves(v, id, at, amount, if thirdParty then amount else 0);
    case Recovering(id, at, amount) => SettlementConserves(v, id, at, amount, amount);
    case WritingOff(id, at) => WriteOffConserves(v, id, at);
    case Impairing(id, amount) => FacilityCallsConserve(v, id, 0, amount);
    case Accruing(id, at) => FacilityCallsConserve(v, id, at, 0);
    case ChangingRate(id, at, rateBps) => FacilityCallsConserve(v, id, at, rateBps);
    case Charging(id, at, amount) => FacilityCallsConserve(v, id, at, amount);
    case Donating(assets) => PlainCallsConserve(v, "", Opened(0, false, 0), 0, assets);
    case Ticking(at) => PlainCallsConserve(v, "", Opened(0, false, 0), at, 0);
    case Opening(id, rateBps, capitalize, at) => PlainCallsConserve(v, id, Opened(rateBps, capitalize, at), 0, 0);
  }

  // ---- runs

  /** Over every run whatever, holdings are what came in less what went out, plus what calls booked and then raised. */
  lemma {:induction false} HoldingsAreConserved(v: Vault, ops: seq<Op>)
    ensures Holdings(Run(v, ops)) == Holdings(v) + NetInflow(v, ops) + NetBookedThenRaised(v, ops)
  {
    hide Holdings, Apply, Inflow, BookedThenRaised;
    if ops != [] {
      HoldingsAreConserved(v, ops[..|ops| - 1]);
      EveryCallConserves(Run(v, ops[..|ops| - 1]), ops[|ops| - 1]);
    }
  }

  /** A single call conserves cash exactly when it does not raise after booking some. */
  lemma ConservedUnlessRaisedAfterBooking(v: Vault, op: Op)
    ensures Holdings(Apply(v, op)) == Holdings(v) + Inflow(v, op) <==> BookedThenRaised(v, op) == 0
  {
    hide Holdings, Apply, Inflow, BookedThenRaised;
    EveryCallConserves(v, op);
  }

  /** A refused payment can leave cash behind that nobody sent: here the facility was accrued past the vault's clock. */
  lemma RefusedPaymentLeavesCash(id: string)
    ensures var v := AccrueFacility(OpenFacility(Fresh(1000, 1), id, 1000, false, 0), id, 10);
      var (v', r) := RepayFor(v, id, 5, 7, true);
      r == Err(AccrualBackwards) && Holdings(v') == Holdings(v) + 7
  {
    hide Pockets;
    var v := AccrueFacility(OpenFacility(Fresh(1000, 1), id, 1000, false, 0), id, 10);
    assert v.facilities[id].lastAccrualAt == 10;
  }

  /** A positive payment into a facility that is not ahead of the vault's clock, and a withdrawal by a holder, never
      raise after booking; nor does anything that is neither. */
  ghost predicate BookedCleanly(v: Vault, op: Op) {
    match op
    case Repaying(id, _, amount, thirdParty) => !thirdParty || (amount > 0 && NotAhead(v, id))
    case Recovering(id, _, amount) => amount > 0 && NotAhead(v, id)
    case Withdrawing(_, shares) => shares > 0
    case _ => true
  }

  predicate NotAhead(v: Vault, id: string) {
    id in v.facilities ==> v.facilities[id].lastAccrualAt <= v.clock
  }

  lemma {:induction false} CleanRunsConserve(v: Vault, ops: seq<Op>)
    requires forall i :: 0 <= i < |ops| ==> BookedCleanly(Run(v, ops[..i]), ops[i])
    ensures Holdings(Run(v, ops)) == Holdings(v) + NetInflow(v, ops)
  {
    HoldingsAreConserved(v, ops);
    NothingRaised(v, ops);
  }

  lemma {:induction false} NothingRaised(v: Vault, ops: seq<Op>)
    requires forall i :: 0 <= i < |ops| ==> BookedCleanly(Run(v, ops[..i]), ops[i])
    ensures NetBookedThenRaised(v, ops) == 0
  {
    hide Apply, ToAssets;
    if ops != [] {
      var prior := ops[..|ops| - 1];
      assert forall i :: 0 <= i < |prior| ==> prior[..i] == ops[..i];
      NothingRaised(v, prior);
      assert BookedCleanly(Run(v, prior), ops[|ops| - 1]);
    }
  }

  /** The shares issued stay the shares held, over every run in which nobody withdraws a negative number. */
  lemma {:induction false} SharesStayAccountedFor(v: Vault, ops: seq<Op>)
    requires SharesBalance(v) && forall i :: 0 <= i < |ops| ==> ops[i].Withdrawing? ==> ops[i].shares >= 0
    ensures SharesBalance(Run(v, ops))
  {
    hide SharesBalance, Apply;
    if ops != [] {
      SharesStayAccountedFor(v, ops[..|ops| - 1]);
      SharesStayBalanced(Run(v, ops[..|ops| - 1]), ops[|ops| - 1]);
    }
  }
}
