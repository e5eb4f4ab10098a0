/** When each call on the vault is accepted, and whose pocket every unit of cash outside the LPs' own is in. */
module VaultPockets {
  import opened Results
  import opened FloorArithmetic
  import opened MapSums
  import opened RateSchedule
  import opened Facility
  import opened FacilityTerms
  import opened Vault
  import opened VaultRuns
  import opened VaultCap
  import opened VaultNav

  // ---- when calls are accepted

  /** Time never goes back, and goes nowhere but to the time given. */
  lemma TickedExactly(v: Vault, at: int)
    ensures var (v', r) := Tick(v, at);
      (r.Ok? <==> v.clock <= at) && v' == if r.Ok? then v.(clock := at) else v
  {
  }

  /** A draw is paid out exactly when the facility is known, the cash is there, and neither clock has passed; it is owed
      by that facility, on its terms. */
  lemma DrawnExactly(v: Vault, id: string, at: int, amount: int)
    ensures var (v', r) := Draw(v, id, at, amount);
      && (r.Ok? <==>
        && id in v.facilities && 0 < amount <= v.cash && v.clock <= at && v.facilities[id].lastAccrualAt <= at)
      && (r.Ok? ==>
        var l, l' := v.facilities[id], v'.facilities[id];
        && l'.principal == l.principal + amount + (if l.capitalize then l.UnpaidAt(at) else 0)
        && l'.Unpaid() == (if l.capitalize then 0 else l.UnpaidAt(at))
        && v' == v.(clock := at, cash := v.cash - amount, facilities := v.facilities[id := l']))
      && (r.Err? ==> v'.cash == v.cash && v'.facilities == v.facilities)
  {
    if id in v.facilities {
      DrawFollowsTheTerms(v.facilities[id], at, amount);
    }
    hide Borrow, Ledger.UnpaidAt, Ledger.Unpaid;
  }

  /** A payment is accepted exactly when it is positive, its facility known, and neither clock has passed; the debt then
      falls by all of it that is not handed back, and what is handed back is the borrower's. */
  lemma PaidExactly(v: Vault, id: string, at: int, amount: int, booked: int)
    requires id in v.facilities ==> v.facilities[id].Solvent()
    ensures var (v', r) := Settle(v, id, at, amount, booked);
      && (r.Ok? <==> id in v.facilities && amount > 0 && v.clock <= at && v.facilities[id].lastAccrualAt <= at)
      && (r.Ok? ==>
        && id in v'.facilities && v'.clock == at
        && v'.facilities[id].LegalDebt() == v.facilities[id].Accrued(at).LegalDebt() - (amount - r.value.excess)
        && v'.cash == v.cash + booked - r.value.excess
        && (r.value.excess > 0 ==> v'.facilities[id].LegalDebt() == 0)
        && forall other :: other in v.facilities && other != id ==> v'.facilities[other] == v.facilities[other])
  {
    hide Repay, Settle, Ledger.Accrued, Ledger.Solvent, Ledger.LegalDebt;
    if id in v.facilities && v.clock <= at {
      SettleShape(v, id, at, amount, booked);
      PaymentAccepted(v.facilities[id], at, amount);
      if amount > 0 && v.facilities[id].lastAccrualAt <= at {
        RepaymentReducesDebt(v.facilities[id], at, amount);
      }
    } else {
      SettleRefused(v, id, at, amount, booked);
    }
  }

  /** A leg leaves the escrow exactly when the settlement has that much there. */
  lemma LegStartsExactly(v: Vault, settlement: string, amount: int)
    ensures var (v', r) := StartLeg(v, settlement, amount);
      && (r.Ok? <==> settlement in v.sourceEscrow && amount <= v.sourceEscrow[settlement])
      && (r.Ok? ==>
        v' == v.(sourceEscrow := v.sourceEscrow[settlement := v.sourceEscrow[settlement] - amount],
                 inFlight := v.inFlight[settlement := Get(v.inFlight, settlement) + amount]))
      && (r.Err? ==> v' == v)
  {
  }

  /** Cash arrives exactly when the settlement has that much in flight. */
  lemma LegArrivesExactly(v: Vault, settlement: string, amount: int)
    ensures var (v', r) := DestinationReceipt(v, settlement, amount);
      && (r.Ok? <==> settlement in v.inFlight && amount <= v.inFlight[settlement])
      && (r.Ok? ==>
        v' == v.(inFlight := v.inFlight[settlement := v.inFlight[settlement] - amount], cash := v.cash + amount))
      && (r.Err? ==> v' == v)
  {
  }

  /** An impairment is taken exactly within the exposure not impaired yet. */
  lemma ImpairedExactly(v: Vault, id: string, amount: int)
    ensures var (v', r) := Impair(v, id, amount);
      && (r.Ok? <==>
        && id in v.facilities
        && Get(v.impairmentBy, id) + amount <= v.facilities[id].principal + v.facilities[id].Unpaid())
      && (r.Ok? ==> v' == v.(impairmentBy := v.impairmentBy[id := Get(v.impairmentBy, id) + amount]))
      && (r.Err? ==> v' == v)
  {
  }

  /** A write-off is made exactly for a known facility at a time neither clock has passed; it takes from that borrower's
      reserve what is there, up to the debt, and records the loss on that facility. */
  lemma WrittenOffExactly(v: Vault, id: string, at: int)
    requires id in v.facilities ==> v.facilities[id].Solvent()
    requires Get(v.borrowerReserve, id) >= 0
    ensures var (v', r) := WriteOff(v, id, at);
      && (r.Ok? <==> id in v.facilities && v.clock <= at && v.facilities[id].lastAccrualAt <= at)
      && (r.Err? ==> v'.borrowerReserve == v.borrowerReserve && v'.facilities == v.facilities && v'.cash == v.cash)
      && (r.Ok? ==>
        && r.value.reserveUsed == Min(Get(v.borrowerReserve, id), v.facilities[id].Accrued(at).LegalDebt()) >= 0
        && v'.cash == v.cash + r.value.reserveUsed
        && Get(v'.borrowerReserve, id) == Get(v.borrowerReserve, id) - r.value.reserveUsed
        && (forall k :: k != id ==> Get(v'.borrowerReserve, k) == Get(v.borrowerReserve, k))
        && id in v'.facilities && v'.facilities[id].impaired && v'.facilities[id].frozen
        && v'.facilities[id].writtenOffPrincipal == v.facilities[id].writtenOffPrincipal + r.value.lossPrincipal
        && v'.facilities[id].writtenOffInterest == v.facilities[id].writtenOffInterest + r.value.lossInterest
        && v'.facilities[id].principal == r.value.lossPrincipal && v'.facilities[id].Unpaid() == r.value.lossInterest)
  {
    hide PayFromReserve, Ledger.Solvent, UnitsIn, AccumOf;
    if id in v.facilities && v.clock <= at && v.facilities[id].lastAccrualAt <= at {
      var l := v.facilities[id].Accrued(at);
      AccrualKeepsSolvent(v.facilities[id], at);
      SolventDebt(l);
      ReserveTaken(WithFacility(v.(clock := at), id, l), id, at, ReserveToUse(v, id, l));
    }
  }

  lemma SolventDebt(l: Ledger)
    requires l.Solvent()
    ensures l.LegalDebt() >= 0
  {
  }

  lemma ReserveTaken(v: Vault, id: string, at: int, used: int)
    requires id in v.facilities && v.facilities[id].lastAccrualAt <= at && 0 <= used <= Get(v.borrowerReserve, id)
    ensures var (v', r) := PayFromReserve(v, id, at, used);
      && r.Ok? && v'.cash == v.cash + used
      && Get(v'.borrowerReserve, id) == Get(v.borrowerReserve, id) - used
      && (forall k :: k != id ==> Get(v'.borrowerReserve, k) == Get(v.borrowerReserve, k))
      && v'.facilities[id].writtenOffPrincipal == v.facilities[id].writtenOffPrincipal
      && v'.facilities[id].writtenOffInterest == v.facilities[id].writtenOffInterest
  {
    hide Repay;
    PaymentAccepted(v.facilities[id], at, used);
    PaymentKeepsMarks(v.facilities[id], at, used);
  }

  lemma PaymentKeepsMarks(l: Ledger, at: int, amount: int)
    ensures var l' := Repay(l, at, amount).0;
      && l'.writtenOffPrincipal == l.writtenOffPrincipal && l'.writtenOffInterest == l.writtenOffInterest
      && l'.impaired == l.impaired && l'.frozen == l.frozen
  {
  }

  // ---- facilities of the vault

  /** A facility opened under an id owes nothing, on the agreed terms and rate; whatever else the vault has stays. */
  lemma OpenedOnItsTerms(v: Vault, id: string, rateBps: int, capitalize: bool, at: int, s: int)
    ensures var v' := OpenFacility(v, id, rateBps, capitalize, at);
      && id in v'.facilities
      && var l := v'.facilities[id];
         && l.LegalDebt() == 0 && l.capitalize == capitalize && RateAt(l.segments, s) == rateBps
         && l.lastAccrualAt == at && !l.impaired && !l.frozen
         && v' == v.(facilities := v.facilities[id := l])
  {
    OpensAsAgreed(rateBps, capitalize, at, s);
  }

  /** Accruing, charging a fee and changing the rate reach the named facility, and nothing else in the vault; none has
      any effect back in time. */
  lemma FacilityCallsReachIt(v: Vault, id: string, at: int, amount: int, rateBps: int)
    requires id in v.facilities
    ensures var l, accrued := v.facilities[id], AccrueFacility(v, id, at);
      && accrued == v.(facilities := v.facilities[id := accrued.facilities[id]])
      && accrued.facilities[id].Unpaid() == (if l.lastAccrualAt <= at then l.UnpaidAt(at) else l.Unpaid())
    ensures var l, charged := v.facilities[id], ChargeFacilityFee(v, id, at, amount);
      && charged == v.(facilities := v.facilities[id := charged.facilities[id]])
      && charged.facilities[id].fees == l.fees + if l.lastAccrualAt <= at then amount else 0
    ensures var l, changed := v.facilities[id], SetFacilityRate(v, id, at, rateBps);
      && changed == v.(facilities := v.facilities[id := changed.facilities[id]])
      && (at < l.lastAccrualAt ==> changed == v)
      && (l.Valid() && SortedByStart(l.segments) && l.segments[0].start <= l.lastAccrualAt <= at ==>
            RateAt(changed.facilities[id].segments, at) == rateBps)
  {
    var l := v.facilities[id];
    FeeIsOwedOnce(l, at, amount);
    if l.Valid() && SortedByStart(l.segments) && l.segments[0].start <= l.lastAccrualAt {
      RateChangeFollowsTheTerms(l, at, rateBps, at);
    }
    assert NoStartWithin(l.segments, at, at);
    hide RateAt, SortedByStart, WithRate, NoStartWithin, UnitsIn;
    assert v.facilities[id := l] == v.facilities;
  }

  // ---- whose cash is where

  /** What a call adds to one settlement's escrow. */
  ghost function EscrowFlow(v: Vault, op: Op, settlement: string): int {
    match op
    case Collecting(s, amount) => if s == settlement then amount else 0
    case StartingLeg(s, amount) => if s == settlement && StartLeg(v, s, amount).1.Ok? then -amount else 0
    case _ => 0
  }

  /** What it adds to the settlement's cash in flight. */
  ghost function FlightFlow(v: Vault, op: Op, settlement: string): int {
    match op
    case StartingLeg(s, amount) => if s == settlement && StartLeg(v, s, amount).1.Ok? then amount else 0
    case Arriving(s, amount) => if s == settlement && DestinationReceipt(v, s, amount).1.Ok? then -amount else 0
    case _ => 0
  }

  /** What it adds to what is owed back to a facility's borrower. */
  ghost function RefundFlow(v: Vault, op: Op, id: string): int {
    match op
    case Repaying(i, at, amount, thirdParty) =>
      var r := RepayFor(v, i, at, amount, thirdParty).1;
      if i == id && r.Ok? then r.value.excess else 0
    case Recovering(i, at, amount) =>
      var r := Recover(v, i, at, amount).1;
      if i == id && r.Ok? then r.value.excess else 0
    case _ => 0
  }

  /** What it adds to a borrower's reserve. */
  ghost function ReserveFlow(v: Vault, op: Op, id: string): int {
    match op
    case Funding(i, amount) => if i == id then amount else 0
    case WritingOff(i, at) =>
      var r := WriteOff(v, i, at).1;
      if i == id && r.Ok? then -r.value.reserveUsed else 0
    case _ => 0
  }

  ghost predicate PocketsMove(v: Vault, op: Op, key: string) {
    var v' := Apply(v, op);
    && Get(v'.sourceEscrow, key) == Get(v.sourceEscrow, key) + EscrowFlow(v, op, key)
    && Get(v'.inFlight, key) == Get(v.inFlight, key) + FlightFlow(v, op, key)
    && Get(v'.borrowerRefundable, key) == Get(v.borrowerRefundable, key) + RefundFlow(v, op, key)
    && Get(v'.borrowerReserve, key) == Get(v.borrowerReserve, key) + ReserveFlow(v, op, key)
  }

  lemma GetAfterUpdate(m: map<string, int>, k: string, x: int, key: string)
    ensures Get(m[k := x], key) == if key == k then x else Get(m, key)
  {
  }

  lemma SettleMovesRefunds(v: Vault, id: string, at: int, amount: int, booked: int, key: string)
    ensures var (v', r) := Settle(v, id, at, amount, booked);
      && v'.sourceEscrow == v.sourceEscrow && v'.inFlight == v.inFlight && v'.borrowerReserve == v.borrowerReserve
      && Get(v'.borrowerRefundable, key)
         == Get(v.borrowerRefundable, key) + if key == id && r.Ok? then r.value.excess else 0
  {
    hide Repay, Get;
    if id in v.facilities && v.clock <= at {
      var r := Repay(v.facilities[id], at, amount).1;
      if r.Ok? {
        GetAfterUpdate(v.borrowerRefundable, id, Get(v.borrowerRefundable, id) + r.value.excess, key);
      }
    }
  }

  lemma WriteOffMovesReserve(v: Vault, id: string, at: int, key: string)
    requires Kept(v) && Get(v.borrowerReserve, id) >= 0
    ensures PocketsMove(v, WritingOff(id, at), key)
  {
    WrittenOffExactly(v, id, at) by { hide Nav; }
    WriteOffTouchesOnlyTheReserve(v, id, at);
    hide WriteOff;
  }

  predicate SamePockets(v: Vault, v': Vault) {
    && v'.sourceEscrow == v.sourceEscrow && v'.inFlight == v.inFlight
    && v'.borrowerRefundable == v.borrowerRefundable && v'.borrowerReserve == v.borrowerReserve
  }

  lemma WriteOffTouchesOnlyTheReserve(v: Vault, id: string, at: int)
    ensures SamePockets(v, WriteOff(v, id, at).0.(borrowerReserve := v.borrowerReserve))
  {
    hide PayFromReserve, Ledger.Accrued, ReserveToUse, MarkWrittenOff;
    if id in v.facilities && v.clock <= at && v.facilities[id].lastAccrualAt <= at {
      var l := v.facilities[id].Accrued(at);
      ReserveTouchesOnlyItself(WithFacility(v.(clock := at), id, l), id, at, ReserveToUse(v, id, l));
    }
  }

  lemma ReserveTouchesOnlyItself(v: Vault, id: string, at: int, used: int)
    requires id in v.facilities
    ensures SamePockets(v, PayFromReserve(v, id, at, used).0.(borrowerReserve := v.borrowerReserve))
  {
    hide Repay, Get;
    if used != 0 && id in v.borrowerReserve {
      var w := WithFacility(v, id, Repay(v.facilities[id], at, used).0);
      assert SamePockets(v, w);
      assert SamePockets(v, UseReserve(v, id, used).(borrowerReserve := v.borrowerReserve));
      assert SamePockets(v, UseReserve(w, id, used).(borrowerReserve := v.borrowerReserve));
      hide UseReserve, WithFacility;
    }
  }

  lemma DepositMovesNoPocket(v: Vault, lp: string, assets: int)
    ensures SamePockets(v, Deposit(v, lp, assets).0)
  {
    hide ToShares, Get;
  }

  lemma WithdrawalMovesNoPocket(v: Vault, lp: string, shares: int)
    ensures SamePockets(v, Withdraw(v, lp, shares).0)
  {
    hide ToAssets, Get;
  }

  lemma DrawMovesNoPocket(v: Vault, id: string, at: int, amount: int)
    ensures SamePockets(v, Draw(v, id, at, amount).0)
  {
    hide Borrow;
  }

  lemma ImpairmentMovesNoPocket(v: Vault, id: string, amount: int)
    ensures SamePockets(v, Impair(v, id, amount).0)
  {
    hide Get, Ledger.Unpaid;
  }

  lemma FacilityCallsMoveNoPocket(v: Vault, id: string, at: int, amount: int)
    ensures SamePockets(v, AccrueFacility(v, id, at)) && SamePockets(v, SetFacilityRate(v, id, at, amount))
    ensures SamePockets(v, ChargeFacilityFee(v, id, at, amount))
  {
    hide Accrue, SetRate, ChargeFee;
  }

  lemma PlainCallsMoveNoPocket(v: Vault, id: string, l: Ledger, at: int, amount: int)
    ensures SamePockets(v, Donate(v, amount)) && SamePockets(v, Tick(v, at).0) && SamePockets(v, WithFacility(v, id, l))
  {
  }

  lemma OtherCallsMoveNoPocket(v: Vault, op: Op)
    requires op.Depositing? || op.Withdrawing? || op.Donating? || op.Ticking? || op.Opening? || op.Drawing?
      || op.Impairing? || op.Accruing? || op.ChangingRate? || op.Charging?
    ensures SamePockets(v, Apply(v, op))
  {
    hide Deposit, Withdraw, Draw, Impair, AccrueFacility, SetFacilityRate, ChargeFacilityFee, Donate, Tick, Opened;
    hide SamePockets, WithFacility;
    match op
    case Depositing(lp, assets) => DepositMovesNoPocket(v, lp, assets);
    case Withdrawing(lp, shares) => WithdrawalMovesNoPocket(v, lp, shares);
    case Donating(assets) => PlainCallsMoveNoPocket(v, "", Opened(0, false, 0), 0, assets);
    case Ticking(at) => PlainCallsMoveNoPocket(v, "", Opened(0, false, 0), at, 0);
    case Opening(id, rateBps, capitalize, at) =>
      PlainCallsMoveNoPocket(v, id, Opened(rateBps, capitalize, at), 0, 0);
    case Drawing(id, at, amount) => DrawMovesNoPocket(v, id, at, amount);
    case Impairing(id, amount) => ImpairmentMovesNoPocket(v, id, amount);
    case Accruing(id, at) => FacilityCallsMoveNoPocket(v, id, at, 0);
    case ChangingRate(id, at, rateBps) => FacilityCallsMoveNoPocket(v, id, at, rateBps);
    case Charging(id, at, amount) => FacilityCallsMoveNoPocket(v, id, at, amount);
  }

  lemma CollectingMovesItsPocket(v: Vault, settlement: string, amount: int, key: string)
    ensures PocketsMove(v, Collecting(settlement, amount), key)
  {
    hide Get;
    GetAfterUpdate(v.sourceEscrow, settlement, Get(v.sourceEscrow, settlement) + amount, key);
    assert Apply(v, Collecting(settlement, amount)) == SourceReceipt(v, settlement, amount);
  }

  lemma LegMovesItsPockets(v: Vault, settlement: string, amount: int, key: string)
    ensures PocketsMove(v, StartingLeg(settlement, amount), key)
  {
    LegStartsExactly(v, settlement, amount);
    hide StartLeg;
  }

  lemma ArrivalMovesItsPocket(v: Vault, settlement: string, amount: int, key: string)
    ensures PocketsMove(v, Arriving(settlement, amount), key)
  {
    LegArrivesExactly(v, settlement, amount);
    hide DestinationReceipt;
  }

  lemma FundingMovesItsPocket(v: Vault, id: string, amount: int, key: string)
    ensures PocketsMove(v, Funding(id, amount), key)
  {
    hide Get;
    GetAfterUpdate(v.borrowerReserve, id, Get(v.borrowerReserve, id) + amount, key);
    assert Apply(v, Funding(id, amount)) == FundReserve(v, id, amount);
  }

  /** A call moves the pockets it names, by what it says, and no other. */
  lemma CallMovesItsPockets(v: Vault, op: Op, key: string)
    requires Kept(v) && Regular(v, op)
    ensures PocketsMove(v, op, key)
  {
    hide Kept, Deposit, Withdraw, Draw, Settle, Impair, AccrueFacility, SetFacilityRate, ChargeFacilityFee, StartLeg;
    hide DestinationReceipt, Get, OpenFacility, WriteOff, FundReserve, SourceReceipt, Tick, Donate;
    match op
    case Repaying(id, at, amount, thirdParty) =>
      SettleMovesRefunds(v, id, at, amount, if thirdParty then amount else 0, key);
    case Recovering(id, at, amount) => SettleMovesRefunds(v, id, at, amount, amount, key);
    case WritingOff(id, at) => WriteOffMovesReserve(v, id, at, key);
    case Collecting(settlement, amount) => CollectingMovesItsPocket(v, settlement, amount, key);
    case StartingLeg(settlement, amount) => LegMovesItsPockets(v, settlement, amount, key);
    case Arriving(settlement, amount) => ArrivalMovesItsPocket(v, settlement, amount, key);
    case Funding(id, amount) => FundingMovesItsPocket(v, id, amount, key);
    case _ => OtherCallsMoveNoPocket(v, op);
  }

  // ---- runs

  ghost function TotalEscrowFlow(v: Vault, ops: seq<Op>, key: string): int {
    if ops == [] then 0
    else TotalEscrowFlow(v, ops[..|ops| - 1], key) + EscrowFlow(Run(v, ops[..|ops| - 1]), ops[|ops| - 1], key)
  }

  ghost function TotalFlightFlow(v: Vault, ops: seq<Op>, key: string): int {
    if ops == [] then 0
    else TotalFlightFlow(v, ops[..|ops| - 1], key) + FlightFlow(Run(v, ops[..|ops| - 1]), ops[|ops| - 1], key)
  }

  ghost function TotalRefundFlow(v: Vault, ops: seq<Op>, key: string): int {
    if ops == [] then 0
    else TotalRefundFlow(v, ops[..|ops| - 1], key) + RefundFlow(Run(v, ops[..|ops| - 1]), ops[|ops| - 1], key)
  }

  ghost function TotalReserveFlow(v: Vault, ops: seq<Op>, key: string): int {
    if ops == [] then 0
    else TotalReserveFlow(v, ops[..|ops| - 1], key) + ReserveFlow(Run(v, ops[..|ops| - 1]), ops[|ops| - 1], key)
  }

  /** Nobody funds, collects or moves a negative amount. */
  predicate AmountsChecked(op: Op) {
    match op
    case Collecting(_, amount) => amount >= 0
    case StartingLeg(_, amount) => amount >= 0
    case Arriving(_, amount) => amount >= 0
    case Funding(_, amount) => amount >= 0
    case _ => true
  }

  ghost predicate PocketsNonNegative(v: Vault) {
    forall key :: PocketNonNegative(v, key)
  }

  predicate PocketNonNegative(v: Vault, key: string) {
    Get(v.sourceEscrow, key) >= 0 && Get(v.inFlight, key) >= 0 && Get(v.borrowerRefundable, key) >= 0
    && Get(v.borrowerReserve, key) >= 0
  }

  lemma FlowsStayWithinPockets(v: Vault, op: Op, key: string)
    requires Kept(v) && PocketsNonNegative(v) && AmountsChecked(op)
    ensures Regular(v, op)
    ensures Get(v.sourceEscrow, key) + EscrowFlow(v, op, key) >= 0
    ensures Get(v.inFlight, key) + FlightFlow(v, op, key) >= 0
    ensures Get(v.borrowerRefundable, key) + RefundFlow(v, op, key) >= 0
    ensures Get(v.borrowerReserve, key) + ReserveFlow(v, op, key) >= 0
  {
    assert PocketNonNegative(v, key);
    hide Settle, WriteOff, Ledger.Solvent;
    match op
    case WritingOff(id, at) =>
      assert PocketNonNegative(v, id);
      WrittenOffExactly(v, id, at);
    case Repaying(id, at, amount, thirdParty) => ExcessIsNotNegative(v, id, at, amount, if thirdParty then amount
      else 0);
    case Recovering(id, at, amount) => ExcessIsNotNegative(v, id, at, amount, amount);
    case _ =>
  }

  lemma ExcessIsNotNegative(v: Vault, id: string, at: int, amount: int, booked: int)
    requires Kept(v)
    ensures var r := Settle(v, id, at, amount, booked).1; r.Ok? ==> r.value.excess >= 0
  {
    hide Repay, Ledger.Solvent, Settle;
    if id in v.facilities && v.clock <= at {
      SettleShape(v, id, at, amount, booked);
      PaymentAccepted(v.facilities[id], at, amount);
      if amount > 0 && v.facilities[id].lastAccrualAt <= at {
        RepaymentReducesDebt(v.facilities[id], at, amount);
      }
    } else {
      SettleRefused(v, id, at, amount, booked);
    }
  }

  /** Over every run of checked amounts, each settlement's escrow and flight and each borrower's refunds and reserve are
      what was collected, moved, set aside, funded and used for that one, and none is ever negative. */
  lemma {:induction false} EveryPocketIsItsOwnLedger(v: Vault, ops: seq<Op>, key: string)
    requires Kept(v) && PocketsNonNegative(v)
    requires forall i :: 0 <= i < |ops| ==> SignsChecked(ops[i]) && AmountsChecked(ops[i])
    ensures Kept(Run(v, ops)) && PocketsNonNegative(Run(v, ops))
    ensures Get(Run(v, ops).sourceEscrow, key) == Get(v.sourceEscrow, key) + TotalEscrowFlow(v, ops, key)
    ensures Get(Run(v, ops).inFlight, key) == Get(v.inFlight, key) + TotalFlightFlow(v, ops, key)
    ensures Get(Run(v, ops).borrowerRefundable, key) == Get(v.borrowerRefundable, key) + TotalRefundFlow(v, ops, key)
    ensures Get(Run(v, ops).borrowerReserve, key) == Get(v.borrowerReserve, key) + TotalReserveFlow(v, ops, key)
  {
    hide Kept, Apply, Get, EscrowFlow, FlightFlow, RefundFlow, ReserveFlow, Regular;
    if ops != [] {
      var n := |ops| - 1;
      var before := Run(v, ops[..n]);
      EveryPocketIsItsOwnLedger(v, ops[..n], key);
      CallKeeps(before, ops[n]);
      forall k
        ensures PocketsMove(before, ops[n], k) && PocketNonNegative(Apply(before, ops[n]), k)
      {
        FlowsStayWithinPockets(before, ops[n], k);
        CallMovesItsPockets(before, ops[n], k);
      }
      assert PocketsMove(before, ops[n], key);
    }
  }
}
