/** Where the net asset value comes from: over every run, cash in less cash out, interest, fees and recoveries, less
    losses, and nothing else. */
module VaultNav {
  import opened Results
  import opened FloorArithmetic
  import opened MapSums
  import opened Facility
  import opened Vault
  import opened VaultRuns
  import opened VaultPrice
  import opened VaultConservation
  import opened VaultLosses
  import opened VaultCap

  // ---- what a call contributes

  /** The vault after the call's clock, accrual and rate have taken effect, and before anything else has. */
  ghost function Reread(v: Vault, op: Op): Vault {
    match op
    case Ticking(at) => Tick(v, at).0
    case Drawing(id, at, amount) => if id in v.facilities && amount <= v.cash then Tick(v, at).0 else v
    case Repaying(id, at, _, _) => if id in v.facilities then Tick(v, at).0 else v
    case Recovering(id, at, _) => if id in v.facilities then Tick(v, at).0 else v
    case WritingOff(id, at) => if id in v.facilities then Tick(v, at).0 else v
    case Accruing(_, _) => Apply(v, op)
    case ChangingRate(_, _, _) => Apply(v, op)
    case Charging(_, _, _) => Apply(v, op)
    case _ => v
  }

  ghost function InterestOf(v: Vault): int {
    Sum(InterestBy(v.facilities, v.clock))
  }

  /** Interest earned on the performing book while the call's time passes. */
  ghost function Earned(v: Vault, op: Op): int {
    InterestOf(Reread(v, op)) - InterestOf(v)
  }

  /** LP cash that comes or goes: what holders pay in and out, gifts, arrivals, and arrived cash that is allocated; with
      what a call books and then raises. */
  ghost function CashFlow(v: Vault, op: Op): int {
    match op
    case Depositing(lp, assets) => if Deposit(v, lp, assets).1.Ok? then assets else 0
    case Withdrawing(lp, shares) =>
      var r := Withdraw(v, lp, shares).1;
      if r.Ok? then -r.value else BookedThenRaised(v, op)
    case Donating(assets) => assets
    case Arriving(settlement, amount) => if DestinationReceipt(v, settlement, amount).1.Ok? then amount else 0
    case Repaying(id, at, amount, thirdParty) =>
      if RepayFor(v, id, at, amount, thirdParty).1.Ok? then (if thirdParty then 0 else -amount)
        else BookedThenRaised(v, op)
    case Recovering(id, at, amount) => if Recover(v, id, at, amount).1.Ok? then 0 else BookedThenRaised(v, op)
    case _ => 0
  }

  /** Of a payment: the fees, and from a written-off facility all that is not handed back. */
  ghost function Collected(v: Vault, id: string, r: Result<Alloc, Error>): int {
    if r.Err? then 0
    else if id in v.facilities && v.facilities[id].impaired then r.value.fees + r.value.interest + r.value.principal
    else r.value.fees
  }

  ghost function FeesAndRecoveries(v: Vault, op: Op): int {
    match op
    case Repaying(id, at, amount, thirdParty) => Collected(v, id, RepayFor(v, id, at, amount, thirdParty).1)
    case Recovering(id, at, amount) => Collected(v, id, Recover(v, id, at, amount).1)
    case WritingOff(id, at) =>
      if WriteOff(v, id, at).1.Err? then 0
      else if v.facilities[id].impaired then WriteOff(v, id, at).1.value.reserveUsed
      else
        var l := v.facilities[id].Accrued(at);
        Waterfall(l.fees, l.Unpaid(), l.principal, WriteOff(v, id, at).1.value.reserveUsed).fees
    case _ => 0
  }

  /** Impairments taken, write-offs beyond what was impaired, draws by a facility already written off, and what a
      facility was worth when another is opened over it. */
  ghost function Lost(v: Vault, op: Op): int {
    match op
    case Impairing(id, amount) => if Impair(v, id, amount).1.Ok? && !v.facilities[id].impaired then amount else 0
    case WritingOff(id, at) =>
      var r := WriteOff(v, id, at).1;
      if r.Err? || v.facilities[id].impaired then 0
      else r.value.lossPrincipal + r.value.lossInterest - ImpairmentOf(v, id)
    case Drawing(id, at, amount) => if Draw(v, id, at, amount).1.Ok? && v.facilities[id].impaired then amount else 0
    case Opening(id, _, _, _) => WorthOf(v, id) - ImpairmentOf(v, id) + Get(v.impairmentBy, id)
    case _ => 0
  }

  /** A write-off against a reserve that is not negative; everything else is. */
  predicate Regular(v: Vault, op: Op) {
    op.WritingOff? ==> Get(v.borrowerReserve, op.id) >= 0
  }

  ghost predicate Explained(v: Vault, op: Op) {
    Nav(Apply(v, op)) == Nav(v) + CashFlow(v, op) + Earned(v, op) + FeesAndRecoveries(v, op) - Lost(v, op)
  }

  // ---- solvency

  lemma SettleStaysSolvent(v: Vault, id: string, at: int, amount: int, booked: int)
    requires AllSolvent(v)
    ensures AllSolvent(Settle(v, id, at, amount, booked).0)
  {
    hide Repay, Settle, Ledger.Solvent;
    if id in v.facilities && v.clock <= at {
      SettleShape(v, id, at, amount, booked);
      PaymentAccepted(v.facilities[id], at, amount);
      if amount > 0 && v.facilities[id].lastAccrualAt <= at {
        RepaymentReducesDebt(v.facilities[id], at, amount);
      }
    } else {
      SettleRefused(v, id, at, amount, booked);
    }
  }

  lemma FacilityCallStaysSolvent(v: Vault, id: string, at: int, amount: int)
    requires AllSolvent(v)
    ensures AllSolvent(AccrueFacility(v, id, at)) && AllSolvent(Draw(v, id, at, amount).0)
    ensures amount >= 0 ==> AllSolvent(SetFacilityRate(v, id, at, amount))
    ensures amount >= 0 ==> AllSolvent(ChargeFacilityFee(v, id, at, amount))
  {
    hide Accrue, Borrow, SetRate, ChargeFee, Ledger.Solvent;
    if id in v.facilities {
      ExposureGrows(v.facilities[id], at, amount);
    }
  }

  lemma WriteOffStaysSolvent(v: Vault, id: string, at: int)
    requires AllSolvent(v)
    ensures AllSolvent(WriteOff(v, id, at).0)
  {
    hide PayFromReserve, ReserveToUse, Ledger.Accrued, RemoveFromBook, Ledger.Solvent;
    if id in v.facilities && v.clock <= at && v.facilities[id].lastAccrualAt <= at {
      var l := v.facilities[id].Accrued(at);
      AccrualKeepsSolvent(v.facilities[id], at);
      AccruedUpTo(v.facilities[id], at);
      var accrued := WithFacility(v.(clock := at), id, l);
      ReserveStaysSolvent(accrued, id, at, ReserveToUse(v, id, l));
      RemovalStaysSolvent(PayFromReserve(accrued, id, at, ReserveToUse(v, id, l)).0, id);
    }
  }

  lemma ReserveStaysSolvent(v: Vault, id: string, at: int, used: int)
    requires AllSolvent(v) && id in v.facilities && v.facilities[id].lastAccrualAt <= at
    ensures AllSolvent(PayFromReserve(v, id, at, used).0)
  {
    hide Repay, Get, Ledger.Solvent;
    PaymentAccepted(v.facilities[id], at, used);
    if used > 0 {
      RepaymentReducesDebt(v.facilities[id], at, used);
    }
  }

  lemma RemovalStaysSolvent(v: Vault, id: string)
    requires AllSolvent(v) && id in v.facilities
    ensures AllSolvent(RemoveFromBook(v, id))
  {
  }

  /** What the identity needs of a vault, and every run keeps. */
  ghost predicate Kept(v: Vault) {
    AllSolvent(v) && v.impairmentBy.Keys <= v.facilities.Keys
  }

  lemma CallKeeps(v: Vault, op: Op)
    requires Kept(v) && SignsChecked(op)
    ensures Kept(Apply(v, op))
  {
    hide AllSolvent;
    CallKeepsIds(v, op);
    hide Deposit, Withdraw, Draw, Settle, WriteOff, Impair, AccrueFacility, SetFacilityRate, ChargeFacilityFee;
    hide StartLeg;
    hide DestinationReceipt, Get;
    match op
    case Opening(id, rateBps, capitalize, at) => OpeningStaysSolvent(v, id, rateBps, capitalize, at);
    case Drawing(id, at, amount) => FacilityCallStaysSolvent(v, id, at, amount);
    case Repaying(id, at, amount, thirdParty) =>
      SettleStaysSolvent(v, id, at, amount, if thirdParty then amount else 0);
    case Recovering(id, at, amount) => SettleStaysSolvent(v, id, at, amount, amount);
    case Impairing(id, amount) => ImpairingStaysSolvent(v, id, amount);
    case WritingOff(id, at) => WriteOffStaysSolvent(v, id, at);
    case Accruing(id, at) => FacilityCallStaysSolvent(v, id, at, 0);
    case ChangingRate(id, at, rateBps) => FacilityCallStaysSolvent(v, id, at, rateBps);
    case Charging(id, at, amount) => FacilityCallStaysSolvent(v, id, at, amount);
    case _ => CashCallTouchesNoFacility(v, op); CashIsNotRead(v, Apply(v, op));
  }

  lemma OpeningStaysSolvent(v: Vault, id: string, rateBps: int, capitalize: bool, at: int)
    requires AllSolvent(v) && rateBps >= 0
    ensures AllSolvent(OpenFacility(v, id, rateBps, capitalize, at))
  {
  }

  lemma ImpairingStaysSolvent(v: Vault, id: string, amount: int)
    requires AllSolvent(v)
    ensures AllSolvent(Impair(v, id, amount).0)
  {
  }

  ghost predicate IdsKept(v: Vault, v': Vault) {
    v'.impairmentBy.Keys <= v.impairmentBy.Keys && v.facilities.Keys <= v'.facilities.Keys
  }

  lemma CallKeepsIds(v: Vault, op: Op)
    requires v.impairmentBy.Keys <= v.facilities.Keys
    ensures Apply(v, op).impairmentBy.Keys <= Apply(v, op).facilities.Keys
  {
    hide Deposit, Withdraw, Draw, Settle, WriteOff, Impair, AccrueFacility, SetFacilityRate, ChargeFacilityFee;
    hide StartLeg;
    hide DestinationReceipt, Get, Opened;
    match op
    case Opening(_, _, _, _) =>
    case Drawing(id, at, amount) => DrawKeepsIds(v, id, at, amount);
    case Repaying(id, at, amount, thirdParty) => SettleKeepsIds(v, id, at, amount, if thirdParty then amount else 0);
    case Recovering(id, at, amount) => SettleKeepsIds(v, id, at, amount, amount);
    case Impairing(id, amount) => ImpairKeepsIds(v, id, amount);
    case WritingOff(id, at) => WriteOffKeepsIds(v, id, at);
    case Accruing(id, at) => FacilityCallKeepsIds(v, id, at, 0);
    case ChangingRate(id, at, rateBps) => FacilityCallKeepsIds(v, id, at, rateBps);
    case Charging(id, at, amount) => FacilityCallKeepsIds(v, id, at, amount);
    case _ => CashCallTouchesNoFacility(v, op);
  }

  lemma DrawKeepsIds(v: Vault, id: string, at: int, amount: int)
    ensures IdsKept(v, Draw(v, id, at, amount).0)
  {
    hide Borrow;
  }

  lemma SettleKeepsIds(v: Vault, id: string, at: int, amount: int, booked: int)
    ensures IdsKept(v, Settle(v, id, at, amount, booked).0)
  {
    if id in v.facilities && v.clock <= at {
      SettleShape(v, id, at, amount, booked);
      hide Settle, Repay;
    } else {
      SettleRefused(v, id, at, amount, booked);
      hide Settle;
    }
  }

  /** A payment that gets as far as the facility: cash booked, the facility paid, the excess set aside. */
  lemma SettleShape(v: Vault, id: string, at: int, amount: int, booked: int)
    requires id in v.facilities && v.clock <= at
    ensures var (v', r) := Settle(v, id, at, amount, booked);
      var (l, paid) := Repay(v.facilities[id], at, amount);
      var held := v.(clock := at, cash := v.cash + booked);
      && r == paid
      && v' == if r.Err? then held
               else WithFacility(held, id, l).(cash := held.cash - r.value.excess,
                                               borrowerRefundable := v'.borrowerRefundable)
  {
    hide Repay, Get;
  }

  lemma ImpairKeepsIds(v: Vault, id: string, amount: int)
    requires v.impairmentBy.Keys <= v.facilities.Keys
    ensures Impair(v, id, amount).0.impairmentBy.Keys <= Impair(v, id, amount).0.facilities.Keys
  {
    hide Get, Ledger.Unpaid;
  }

  lemma FacilityCallKeepsIds(v: Vault, id: string, at: int, amount: int)
    ensures IdsKept(v, AccrueFacility(v, id, at)) && IdsKept(v, SetFacilityRate(v, id, at, amount))
    ensures IdsKept(v, ChargeFacilityFee(v, id, at, amount))
  {
    hide Accrue, SetRate, ChargeFee;
  }

  lemma WriteOffKeepsIds(v: Vault, id: string, at: int)
    ensures IdsKept(v, WriteOff(v, id, at).0)
  {
    hide PayFromReserve, Ledger.Accrued, ReserveToUse, MarkWrittenOff;
    if id in v.facilities && v.clock <= at && v.facilities[id].lastAccrualAt <= at {
      var l := v.facilities[id].Accrued(at);
      ReserveKeepsIds(WithFacility(v.(clock := at), id, l), id, at, ReserveToUse(v, id, l));
    }
  }

  lemma ReserveKeepsIds(v: Vault, id: string, at: int, used: int)
    requires id in v.facilities
    ensures IdsKept(v, PayFromReserve(v, id, at, used).0)
  {
    hide Repay, Get;
  }

  // ---- NAV, call by call

  lemma TickMovesInterestOnly(v: Vault, at: int)
    ensures Nav(v.(clock := at)) == Nav(v) + InterestOf(v.(clock := at)) - InterestOf(v)
  {
    assert ImpairmentOn(v.(clock := at)) == ImpairmentOn(v);
  }

  /** A call that touches neither facilities nor the clock is explained when its cash is. */
  lemma CashExplained(v: Vault, op: Op)
    requires Reread(v, op) == v && FeesAndRecoveries(v, op) == 0 && Lost(v, op) == 0
    requires var v' := Apply(v, op);
      && v'.facilities == v.facilities && v'.impairmentBy == v.impairmentBy && v'.clock == v.clock
      && v'.cash == v.cash + CashFlow(v, op)
    ensures Explained(v, op)
  {
    hide Nav, InterestOf, Apply, CashFlow, FeesAndRecoveries, Lost, Reread;
    SharesMoveNoNav(v, Apply(v, op));
  }

  lemma DepositExplained(v: Vault, lp: string, assets: int)
    ensures Explained(v, Depositing(lp, assets))
  {
    hide Explained, ToShares, Get;
    CashExplained(v, Depositing(lp, assets));
  }

  lemma WithdrawalExplained(v: Vault, lp: string, shares: int)
    ensures Explained(v, Withdrawing(lp, shares))
  {
    hide Explained, ToAssets;
    CashExplained(v, Withdrawing(lp, shares));
  }

  lemma CashCallExplained(v: Vault, op: Op)
    requires op.Donating? || op.Collecting? || op.StartingLeg? || op.Arriving? || op.Funding?
    ensures Explained(v, op)
  {
    hide Explained, Get;
    CashExplained(v, op);
  }

  lemma TickExplained(v: Vault, at: int)
    ensures Explained(v, Ticking(at))
  {
    hide Nav, InterestOf;
    TickMovesInterestOnly(v, at);
  }

  lemma DrawExplained(v: Vault, id: string, at: int, amount: int)
    requires Kept(v)
    ensures Explained(v, Drawing(id, at, amount))
  {
    hide Nav, InterestOf, Borrow, Ledger.Solvent, Ledger.UnpaidAt, Ledger.Unpaid;
    if id in v.facilities && amount <= v.cash && v.clock <= at {
      var l, ticked := v.facilities[id], v.(clock := at);
      TickMovesInterestOnly(v, at);
      AcceptedDraw(l, at, amount);
      if amount > 0 && l.lastAccrualAt <= at {
        var l' := Borrow(l, at, amount).0;
        DrawnWorth(l, at, amount);
        NavAfterFacility(ticked, id, l');
        SameImpairment(ticked, id, l');
        SharesMoveNoNav(WithFacility(ticked, id, l'), Draw(v, id, at, amount).0);
      }
    }
  }

  lemma DrawnWorth(l: Ledger, at: int, amount: int)
    requires l.Solvent() && l.lastAccrualAt <= at && amount > 0
    ensures var l' := Borrow(l, at, amount).0;
      l'.impaired == l.impaired && Worth(l', at) == if l.impaired then 0 else Worth(l, at) + amount
  {
    BorrowKeeps(l, at, amount);
  }

  lemma SameImpairment(v: Vault, id: string, l: Ledger)
    requires id in v.facilities && l.impaired == v.facilities[id].impaired
    ensures ImpairmentOf(WithFacility(v, id, l), id) == ImpairmentOf(v, id)
  {
  }

  lemma SettleExplained(v: Vault, id: string, at: int, amount: int, booked: int)
    requires Kept(v)
    ensures var (v', r) := Settle(v, id, at, amount, booked);
      var ticked := if id in v.facilities then Tick(v, at).0 else v;
      Nav(v') == Nav(v) + InterestOf(ticked) - InterestOf(v) + Collected(v, id, r)
        + (if r.Ok? then booked - amount
           else if id in v.facilities && v.clock <= at then booked else 0)
  {
    hide Nav, InterestOf, Settle, Collected;
    if id in v.facilities && v.clock <= at {
      TickMovesInterestOnly(v, at);
      SharesMoveNoNav(v.(clock := at), v.(clock := at, cash := v.cash + booked));
      if amount > 0 && v.facilities[id].lastAccrualAt <= at {
        SettledNav(v, id, at, amount, booked);
      } else {
        RefusedNav(v, id, at, amount, booked);
      }
    } else {
      SettleRefused(v, id, at, amount, booked);
    }
  }

  lemma RefusedNav(v: Vault, id: string, at: int, amount: int, booked: int)
    requires id in v.facilities && v.clock <= at && !(amount > 0 && v.facilities[id].lastAccrualAt <= at)
    ensures var (v', r) := Settle(v, id, at, amount, booked);
      r.Err? && v' == v.(clock := at, cash := v.cash + booked) && Collected(v, id, r) == 0
  {
    hide Repay, Settle;
    SettleShape(v, id, at, amount, booked);
    PaymentAccepted(v.facilities[id], at, amount);
  }

  lemma SettledNav(v: Vault, id: string, at: int, amount: int, booked: int)
    requires Kept(v) && id in v.facilities && v.clock <= at && amount > 0 && v.facilities[id].lastAccrualAt <= at
    ensures var (v', r) := Settle(v, id, at, amount, booked);
      && r.Ok?
      && Nav(v') == Nav(v.(clock := at, cash := v.cash + booked)) + Collected(v, id, r) - amount
  {
    hide Nav, Repay, Settle, Ledger.Solvent, Ledger.UnpaidAt, Ledger.Unpaid;
    var l, held := v.facilities[id], v.(clock := at, cash := v.cash + booked);
    var (l', r) := Repay(l, at, amount);
    SettleShape(v, id, at, amount, booked);
    PaidWorth(l, at, amount);
    NavAfterFacility(held, id, l');
    SameImpairment(held, id, l');
    SharesMoveNoNav(WithFacility(held, id, l'), Settle(v, id, at, amount, booked).0);
  }

  lemma PaidWorth(l: Ledger, at: int, amount: int)
    requires l.Solvent() && l.lastAccrualAt <= at && amount > 0
    ensures var (l', r) := Repay(l, at, amount);
      && r.Ok? && l'.impaired == l.impaired
      && Worth(l', at) == (if l.impaired then 0 else Worth(l, at) - r.value.principal - r.value.interest)
      && r.value.fees + r.value.interest + r.value.principal + r.value.excess == amount
  {
    hide UnitsIn, AccumOf, Waterfall;
    RepaymentReducesDebt(l, at, amount);
    AcceptedRepayment(l, at, amount);
  }

  lemma PaymentExplained(v: Vault, op: Op)
    requires Kept(v) && (op.Repaying? || op.Recovering?)
    ensures Explained(v, op)
  {
    hide Nav, InterestOf, Settle, Get;
    var booked := if op.Recovering? || op.thirdParty then op.amount else 0;
    SettleExplained(v, op.id, op.at, op.amount, booked);
    if op.id in v.facilities && v.clock <= op.at {
      SettleAccepted(v, op.id, op.at, op.amount, booked);
    } else {
      SettleRefused(v, op.id, op.at, op.amount, booked);
    }
  }

  lemma SettleAccepted(v: Vault, id: string, at: int, amount: int, booked: int)
    requires id in v.facilities && v.clock <= at
    ensures Settle(v, id, at, amount, booked).1.Ok? <==> amount > 0 && v.facilities[id].lastAccrualAt <= at
  {
    hide Repay, Get;
    PaymentAccepted(v.facilities[id], at, amount);
  }

  lemma SettleRefused(v: Vault, id: string, at: int, amount: int, booked: int)
    requires id !in v.facilities || at < v.clock
    ensures Settle(v, id, at, amount, booked).1.Err? && Settle(v, id, at, amount, booked).0 == v
    ensures Collected(v, id, Settle(v, id, at, amount, booked).1) == 0
  {
    hide Repay, Get;
  }

  lemma WriteOffExplained(v: Vault, id: string, at: int)
    requires Kept(v) && Regular(v, WritingOff(id, at))
    ensures Explained(v, WritingOff(id, at))
  {
    hide Nav, InterestOf, Ledger.Solvent, PayFromReserve, RemoveFromBook, Waterfall, Get;
    if id in v.facilities && v.clock <= at {
      TickMovesInterestOnly(v, at);
      if v.facilities[id].lastAccrualAt <= at {
        hide WriteOff;
        if v.facilities[id].impaired {
          SecondWriteOff(v, id, at);
        } else {
          WriteOffSettlesTheBook(v, id, at);
        }
      }
    }
  }

  /** A facility written off already: what the reserve pays is all that moves the NAV. */
  lemma SecondWriteOff(v: Vault, id: string, at: int)
    requires Kept(v) && id in v.facilities && v.facilities[id].impaired && v.clock <= at
    requires v.facilities[id].lastAccrualAt <= at && Get(v.borrowerReserve, id) >= 0
    ensures var (v', r) := WriteOff(v, id, at); r.Ok? && Nav(v') == Nav(v.(clock := at)) + r.value.reserveUsed
  {
    hide Nav, Ledger.Solvent, PayFromReserve, RemoveFromBook, ReserveToUse, Ledger.Accrued;
    var l, ticked := v.facilities[id].Accrued(at), v.(clock := at);
    AccrualKeepsSolvent(v.facilities[id], at);
    AccruedUpTo(v.facilities[id], at);
    assert l.impaired by { AccruedMarks(v.facilities[id], at); }
    var w := WithFacility(ticked, id, l);
    OffTheBook(ticked, id, l);
    ReserveOnImpaired(w, id, at, ReserveToUse(v, id, l)) by { ReserveBounds(v, id, l); }
    Removed(PayFromReserve(w, id, at, ReserveToUse(v, id, l)).0, id);
  }

  lemma AccruedMarks(l: Ledger, at: int)
    ensures l.Accrued(at).impaired == l.impaired
  {
  }

  lemma ReserveBounds(v: Vault, id: string, l: Ledger)
    requires l.Solvent() && Get(v.borrowerReserve, id) >= 0
    ensures 0 <= ReserveToUse(v, id, l) <= Get(v.borrowerReserve, id)
  {
  }

  /** A facility off the book can be swapped for another without moving the NAV. */
  lemma OffTheBook(v: Vault, id: string, l: Ledger)
    requires id in v.facilities && v.facilities[id].impaired && l.impaired
    ensures Nav(WithFacility(v, id, l)) == Nav(v)
  {
    hide Nav;
    NavAfterFacility(v, id, l);
    SameImpairment(v, id, l);
  }

  lemma ReserveOnImpaired(v: Vault, id: string, at: int, used: int)
    requires id in v.facilities && v.facilities[id].impaired && v.facilities[id].lastAccrualAt <= at
    requires 0 <= used <= Get(v.borrowerReserve, id)
    ensures var (v', r) := PayFromReserve(v, id, at, used);
      r.Ok? && v'.facilities[id].impaired && Nav(v') == Nav(v) + used
  {
    hide Nav, Repay;
    var (v', r) := PayFromReserve(v, id, at, used);
    PaymentAccepted(v.facilities[id], at, used);
    AcceptedRepayment(v.facilities[id], at, used);
    if used > 0 {
      var paid := Repay(v.facilities[id], at, used).0;
      OffTheBook(v, id, paid);
      SharesMoveNoNav(WithFacility(v, id, paid), v');
    }
  }

  lemma Removed(v: Vault, id: string)
    requires id in v.facilities && v.facilities[id].impaired
    ensures Nav(RemoveFromBook(v, id)) == Nav(v)
  {
    hide Nav;
    OffTheBook(v, id, MarkWrittenOff(v.facilities[id]));
    ImpairmentReleased(WithFacility(v, id, MarkWrittenOff(v.facilities[id])), id);
  }

  lemma ImpairExplained(v: Vault, id: string, amount: int)
    ensures Explained(v, Impairing(id, amount))
  {
    hide Nav, InterestOf;
    if Impair(v, id, amount).1.Ok? {
      if v.facilities[id].impaired {
        ImpairmentOfTheWrittenOff(v, id, Get(v.impairmentBy, id) + amount);
      } else {
        ImpairmentLowersNavOnly(v, id, amount);
      }
    }
  }

  lemma ImpairmentOfTheWrittenOff(v: Vault, id: string, amount: int)
    requires id in v.facilities && v.facilities[id].impaired
    ensures Nav(v.(impairmentBy := v.impairmentBy[id := amount])) == Nav(v)
  {
    var v' := v.(impairmentBy := v.impairmentBy[id := amount]);
    assert ImpairmentOn(v') == ImpairmentOn(v)[id := 0];
    SumUpdate(ImpairmentOn(v), id, 0);
  }

  lemma FacilityCallExplained(v: Vault, op: Op)
    requires Kept(v) && (op.Accruing? || op.ChangingRate? || op.Charging?)
    ensures Explained(v, op)
  {
    hide Nav, InterestOf, Accrue, SetRate, ChargeFee;
    if op.id in v.facilities {
      var l, l' := v.facilities[op.id], Apply(v, op).facilities[op.id];
      SamePrincipal(l, op);
      RereadFacility(v, op.id, l');
    }
  }

  lemma SamePrincipal(l: Ledger, op: Op)
    requires op.Accruing? || op.ChangingRate? || op.Charging?
    ensures var l' := match op
      case Accruing(_, at) => Accrue(l, at).0
      case ChangingRate(_, at, rateBps) => SetRate(l, at, rateBps).0
      case Charging(_, at, amount) => ChargeFee(l, at, amount).0;
      l'.principal == l.principal && l'.impaired == l.impaired
  {
  }

  /** A facility whose principal stays moves the NAV by what its interest reads. */
  lemma RereadFacility(v: Vault, id: string, l: Ledger)
    requires id in v.facilities && l.principal == v.facilities[id].principal && l.impaired == v.facilities[id].impaired
    ensures Nav(WithFacility(v, id, l)) == Nav(v) + InterestOf(WithFacility(v, id, l)) - InterestOf(v)
  {
    hide Sum, Ledger.UnpaidAt;
    NavAfterFacility(v, id, l);
    SameImpairment(v, id, l);
    InterestAfterFacility(v, id, l);
  }

  lemma OpeningExplained(v: Vault, id: string, rateBps: int, capitalize: bool, at: int)
    requires Kept(v)
    ensures Explained(v, Opening(id, rateBps, capitalize, at))
  {
    hide Nav, InterestOf, AllSolvent;
    var l := Opened(rateBps, capitalize, at);
    NavAfterFacility(v, id, l);
    if at <= v.clock {
      NothingOnNothing(l.segments, at, v.clock);
    }
  }

  /** Every call moves the NAV by its cash, interest, fees and recoveries, less its losses. */
  lemma CallExplained(v: Vault, op: Op)
    requires Kept(v) && Regular(v, op)
    ensures Explained(v, op)
  {
    hide Explained, Kept, Get;
    match op
    case Depositing(lp, assets) => DepositExplained(v, lp, assets);
    case Withdrawing(lp, shares) => WithdrawalExplained(v, lp, shares);
    case Ticking(at) => TickExplained(v, at);
    case Opening(id, rateBps, capitalize, at) => OpeningExplained(v, id, rateBps, capitalize, at);
    case Drawing(id, at, amount) => DrawExplained(v, id, at, amount);
    case Repaying(_, _, _, _) => PaymentExplained(v, op);
    case Recovering(_, _, _) => PaymentExplained(v, op);
    case Impairing(id, amount) => ImpairExplained(v, id, amount);
    case WritingOff(id, at) => WriteOffExplained(v, id, at);
    case Accruing(_, _) => FacilityCallExplained(v, op);
    case ChangingRate(_, _, _) => FacilityCallExplained(v, op);
    case Charging(_, _, _) => FacilityCallExplained(v, op);
    case _ => CashCallExplained(v, op);
  }

  // ---- runs

  ghost function TotalCashFlow(v: Vault, ops: seq<Op>): int {
    if ops == [] then 0
    else TotalCashFlow(v, ops[..|ops| - 1]) + CashFlow(Run(v, ops[..|ops| - 1]), ops[|ops| - 1])
  }

  ghost function TotalEarned(v: Vault, ops: seq<Op>): int {
    if ops == [] then 0
    else TotalEarned(v, ops[..|ops| - 1]) + Earned(Run(v, ops[..|ops| - 1]), ops[|ops| - 1])
  }

  ghost function TotalCollected(v: Vault, ops: seq<Op>): int {
    if ops == [] then 0
    else TotalCollected(v, ops[..|ops| - 1]) + FeesAndRecoveries(Run(v, ops[..|ops| - 1]), ops[|ops| - 1])
  }

  ghost function TotalLost(v: Vault, ops: seq<Op>): int {
    if ops == [] then 0
    else TotalLost(v, ops[..|ops| - 1]) + Lost(Run(v, ops[..|ops| - 1]), ops[|ops| - 1])
  }

  /** Over every run, losses included, the NAV is what it was plus cash flows, interest earned, fees and recoveries,
      less impairments and write-offs. */
  lemma {:induction false} NavIsExplained(v: Vault, ops: seq<Op>)
    requires Kept(v) && forall i :: 0 <= i < |ops| ==> SignsChecked(ops[i]) && Regular(Run(v, ops[..i]), ops[i])
    ensures Kept(Run(v, ops))
    ensures Nav(Run(v, ops))
         == Nav(v) + TotalCashFlow(v, ops) + TotalEarned(v, ops) + TotalCollected(v, ops) - TotalLost(v, ops)
  {
    hide Kept, Apply, Nav, CashFlow, Earned, FeesAndRecoveries, Lost, Regular;
    if ops != [] {
      var n := |ops| - 1;
      var prior := ops[..n];
      assert forall i :: 0 <= i < n ==> prior[..i] == ops[..i];
      NavIsExplained(v, prior);
      CallKeeps(Run(v, prior), ops[n]);
      CallExplained(Run(v, prior), ops[n]);
    }
  }
}
