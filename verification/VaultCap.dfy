/** The cap on impairment, which the source checks when impairing and at no other time: exactly which calls keep it. */
module VaultCap {
  import opened Results
  import opened MapSums
  import opened Facility
  import opened Vault
  import opened VaultRuns
  import opened VaultLosses
  import opened VaultShares

  /** What the book shows for a facility, as `impair` reads it. */
  function Exposure(l: Ledger): int {
    l.principal + l.Unpaid()
  }

  /** Every impairment is of a facility in the book, and within its exposure. */
  ghost predicate Capped(v: Vault) {
    forall id :: id in v.impairmentBy ==> id in v.facilities && v.impairmentBy[id] <= Exposure(v.facilities[id])
  }

  ghost predicate AllSolvent(v: Vault) {
    forall id :: id in v.facilities ==> v.facilities[id].Solvent()
  }

  /** The signs callers are to keep. */
  predicate SignsChecked(op: Op) {
    match op
    case Opening(_, rateBps, _, _) => rateBps >= 0
    case ChangingRate(_, _, rateBps) => rateBps >= 0
    case Charging(_, _, amount) => amount >= 0
    case _ => true
  }

  /** A payment that is refused, or no more than the fees owed and the exposure not impaired, or into a facility that
      nothing is impaired on. */
  predicate PaymentWithinCap(v: Vault, id: string, at: int, amount: int) {
    id in v.facilities && v.clock <= at && amount > 0 && v.facilities[id].lastAccrualAt <= at ==>
      var l := v.facilities[id];
      var impairment := Get(v.impairmentBy, id);
      impairment <= 0 || amount <= l.fees + l.principal + l.UnpaidAt(at) - impairment
  }

  /** What a caller has to check: payments, and opening a facility over one that is impaired. */
  predicate KeepsCap(v: Vault, op: Op) {
    match op
    case Repaying(id, at, amount, _) => PaymentWithinCap(v, id, at, amount)
    case Recovering(id, at, amount) => PaymentWithinCap(v, id, at, amount)
    case Opening(id, _, _, _) => Get(v.impairmentBy, id) <= 0
    case _ => true
  }

  // ---- one facility

  lemma ExposureAfterPayment(l: Ledger, at: int, amount: int, impairment: int)
    requires l.Solvent() && l.lastAccrualAt <= at && amount > 0
    requires impairment <= Exposure(l)
    ensures var l' := Repay(l, at, amount).0;
      && l'.Solvent()
      && (impairment <= Exposure(l')
          <==> impairment <= 0 || amount <= l.fees + l.principal + l.UnpaidAt(at) - impairment)
  {
    hide UnitsIn, AccumOf, Waterfall;
    AccrualKeepsSolvent(l, at);
    RepaymentReducesDebt(l, at, amount);
  }

  /** No other facility call shows less than before. */
  lemma ExposureGrows(l: Ledger, at: int, amount: int)
    requires l.Solvent()
    ensures Exposure(l) <= Exposure(Accrue(l, at).0)
    ensures Exposure(l) <= Exposure(Borrow(l, at, amount).0)
    ensures Exposure(l) <= Exposure(SetRate(l, at, amount).0)
    ensures Exposure(l) <= Exposure(ChargeFee(l, at, amount).0)
    ensures Accrue(l, at).0.Solvent() && Borrow(l, at, amount).0.Solvent()
    ensures amount >= 0 ==> SetRate(l, at, amount).0.Solvent() && ChargeFee(l, at, amount).0.Solvent()
  {
    hide UnitsIn, AccumOf;
    if l.lastAccrualAt <= at {
      AccrualKeepsSolvent(l, at);
      if amount >= 0 {
        SetRateKeeps(l, at, amount);
      }
      if amount > 0 {
        BorrowKeeps(l, at, amount);
      }
    }
  }

  lemma OneFacilityChanges(v: Vault, v': Vault, id: string, l: Ledger)
    requires Capped(v) && AllSolvent(v) && l.Solvent()
    requires v'.facilities == v.facilities[id := l] && v'.impairmentBy == v.impairmentBy
    ensures AllSolvent(v')
    ensures Capped(v') <==> Get(v.impairmentBy, id) <= Exposure(l)
  {
    hide Ledger.Solvent, Ledger.Unpaid;
    assert 0 <= Exposure(l) by { SolventExposure(l); }
  }

  lemma SolventExposure(l: Ledger)
    requires l.Solvent()
    ensures 0 <= Exposure(l)
  {
  }

  /** The cap reads facilities and impairments only. */
  lemma CashIsNotRead(v: Vault, v': Vault)
    requires v'.facilities == v.facilities && v'.impairmentBy == v.impairmentBy
    ensures Capped(v') <==> Capped(v)
    ensures AllSolvent(v') <==> AllSolvent(v)
  {
  }

  // ---- one call

  lemma SettleKeepsCap(v: Vault, id: string, at: int, amount: int, booked: int)
    requires Capped(v) && AllSolvent(v)
    ensures var v' := Settle(v, id, at, amount, booked).0;
      AllSolvent(v') && (Capped(v') <==> PaymentWithinCap(v, id, at, amount))
  {
    hide Repay, Capped, AllSolvent, Exposure, Get, Ledger.Solvent, Ledger.UnpaidAt;
    var v' := Settle(v, id, at, amount, booked).0;
    if id in v.facilities && v.clock <= at {
      var l := v.facilities[id];
      CapOf(v, id);
      PaymentAccepted(l, at, amount);
      if amount > 0 && l.lastAccrualAt <= at {
        ExposureAfterPayment(l, at, amount, Get(v.impairmentBy, id));
        OneFacilityChanges(v, v', id, Repay(l, at, amount).0);
      } else {
        CashIsNotRead(v, v');
      }
    }
  }

  lemma PaymentAccepted(l: Ledger, at: int, amount: int)
    ensures Repay(l, at, amount).1.Ok? <==> amount > 0 && l.lastAccrualAt <= at
  {
    hide Waterfall, Pay;
  }

  lemma CapOf(v: Vault, id: string)
    requires Capped(v) && AllSolvent(v) && id in v.facilities
    ensures v.facilities[id].Solvent() && Get(v.impairmentBy, id) <= Exposure(v.facilities[id])
  {
  }

  lemma DrawKeepsCap(v: Vault, id: string, at: int, amount: int)
    requires Capped(v) && AllSolvent(v)
    ensures Capped(Draw(v, id, at, amount).0) && AllSolvent(Draw(v, id, at, amount).0)
  {
    hide Borrow, Capped, AllSolvent, Exposure;
    var v' := Draw(v, id, at, amount).0;
    if id in v.facilities && v'.facilities != v.facilities {
      CapOf(v, id);
      ExposureGrows(v.facilities[id], at, amount);
      OneFacilityChanges(v, v', id, Borrow(v.facilities[id], at, amount).0);
    } else {
      CashIsNotRead(v, v');
    }
  }

  lemma AccrualKeepsCap(v: Vault, id: string, at: int)
    requires Capped(v) && AllSolvent(v)
    ensures Capped(AccrueFacility(v, id, at)) && AllSolvent(AccrueFacility(v, id, at))
  {
    hide Accrue, Capped, AllSolvent, Exposure;
    if id in v.facilities {
      CapOf(v, id);
      ExposureGrows(v.facilities[id], at, 0);
      OneFacilityChanges(v, AccrueFacility(v, id, at), id, Accrue(v.facilities[id], at).0);
    }
  }

  lemma RateAndFeeKeepCap(v: Vault, id: string, at: int, amount: int)
    requires Capped(v) && AllSolvent(v) && amount >= 0
    ensures Capped(SetFacilityRate(v, id, at, amount)) && AllSolvent(SetFacilityRate(v, id, at, amount))
    ensures Capped(ChargeFacilityFee(v, id, at, amount)) && AllSolvent(ChargeFacilityFee(v, id, at, amount))
  {
    hide SetRate, ChargeFee, Capped, AllSolvent, Exposure;
    if id in v.facilities {
      var l := v.facilities[id];
      CapOf(v, id);
      ExposureGrows(l, at, amount);
      OneFacilityChanges(v, SetFacilityRate(v, id, at, amount), id, SetRate(l, at, amount).0);
      OneFacilityChanges(v, ChargeFacilityFee(v, id, at, amount), id, ChargeFee(l, at, amount).0);
    }
  }

  lemma ImpairKeepsCap(v: Vault, id: string, amount: int)
    requires Capped(v) && AllSolvent(v)
    ensures Capped(Impair(v, id, amount).0) && AllSolvent(Impair(v, id, amount).0)
  {
    hide Ledger.Solvent, Ledger.Unpaid;
  }

  /** A write-off takes the impairment with it; one that raises leaves the debt no lower than it was. */
  lemma WriteOffKeepsCap(v: Vault, id: string, at: int)
    requires Capped(v) && AllSolvent(v)
    ensures Capped(WriteOff(v, id, at).0) && AllSolvent(WriteOff(v, id, at).0)
  {
    hide Capped, AllSolvent, Exposure, PayFromReserve, ReserveToUse, Ledger.Accrued, RemoveFromBook;
    if id in v.facilities && v.clock <= at && v.facilities[id].lastAccrualAt <= at {
      var l := v.facilities[id].Accrued(at);
      var ticked := v.(clock := at);
      CapOf(v, id);
      CashIsNotRead(v, ticked);
      ExposureGrows(v.facilities[id], at, 0);
      OneFacilityChanges(ticked, WithFacility(ticked, id, l), id, l) by { assert Accrue(v.facilities[id], at).0 == l; }
      assert l.lastAccrualAt == at by { AccruedUpTo(v.facilities[id], at); }
      ReserveKeepsOthers(WithFacility(ticked, id, l), id, at, ReserveToUse(v, id, l));
      var v' := PayFromReserve(WithFacility(ticked, id, l), id, at, ReserveToUse(v, id, l)).0;
      RemovalKeepsOthers(v', id);
    } else {
      CashIsNotRead(v, WriteOff(v, id, at).0);
    }
  }

  lemma AccruedUpTo(l: Ledger, at: int)
    ensures l.Accrued(at).lastAccrualAt == at
  {
  }

  /** Capped but for one facility. */
  ghost predicate OthersCapped(v: Vault, id: string) {
    id in v.facilities
    && forall i :: i in v.impairmentBy && i != id ==>
      i in v.facilities && v.impairmentBy[i] <= Exposure(v.facilities[i])
  }

  lemma ReserveKeepsOthers(v: Vault, id: string, at: int, used: int)
    requires Capped(v) && AllSolvent(v) && id in v.facilities && v.facilities[id].lastAccrualAt <= at
    ensures var (v', r) := PayFromReserve(v, id, at, used);
      OthersCapped(v', id) && AllSolvent(v') && (r.Err? ==> Capped(v'))
  {
    hide Repay, Exposure, Ledger.Solvent, Get;
    if used > 0 {
      RepaymentReducesDebt(v.facilities[id], at, used);
    }
    PaymentAccepted(v.facilities[id], at, used);
  }

  lemma RemovalKeepsOthers(v: Vault, id: string)
    requires OthersCapped(v, id) && AllSolvent(v)
    ensures Capped(RemoveFromBook(v, id)) && AllSolvent(RemoveFromBook(v, id))
  {
    hide Ledger.Unpaid;
  }

  /** A call keeps the cap exactly when its caller has checked the payment, or the id it opens. */
  lemma CallKeepsCap(v: Vault, op: Op)
    requires Capped(v) && AllSolvent(v) && SignsChecked(op)
    ensures AllSolvent(Apply(v, op))
    ensures Capped(Apply(v, op)) <==> KeepsCap(v, op)
  {
    hide Capped, AllSolvent, PaymentWithinCap;
    hide Deposit, Withdraw, Draw, Settle, WriteOff, Impair, AccrueFacility, SetFacilityRate, ChargeFacilityFee;
    hide StartLeg;
    hide DestinationReceipt, Get;
    match op
    case Opening(id, rateBps, capitalize, at) => OpeningKeepsCap(v, id, rateBps, capitalize, at);
    case Drawing(id, at, amount) => DrawKeepsCap(v, id, at, amount);
    case Repaying(id, at, amount, thirdParty) => SettleKeepsCap(v, id, at, amount, if thirdParty then amount else 0);
    case Recovering(id, at, amount) => SettleKeepsCap(v, id, at, amount, amount);
    case Impairing(id, amount) => ImpairKeepsCap(v, id, amount);
    case WritingOff(id, at) => WriteOffKeepsCap(v, id, at);
    case Accruing(id, at) => AccrualKeepsCap(v, id, at);
    case ChangingRate(id, at, rateBps) => RateAndFeeKeepCap(v, id, at, rateBps);
    case Charging(id, at, amount) => RateAndFeeKeepCap(v, id, at, amount);
    case _ => CashCallTouchesNoFacility(v, op); CashIsNotRead(v, Apply(v, op));
  }

  lemma OpeningKeepsCap(v: Vault, id: string, rateBps: int, capitalize: bool, at: int)
    requires Capped(v) && AllSolvent(v) && rateBps >= 0
    ensures var v' := OpenFacility(v, id, rateBps, capitalize, at);
      AllSolvent(v') && (Capped(v') <==> Get(v.impairmentBy, id) <= 0)
  {
    hide Capped, AllSolvent;
    var l := Opened(rateBps, capitalize, at);
    assert l.Solvent() && Exposure(l) == 0;
    OneFacilityChanges(v, OpenFacility(v, id, rateBps, capitalize, at), id, l);
  }

  lemma CashCallTouchesNoFacility(v: Vault, op: Op)
    requires op.Depositing? || op.Withdrawing? || op.Donating? || op.Ticking? || op.Collecting? || op.StartingLeg?
      || op.Arriving? || op.Funding?
    ensures Apply(v, op).facilities == v.facilities && Apply(v, op).impairmentBy == v.impairmentBy
  {
    hide ToShares, ToAssets, Get;
  }

  // ---- runs

  lemma FreshIsCapped(virtualShares: int, virtualAssets: int)
    ensures Capped(Fresh(virtualShares, virtualAssets)) && AllSolvent(Fresh(virtualShares, virtualAssets))
  {
  }

  ghost predicate CappedThroughout(v: Vault, ops: seq<Op>) {
    forall i :: 0 <= i <= |ops| ==> Capped(Run(v, ops[..i]))
  }

  ghost predicate CheckedThroughout(v: Vault, ops: seq<Op>) {
    forall i :: 0 <= i < |ops| ==> KeepsCap(Run(v, ops[..i]), ops[i])
  }

  lemma ThroughoutSplits(v: Vault, ops: seq<Op>)
    requires ops != []
    ensures var prior := ops[..|ops| - 1];
      && (CappedThroughout(v, ops) <==> CappedThroughout(v, prior) && Capped(Run(v, ops)))
      && (CheckedThroughout(v, ops) <==> CheckedThroughout(v, prior) && KeepsCap(Run(v, prior), ops[|ops| - 1]))
  {
    hide Capped, KeepsCap, Run;
    var prior := ops[..|ops| - 1];
    assert ops[..|ops|] == ops && prior[..|prior|] == prior;
    assert forall i :: 0 <= i <= |prior| ==> prior[..i] == ops[..i];
  }

  lemma {:induction false} SolventWhileCapped(v: Vault, ops: seq<Op>)
    requires AllSolvent(v) && CappedThroughout(v, ops) && forall i :: 0 <= i < |ops| ==> SignsChecked(ops[i])
    ensures AllSolvent(Run(v, ops)) && Capped(Run(v, ops))
  {
    hide Capped, AllSolvent, Apply, CappedThroughout;
    if ops != [] {
      ThroughoutSplits(v, ops);
      SolventWhileCapped(v, ops[..|ops| - 1]);
      CallKeepsCap(Run(v, ops[..|ops| - 1]), ops[|ops| - 1]);
    } else {
      assert ops[..0] == ops;
      assert Capped(Run(v, ops[..0])) by { CappedAtFirst(v, ops); }
    }
  }

  lemma CappedAtFirst(v: Vault, ops: seq<Op>)
    requires CappedThroughout(v, ops)
    ensures Capped(Run(v, ops[..0]))
  {
  }

  /** Over every run of calls with checked signs, the cap holds throughout exactly when every payment and every opening
      was checked against it. */
  lemma {:induction false} CapHoldsWhileChecked(v: Vault, ops: seq<Op>)
    requires Capped(v) && AllSolvent(v) && forall i :: 0 <= i < |ops| ==> SignsChecked(ops[i])
    ensures CappedThroughout(v, ops) <==> CheckedThroughout(v, ops)
  {
    hide Capped, AllSolvent, Apply, KeepsCap;
    if ops != [] {
      var prior := ops[..|ops| - 1];
      ThroughoutSplits(v, ops);
      CapHoldsWhileChecked(v, prior);
      if CappedThroughout(v, prior) {
        SolventWhileCapped(v, prior);
        CallKeepsCap(Run(v, prior), ops[|ops| - 1]);
      }
    }
  }

  /** So it does from an empty vault on. */
  lemma FreshVaultStaysCapped(virtualShares: int, virtualAssets: int, ops: seq<Op>)
    requires forall i :: 0 <= i < |ops| ==> SignsChecked(ops[i])
    ensures CappedThroughout(Fresh(virtualShares, virtualAssets), ops)
      <==> CheckedThroughout(Fresh(virtualShares, virtualAssets), ops)
  {
    FreshIsCapped(virtualShares, virtualAssets);
    CapHoldsWhileChecked(Fresh(virtualShares, virtualAssets), ops);
  }

  // ---- runs that break it

  lemma OneMore(v: Vault, ops: seq<Op>, op: Op)
    ensures Run(v, ops + [op]) == Apply(Run(v, ops), op)
  {
    hide Apply;
    assert (ops + [op])[..|ops|] == ops;
  }

  /** A facility that was opened without interest and has drawn once. */
  function Loan(amount: int): Ledger {
    Opened(0, false, 0).(principal := amount, history := [Borrowed(0, amount)])
  }

  /** What an LP's deposit looks like when all of it is lent, and all that is lent is impaired. */
  function LentAndImpaired(lp: string, id: string, amount: int): Vault {
    var shares := amount * 1000;
    Fresh(1000, 1).(totalShares := shares, sharesOf := map[lp := shares], facilities := map[id := Loan(amount)],
                    impairmentBy := map[id := amount])
  }

  lemma AllDeposited(lp: string, amount: int)
    requires amount > 0
    ensures Deposit(Fresh(1000, 1), lp, amount).0
         == Fresh(1000, 1).(cash := amount, totalShares := amount * 1000, sharesOf := map[lp := amount * 1000])
  {
    hide Deposit, Nav;
    FreshIsLossFree(1000);
    FirstDeposit(Fresh(1000, 1), lp, amount);
  }

  lemma FirstDeposit(v: Vault, lp: string, amount: int)
    requires amount > 0 && Nav(v) == 0 && v.virtualAssets == 1 && v.virtualShares == 1000
    requires v.totalShares == 0 && v.sharesOf == map[]
    ensures Deposit(v, lp, amount).0
         == v.(cash := v.cash + amount, totalShares := amount * 1000, sharesOf := map[lp := amount * 1000])
  {
    hide Nav;
    assert ToShares(v, amount) == Ok(amount * 1000);
    assert v.sharesOf[lp := amount * 1000] == map[lp := amount * 1000];
  }

  lemma AllLent(v: Vault, id: string, amount: int)
    requires amount > 0 && v.cash == amount && v.clock == 0 && v.facilities == map[id := Opened(0, false, 0)]
    ensures Draw(v, id, 0, amount).0 == v.(cash := 0, facilities := map[id := Loan(amount)])
  {
    hide Borrow, Loan;
    LoanDrawn(amount);
    assert v.facilities[id := Loan(amount)] == map[id := Loan(amount)];
  }

  lemma LoanDrawn(amount: int)
    requires amount > 0
    ensures Borrow(Opened(0, false, 0), 0, amount) == (Loan(amount), Ok(()))
  {
    hide Borrow;
    FirstDraw(Opened(0, false, 0), 0, amount);
    var first: seq<Entry> := [] + [Borrowed(0, amount)];
    assert first == [Borrowed(0, amount)];
  }

  lemma FirstDraw(l: Ledger, at: int, amount: int)
    requires !l.capitalize && l.principal == 0 && l.lastAccrualAt == at && amount > 0
    ensures Borrow(l, at, amount) == (l.(principal := amount, history := l.history + [Borrowed(at, amount)]), Ok(()))
  {
    assert l.Accrued(at) == l && Capitalised(l) == 0;
  }

  lemma AllImpaired(v: Vault, id: string, amount: int)
    requires v.facilities == map[id := Loan(amount)] && v.impairmentBy == map[]
    ensures Impair(v, id, amount) == (v.(impairmentBy := map[id := amount]), Ok(()))
  {
    assert Loan(amount).Unpaid() == 0;
    assert v.impairmentBy[id := amount] == map[id := amount];
  }

  /** A run from an empty vault in which everything deposited is lent and everything lent is impaired. */
  lemma LendAndImpair(lp: string, id: string, amount: int)
    requires amount > 0
    ensures Run(Fresh(1000, 1),
      [Depositing(lp, amount), Opening(id, 0, false, 0), Drawing(id, 0, amount), Impairing(id, amount)])
         == LentAndImpaired(lp, id, amount)
  {
    hide Deposit, Draw, Impair, Run;
    var v0, deposit, open := Fresh(1000, 1), Depositing(lp, amount), Opening(id, 0, false, 0);
    var draw, impair := Drawing(id, 0, amount), Impairing(id, amount);
    NothingRun(v0);
    OneMore(v0, [], deposit);
    OneMore(v0, [] + [deposit], open);
    OneMore(v0, [] + [deposit] + [open], draw);
    OneMore(v0, [] + [deposit] + [open] + [draw], impair);
    assert [] + [deposit] + [open] + [draw] + [impair] == [deposit, open, draw, impair];
    AllDeposited(lp, amount);
    var v2 := Apply(Apply(v0, deposit), open);
    assert v2.facilities == map[id := Opened(0, false, 0)];
    AllLent(v2, id, amount);
    AllImpaired(v2.(cash := 0, facilities := map[id := Loan(amount)]), id, amount);
  }

  lemma NothingRun(v: Vault)
    ensures Run(v, []) == v
  {
  }

  lemma LoanRepaid(amount: int)
    requires amount > 0
    ensures var (l, r) := Repay(Loan(amount), 0, amount);
      && r == Ok(Alloc(0, 0, amount, 0)) && l.LegalDebt() == 0 && Exposure(l) == 0
      && !l.impaired && l.principal == 0 && l.UnpaidAt(0) == 0
  {
    var l := Loan(amount);
    assert l.Accrued(0) == l && l.Unpaid() == 0;
  }

  /** A loan impaired and then repaid: nothing is owed, all the cash is back, and the NAV is still short of all of
      it. */
  lemma RepaidImpairmentStands(lp: string, id: string, amount: int)
    requires amount > 0
    ensures var ops := [Depositing(lp, amount), Opening(id, 0, false, 0), Drawing(id, 0, amount),
      Impairing(id, amount)];
      var v := Run(Fresh(1000, 1), ops + [Repaying(id, 0, amount, true)]);
      && id in v.facilities && v.facilities[id].LegalDebt() == 0
      && v.cash == amount && Nav(v) == 0 && !Capped(v)
  {
    hide Run, Repay, Nav, Loan;
    var ops := [Depositing(lp, amount), Opening(id, 0, false, 0), Drawing(id, 0, amount), Impairing(id, amount)];
    LendAndImpair(lp, id, amount);
    OneMore(Fresh(1000, 1), ops, Repaying(id, 0, amount, true));
    LoanRepaid(amount);
    LoanStart(amount);
    var v := Apply(LentAndImpaired(lp, id, amount), Repaying(id, 0, amount, true));
    assert v.facilities == map[id := Repay(Loan(amount), 0, amount).0];
    OneFacilityNav(v, id);
  }

  lemma LoanStart(amount: int)
    ensures Loan(amount).lastAccrualAt == 0 && !Loan(amount).impaired
  {
  }

  /** A loan impaired and its id opened again: the impairment stands on a facility that owes nothing, and the NAV is
      negative. */
  lemma ReopenedImpairmentStands(lp: string, id: string, amount: int)
    requires amount > 0
    ensures var ops := [Depositing(lp, amount), Opening(id, 0, false, 0), Drawing(id, 0, amount),
      Impairing(id, amount)];
      var v := Run(Fresh(1000, 1), ops + [Opening(id, 0, false, 0)]);
      && id in v.facilities && v.facilities[id].LegalDebt() == 0 && Nav(v) == -amount && !Capped(v)
  {
    hide Run, Nav, Loan;
    var ops := [Depositing(lp, amount), Opening(id, 0, false, 0), Drawing(id, 0, amount), Impairing(id, amount)];
    LendAndImpair(lp, id, amount);
    OneMore(Fresh(1000, 1), ops, Opening(id, 0, false, 0));
    var v := Apply(LentAndImpaired(lp, id, amount), Opening(id, 0, false, 0));
    assert v.facilities == map[id := Opened(0, false, 0)];
    assert Opened(0, false, 0).UnpaidAt(0) == 0;
    OneFacilityNav(v, id);
  }
}
