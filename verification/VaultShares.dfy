/** Runs of the loss-free vault, and what the virtual offset guarantees to every shareholder. */
module VaultShares {
  import opened Results
  import opened FloorArithmetic
  import opened MapSums
  import opened Facility
  import opened Vault
  import opened VaultRuns
  import opened VaultPrice

  /** The shares issued are the shares held. */
  ghost predicate SharesBalance(v: Vault) {
    v.totalShares == Sum(v.sharesOf) && forall lp :: lp in v.sharesOf ==> v.sharesOf[lp] >= 0
  }

  lemma HoldingWithinTotal(v: Vault, lp: string)
    requires SharesBalance(v)
    ensures 0 <= Get(v.sharesOf, lp) <= v.totalShares
  {
    SumNonNegative(v.sharesOf);
  }

  lemma SharesStayBalanced(v: Vault, op: Op)
    requires SharesBalance(v)
    requires op.Withdrawing? ==> op.shares >= 0
    ensures SharesBalance(Apply(v, op))
  {
    hide Nav, Apply, ToShares, ToAssets, Sum;
    match op
    case Depositing(lp, assets) => DepositKeepsBalance(v, lp, assets);
    case Withdrawing(lp, shares) => WithdrawKeepsBalance(v, lp, shares);
    case _ => SharesUntouched(v, op);
  }

  lemma DepositKeepsBalance(v: Vault, lp: string, assets: int)
    requires SharesBalance(v)
    ensures Apply(v, Depositing(lp, assets)) == Deposit(v, lp, assets).0 && SharesBalance(Deposit(v, lp, assets).0)
  {
    hide Nav, ToShares, Sum;
    var r := Deposit(v, lp, assets).1;
    if r.Ok? {
      SumUpdate(v.sharesOf, lp, Get(v.sharesOf, lp) + r.value);
    }
  }

  /** A withdrawal by an unknown holder raises after the totals moved; with no shares asked for, they did not move. */
  lemma WithdrawKeepsBalance(v: Vault, lp: string, shares: int)
    requires SharesBalance(v) && shares >= 0
    ensures Apply(v, Withdrawing(lp, shares)) == Withdraw(v, lp, shares).0 && SharesBalance(Withdraw(v, lp, shares).0)
  {
    hide Nav, ToAssets, Sum;
    if lp in v.sharesOf {
      SumUpdate(v.sharesOf, lp, v.sharesOf[lp] - shares);
    }
  }

  ghost predicate SameShares(v: Vault, v': Vault) {
    v'.sharesOf == v.sharesOf && v'.totalShares == v.totalShares
  }

  lemma SharesUntouched(v: Vault, op: Op)
    requires !op.Depositing? && !op.Withdrawing?
    ensures SameShares(v, Apply(v, op))
  {
    hide Nav, Draw, Settle, WriteOff, Impair, AccrueFacility, SetFacilityRate, ChargeFacilityFee;
    match op
    case Drawing(id, at, amount) => DrawMovesNoShares(v, id, at, amount);
    case Repaying(id, at, amount, thirdParty) =>
      SettlementMovesNoShares(v, id, at, amount, if thirdParty then amount else 0);
    case Recovering(id, at, amount) => SettlementMovesNoShares(v, id, at, amount, amount);
    case WritingOff(id, at) => WriteOffMovesNoShares(v, id, at);
    case Impairing(_, _) => FacilityCallsMoveNoShares(v, op);
    case Accruing(_, _) => FacilityCallsMoveNoShares(v, op);
    case ChangingRate(_, _, _) => FacilityCallsMoveNoShares(v, op);
    case Charging(_, _, _) => FacilityCallsMoveNoShares(v, op);
    case _ =>
  }

  lemma DrawMovesNoShares(v: Vault, id: string, at: int, amount: int)
    ensures SameShares(v, Draw(v, id, at, amount).0)
  {
    hide Borrow;
  }

  lemma SettlementMovesNoShares(v: Vault, id: string, at: int, amount: int, booked: int)
    ensures SameShares(v, Settle(v, id, at, amount, booked).0)
  {
    hide Repay;
  }

  lemma ReserveMovesNoShares(v: Vault, id: string, at: int, used: int)
    requires id in v.facilities
    ensures SameShares(v, PayFromReserve(v, id, at, used).0)
  {
    hide Repay, Get;
  }

  lemma WriteOffMovesNoShares(v: Vault, id: string, at: int)
    ensures SameShares(v, WriteOff(v, id, at).0)
  {
    hide PayFromReserve, ReserveToUse, MarkWrittenOff, Ledger.Accrued, Ledger.Unpaid;
    if id in v.facilities && v.clock <= at && v.facilities[id].lastAccrualAt <= at {
      var l := v.facilities[id].Accrued(at);
      ReserveMovesNoShares(WithFacility(v.(clock := at), id, l), id, at, ReserveToUse(v, id, l));
    }
  }

  lemma FacilityCallsMoveNoShares(v: Vault, op: Op)
    requires (op.Impairing? || op.Accruing? || op.ChangingRate? || op.Charging?)
    ensures SameShares(v, Apply(v, op))
  {
    hide Accrue, SetRate, ChargeFee;
  }

  // ---- runs

  /** A call, or source cash landing at the destination and being allocated to a facility in one go. */
  datatype Step = Call(op: Op) | Landing(settlement: string, id: string, at: int, amount: int)

  ghost function Perform(v: Vault, step: Step): Vault {
    match step
    case Call(op) => Apply(v, op)
    case Landing(settlement, id, at, amount) =>
      var (arrived, r) := DestinationReceipt(v, settlement, amount);
      if r.Err? then arrived else RepayFor(arrived, id, at, amount, false).0
  }

  ghost predicate StepWithoutLoss(v: Vault, step: Step) {
    match step
    case Call(op) => WithoutLoss(v, op)
    case Landing(_, _, _, amount) => amount >= 0
  }

  ghost function PerformAll(v: Vault, steps: seq<Step>): Vault {
    if steps == [] then v else Perform(PerformAll(v, steps[..|steps| - 1]), steps[|steps| - 1])
  }

  ghost predicate RunWithoutLoss(v: Vault, steps: seq<Step>) {
    forall i :: 0 <= i < |steps| ==> StepWithoutLoss(PerformAll(v, steps[..i]), steps[i])
  }

  /** Cash that arrives and is allocated at once is a payment of that cash. */
  lemma LandingIsASettlement(v: Vault, settlement: string, id: string, at: int, amount: int)
    requires DestinationReceipt(v, settlement, amount).1.Ok? && id in v.facilities && v.clock <= at
    ensures var arrived := DestinationReceipt(v, settlement, amount).0;
      Perform(v, Landing(settlement, id, at, amount)) == Settle(arrived.(cash := v.cash), id, at, amount, amount).0
  {
    hide Settle, Get;
    var arrived := DestinationReceipt(v, settlement, amount).0;
    SettlementOfArrivedCash(arrived, v.cash, id, at, amount);
  }

  lemma SettlementOfArrivedCash(v: Vault, cash: int, id: string, at: int, amount: int)
    requires v.cash == cash + amount && id in v.facilities && v.clock <= at
    ensures Settle(v, id, at, amount, 0) == Settle(v.(cash := cash), id, at, amount, amount)
  {
    hide Repay, Get;
    assert v.(clock := at) == v.(clock := at, cash := cash + amount);
  }

  lemma LandingKeepsPrice(v: Vault, settlement: string, id: string, at: int, amount: int)
    requires LossFree(v) && amount >= 0
    ensures var v' := Perform(v, Landing(settlement, id, at, amount));
      LossFree(v') && Nav(v) <= Nav(v') && Supply(v') == Supply(v) && v'.virtualAssets == v.virtualAssets
      && v'.sharesOf == v.sharesOf
  {
    hide Nav, Repay;
    var (arrived, r) := DestinationReceipt(v, settlement, amount);
    SharesMoveNoNav(v, arrived);
    if r.Ok? && id in v.facilities && v.clock <= at {
      hide Settle;
      LandingIsASettlement(v, settlement, id, at, amount);
      var moved := arrived.(cash := v.cash);
      SharesMoveNoNav(v, moved);
      SettleKeepsPrice(moved, id, at, amount);
      SettlementMovesNoShares(moved, id, at, amount, amount);
    }
  }

  /** Between its arrival and its allocation cash counts twice: as cash and as the debt it is to pay. Allocation takes
      the second count back, and all that stays in the NAV is the fees it paid. */
  lemma ArrivedCashCountsTwiceUntilAllocated(v: Vault, settlement: string, id: string, at: int, amount: int)
    requires LossFree(v) && amount > 0 && DestinationReceipt(v, settlement, amount).1.Ok?
    requires id in v.facilities && v.clock <= at && v.facilities[id].lastAccrualAt <= at
    ensures var arrived := DestinationReceipt(v, settlement, amount).0;
      var (v', r) := RepayFor(arrived, id, at, amount, false);
      && Nav(arrived) == Nav(v) + amount
      && r.Ok? && Nav(v') == Nav(v.(clock := at)) + r.value.fees
  {
    hide Nav, Repay, Settle, Get;
    var arrived := DestinationReceipt(v, settlement, amount).0;
    var moved := arrived.(cash := v.cash);
    SharesMoveNoNav(v, arrived);
    SharesMoveNoNav(v, moved);
    SharesMoveNoNav(v.(clock := at), moved.(clock := at));
    SettlementOfArrivedCash(arrived, v.cash, id, at, amount);
    SettleKeepsPrice(moved, id, at, amount);
    SettlementAccepted(moved, id, at, amount, amount);
  }

  lemma SettlementAccepted(v: Vault, id: string, at: int, amount: int, booked: int)
    requires amount > 0 && id in v.facilities && v.clock <= at && v.facilities[id].lastAccrualAt <= at
    ensures Settle(v, id, at, amount, booked).1.Ok?
  {
    hide Repay, Get;
    AcceptedRepayment(v.facilities[id], at, amount);
  }

  lemma StepKeepsPrice(v: Vault, step: Step)
    requires LossFree(v) && SharesBalance(v) && StepWithoutLoss(v, step)
    ensures var v' := Perform(v, step); LossFree(v') && SharesBalance(v') && PriceAtLeast(v, v')
  {
    hide Nav, PriceAtLeast, WithoutLoss, Apply;
    match step
    case Call(op) =>
      if op.Withdrawing? {
        HoldingWithinTotal(v, op.lp);
      }
      PriceNeverFallsInOneCall(v, op);
      SignOfShares(v, op);
      SharesStayBalanced(v, op);
    case Landing(settlement, id, at, amount) =>
      LandingKeepsPrice(v, settlement, id, at, amount);
      SupplyIsPositive(v);
      SameSupply(v, Perform(v, step));
  }

  lemma SignOfShares(v: Vault, op: Op)
    requires WithoutLoss(v, op)
    ensures op.Withdrawing? ==> op.shares >= 0
  {
  }

  lemma SupplyIsPositive(v: Vault)
    requires LossFree(v)
    ensures Supply(v) > 0 && Pool(v) > 0
  {
    LossFreeNav(v);
  }

  /** Over every run without recognised losses, the price of a share never falls and shares stay accounted for. */
  lemma {:induction false} PriceNeverFalls(v: Vault, steps: seq<Step>)
    requires LossFree(v) && SharesBalance(v) && RunWithoutLoss(v, steps)
    ensures var v' := PerformAll(v, steps); LossFree(v') && SharesBalance(v') && PriceAtLeast(v, v')
  {
    hide Nav, SharesBalance, StepWithoutLoss, Perform;
    if steps != [] {
      var n := |steps| - 1;
      var prior := steps[..n];
      assert forall i :: 0 <= i < n ==> prior[..i] == steps[..i];
      PriceNeverFalls(v, prior);
      var before := PerformAll(v, prior);
      StepKeepsPrice(before, steps[n]);
      var after := Perform(before, steps[n]);
      SupplyIsPositive(v);
      SupplyIsPositive(before);
      SupplyIsPositive(after);
      CrossTransitive(Pool(v), Supply(v), Pool(before), Supply(before), Pool(after), Supply(after));
    }
  }

  // ---- claims

  ghost function Claims(v: Vault): map<string, int>
    requires Supply(v) > 0
  {
    map lp | lp in v.sharesOf :: ToAssets(v, v.sharesOf[lp]).value
  }

  function Floored(held: map<string, int>, pool: int, supply: int): map<string, int>
    requires supply > 0
  {
    map lp | lp in held :: FloorDiv(held[lp] * pool, supply)
  }

  lemma {:induction false} FlooredSharesAddUp(held: map<string, int>, pool: int, supply: int)
    requires supply > 0
    ensures Sum(Floored(held, pool, supply)) * supply <= Sum(held) * pool
    decreases |held|
  {
    hide FloorDiv;
    var floored := Floored(held, pool, supply);
    if held == map[] {
      assert floored == map[];
    } else {
      var lp :| lp in held;
      var rest := held - {lp};
      FlooredSharesAddUp(rest, pool, supply);
      assert floored - {lp} == Floored(rest, pool, supply);
      SumWithout(held, lp);
      SumWithout(floored, lp);
      FloorDivBounds(held[lp] * pool, supply);
      OneMoreHolder(held[lp], Sum(rest), floored[lp], Sum(floored - {lp}), pool, supply);
    }
  }

  lemma OneMoreHolder(shares: int, others: int, floored: int, othersFloored: int, pool: int, supply: int)
    requires floored * supply <= shares * pool && othersFloored * supply <= others * pool
    ensures (floored + othersFloored) * supply <= (shares + others) * pool
  {
  }

  /** What all shareholders could redeem together never exceeds the pool, with or without losses behind it. */
  lemma ClaimsNeverExceedPool(v: Vault)
    requires SharesBalance(v) && v.virtualShares > 0 && Pool(v) >= 0
    ensures Supply(v) > 0 && Sum(Claims(v)) <= Nav(v) + v.virtualAssets
  {
    hide Nav, Sum;
    SumNonNegative(v.sharesOf);
    FlooredSharesAddUp(v.sharesOf, Pool(v), Supply(v));
    assert Claims(v) == Floored(v.sharesOf, Pool(v), Supply(v));
    MulMonotone(v.totalShares, Supply(v), Pool(v));
    CancelFactor(Sum(Claims(v)), Pool(v), Supply(v));
  }

  // ---- one depositor

  /** A deposit that buys at least one share buys the floor of its part of the pool, and pays for it; any other is
      refused. */
  lemma DepositMintsTheFloor(v: Vault, lp: string, assets: int)
    requires Pool(v) > 0
    ensures var (v', r) := Deposit(v, lp, assets);
      && (r.Ok? <==> Pool(v) <= assets * Supply(v))
      && (r.Err? ==> v' == v)
      && (r.Ok? ==>
        && r.value > 0 && r.value * Pool(v) <= assets * Supply(v) < (r.value + 1) * Pool(v)
        && v' == v.(cash := v.cash + assets, totalShares := v.totalShares + r.value,
                    sharesOf := v.sharesOf[lp := Get(v.sharesOf, lp) + r.value]))
  {
    hide Nav;
    var product, pool := assets * Supply(v), Pool(v);
    FloorIs(product, pool);
    FloorAtLeast(product, pool, 1);
  }

  /** A holder's withdrawal is accepted exactly when it is within the holding and the floor of its claim is within the
      cash; it is then paid that floor, and the shares are gone. */
  lemma WithdrawalPaysTheFloor(v: Vault, lp: string, shares: int)
    requires Supply(v) > 0 && lp in v.sharesOf
    ensures var (v', r) := Withdraw(v, lp, shares);
      && (r.Ok? <==> shares <= v.sharesOf[lp] && shares * Pool(v) < (v.cash + 1) * Supply(v))
      && (r.Err? ==> v' == v)
      && (r.Ok? ==>
        && r.value * Supply(v) <= shares * Pool(v) < (r.value + 1) * Supply(v)
        && v' == v.(cash := v.cash - r.value, totalShares := v.totalShares - shares,
                    sharesOf := v.sharesOf[lp := v.sharesOf[lp] - shares]))
  {
    hide Nav;
    var product, supply := shares * Pool(v), Supply(v);
    FloorIs(product, supply);
    FloorAtLeast(product, supply, v.cash + 1);
  }

  lemma FloorIs(a: int, b: int)
    requires b > 0
    ensures FloorDiv(a, b) * b <= a < (FloorDiv(a, b) + 1) * b
  {
    FloorDivBounds(a, b);
  }

  lemma FloorAtLeast(a: int, b: int, c: int)
    requires b > 0
    ensures c <= FloorDiv(a, b) <==> c * b <= a
  {
    FloorDivBounds(a, b);
    if c <= FloorDiv(a, b) {
      MulMonotone(c, FloorDiv(a, b), b);
    } else {
      MulMonotone(FloorDiv(a, b) + 1, c, b);
    }
  }

  /** Somebody who holds no shares cannot redeem any. */
  lemma OnlyHoldersRedeem(v: Vault, lp: string, shares: int)
    requires shares > Get(v.sharesOf, lp)
    ensures Withdraw(v, lp, shares) == (v, Err(InsufficientShares))
  {
  }

  /** Shares bought and redeemed at once are redeemed, never return more than was paid in, and cost less than one share
      and a unit. */
  lemma RoundTripFavoursTheVault(v: Vault, lp: string, assets: int)
    requires LossFree(v) && Get(v.sharesOf, lp) >= 0 && Deposit(v, lp, assets).1.Ok?
    ensures var (v', bought) := Deposit(v, lp, assets);
      var back := Withdraw(v', lp, bought.value).1;
      back.Ok? && back.value <= assets && (assets - back.value - 1) * Supply(v') < Pool(v)
  {
    LossFreeNav(v);
    hide Nav, Deposit, Withdraw;
    DepositMintsTheFloor(v, lp, assets);
    var (v', bought) := Deposit(v, lp, assets);
    var shares, pool, supply := bought.value, Pool(v), Supply(v);
    SharesMoveNoNav(v, v');
    WithdrawalPaysTheFloor(v', lp, shares);
    var claim := FloorDiv(shares * Pool(v'), Supply(v'));
    FloorIs(shares * Pool(v'), Supply(v'));
    RoundTrip(assets, shares, pool, supply, claim);
    MulMonotone(claim + 1, v'.cash + 1, Supply(v'));
    SameFloor(shares * Pool(v'), Supply(v'), claim, Withdraw(v', lp, shares).1.value);
  }

  lemma SameFloor(a: int, b: int, c: int, d: int)
    requires b > 0 && c * b <= a < (c + 1) * b && d * b <= a < (d + 1) * b
    ensures c == d
  {
    if c < d {
      MulMonotone(c + 1, d, b);
    } else if d < c {
      MulMonotone(d + 1, c, b);
    }
  }

  lemma RoundTrip(assets: int, shares: int, pool: int, supply: int, back: int)
    requires shares > 0 && pool > 0 && supply > 0
    requires shares * pool <= assets * supply < (shares + 1) * pool
    requires back * (supply + shares) <= shares * (pool + assets) < (back + 1) * (supply + shares)
    ensures back <= assets && (assets - back - 1) * (supply + shares) < pool
  {
    var s := supply + shares;
    assert shares * (pool + assets) == shares * pool + shares * assets;
    assert assets * s == assets * supply + assets * shares;
    assert back * s <= assets * s;
    CancelFactor(back, assets, s);
    assert (assets - back - 1) * s == assets * s - back * s - s;
  }

  /** The most a donation can bring its donor: nothing. The attacker deposits, donates, lets a victim's deposit follow
      (accepted, or refused as too small) and redeems everything; the redemption is accepted and returns no more than
      was put in. */
  lemma DonationAttackNeverPays(virtualShares: int, attacker: string, victim: string, stake: int, donation: int,
                                deposit: int)
    requires virtualShares >= 1 && attacker != victim && donation >= 0
    requires Deposit(Fresh(virtualShares, 1), attacker, stake).1.Ok?
    ensures var (v1, bought) := Deposit(Fresh(virtualShares, 1), attacker, stake);
      var v2 := Donate(v1, donation);
      var v3 := Deposit(v2, victim, deposit).0;
      var out := Withdraw(v3, attacker, bought.value).1;
      out.Ok? && out.value <= stake + donation
  {
    var v0 := Fresh(virtualShares, 1);
    FreshIsLossFree(virtualShares);
    var (v1, bought) := Deposit(v0, attacker, stake);
    var v2 := Donate(v1, donation);
    var (v3, minted) := Deposit(v2, victim, deposit);
    hide Nav;
    NoSharesForNothing(v0, stake);
    SharesMoveNoNav(v0, v1);
    SharesMoveNoNav(v0, v2);
    SharesMoveNoNav(v0, v3);
    var shares := bought.value;
    var pool := stake + donation + 1;
    assert Pool(v2) == pool && Supply(v2) == shares + virtualShares;
    FloorDivBounds(deposit * Supply(v2), pool);
    var added, new_ := if minted.Ok? then deposit else 0, if minted.Ok? then minted.value else 0;
    if minted.Ok? {
      VictimPays(deposit, Supply(v2), pool, minted.value);
    }
    DonorShare(shares, virtualShares, pool, added, new_);
    FloorDivAtMost(shares * (pool + added), shares + virtualShares + new_, stake + donation);
    assert Get(v3.sharesOf, attacker) == shares;
  }

  lemma FreshIsLossFree(virtualShares: int)
    requires virtualShares >= 1
    ensures LossFree(Fresh(virtualShares, 1)) && Nav(Fresh(virtualShares, 1)) == 0
  {
    var v := Fresh(virtualShares, 1);
    assert PrincipalBy(v.facilities) == map[] && InterestBy(v.facilities, v.clock) == map[] && ImpairmentOn(v) == map[];
  }

  lemma VictimPays(deposit: int, supply: int, pool: int, minted: int)
    requires pool > 0 && supply > 0 && minted > 0
    requires minted * pool <= deposit * supply < minted * pool + pool
    ensures deposit > 0
  {
    if deposit <= 0 {
      MulMonotone(deposit, 0, supply);
      MulMonotone(1, minted, pool);
    }
  }

  /** The arithmetic of the attack: the attacker's shares of the pool after the victim, below the pool before. */
  lemma DonorShare(shares: int, virtualShares: int, pool: int, added: int, minted: int)
    requires shares > 0 && virtualShares >= 1 && pool > 0 && added >= 0 && minted >= 0
    requires added * (shares + virtualShares) < minted * pool + pool
    ensures shares * (pool + added) < (pool - 1 + 1) * (shares + virtualShares + minted)
  {
    assert shares * (pool + added) == shares * pool + shares * added;
    assert added * (shares + virtualShares) == shares * added + added * virtualShares;
    assert pool * (shares + virtualShares + minted) == shares * pool + virtualShares * pool + minted * pool;
    MulMonotone(1, virtualShares, pool);
    MulNonNegative(added, virtualShares);
  }
}
