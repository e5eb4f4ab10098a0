/**
 The price of a share, (NAV + virtual assets) / (total shares + virtual shares), and what the virtual offset buys:
 without losses the price never falls, claims never exceed the pool, and a donor cannot profit from a later depositor.
 */
module VaultPrice {
  import opened FloorArithmetic
  import opened MapSums
  import opened RateSchedule
  import opened Facility
  import opened Vault
  import opened VaultRuns

  /** A vault whose book has no losses in it and no negative balance. */
  ghost predicate LossFree(v: Vault) {
    && v.virtualShares > 0 && v.virtualAssets > 0
    && v.cash >= 0 && v.totalShares >= 0
    && v.impairmentBy == map[]
    && forall id :: id in v.facilities ==> v.facilities[id].Solvent() && !v.facilities[id].impaired
  }

  function Supply(v: Vault): int {
    v.totalShares + v.virtualShares
  }

  ghost function Pool(v: Vault): int {
    Nav(v) + v.virtualAssets
  }

  /** The share price of `v'` is at least that of `v`, cross-multiplied. */
  ghost predicate PriceAtLeast(v: Vault, v': Vault) {
    Pool(v) * Supply(v') <= Pool(v') * Supply(v)
  }

  /** The signs callers are to keep, and no loss recognised: what the price theorem asks of a call before it is made. */
  ghost predicate WithoutLoss(v: Vault, op: Op) {
    match op
    case Withdrawing(_, shares) => shares >= 0
    case Donating(assets) => assets >= 0
    case Opening(id, rateBps, _, _) => id !in v.facilities && rateBps >= 0
    case Arriving(_, amount) => amount >= 0
    case Repaying(_, _, amount, thirdParty) => thirdParty && amount >= 0
    case Recovering(_, _, amount) => amount >= 0
    case Impairing(_, _) => false
    case WritingOff(_, _) => false
    case ChangingRate(_, at, rateBps) => at >= v.clock && rateBps >= 0
    case Charging(_, _, amount) => amount >= 0
    case _ => true
  }

  // ---- NAV of a loss-free book

  lemma LossFreeNav(v: Vault)
    requires LossFree(v)
    ensures Nav(v) >= v.cash
  {
    forall id | id in v.facilities
      ensures v.facilities[id].UnpaidAt(v.clock) >= 0
    {
      UnpaidGrows(v.facilities[id], v.clock, v.clock);
    }
    SumNonNegative(PrincipalBy(v.facilities));
    SumNonNegative(InterestBy(v.facilities, v.clock));
    assert ImpairmentOn(v) == map[];
  }

  lemma TickKeeps(v: Vault, at: int)
    requires LossFree(v) && v.clock <= at
    ensures LossFree(v.(clock := at)) && Nav(v) <= Nav(v.(clock := at))
  {
    forall id | id in v.facilities
      ensures v.facilities[id].UnpaidAt(v.clock) <= v.facilities[id].UnpaidAt(at)
    {
      UnpaidGrows(v.facilities[id], v.clock, at);
    }
    SumMonotone(InterestBy(v.facilities, v.clock), InterestBy(v.facilities, at));
    assert ImpairmentOn(v) == ImpairmentOn(v.(clock := at));
  }

  /** A facility of the book changed for a solvent one: NAV moves by the change in worth. */
  lemma FacilityKeeps(v: Vault, id: string, l: Ledger)
    requires LossFree(v) && l.Solvent() && !l.impaired
    ensures LossFree(WithFacility(v, id, l))
    ensures Nav(WithFacility(v, id, l)) == Nav(v) - WorthOf(v, id) + l.principal + l.UnpaidAt(v.clock)
  {
    NavAfterFacility(v, id, l);
  }

  lemma CashMovesNav(v: Vault, cash: int)
    ensures Nav(v.(cash := cash)) == Nav(v) - v.cash + cash
  {
    assert ImpairmentOn(v.(cash := cash)) == ImpairmentOn(v);
  }

  /** A higher NAV over the same supply is a higher price. */
  lemma SameSupply(v: Vault, v': Vault)
    requires Supply(v') == Supply(v) >= 0
    requires v'.virtualAssets == v.virtualAssets && Nav(v) <= Nav(v')
    ensures PriceAtLeast(v, v')
  {
    MulMonotone(Pool(v), Pool(v'), Supply(v));
  }

  // ---- calls that move shares

  /** Assets and shares that move together, the assets worth no less than the shares at the old price. */
  lemma PriceMoves(v: Vault, v': Vault, assets: int, shares: int)
    requires Pool(v') == Pool(v) + assets && Supply(v') == Supply(v) + shares
    requires shares * Pool(v) <= assets * Supply(v)
    ensures PriceAtLeast(v, v')
  {
    hide Pool, Supply;
    var pool, supply := Pool(v), Supply(v);
    assert pool * (supply + shares) == pool * supply + shares * pool;
    assert (pool + assets) * supply == pool * supply + assets * supply;
  }

  lemma DepositKeepsPrice(v: Vault, lp: string, assets: int)
    requires LossFree(v)
    ensures var v' := Deposit(v, lp, assets).0; LossFree(v') && PriceAtLeast(v, v')
  {
    LossFreeNav(v);
    NoSharesForNothing(v, assets);
    var (v', r) := Deposit(v, lp, assets);
    if r.Ok? {
      var shares := r.value;
      FloorDivBounds(assets * Supply(v), Pool(v));
      SharesMoveNoNav(v, v');
      PriceMoves(v, v', assets, shares);
    }
  }

  lemma NoSharesForNothing(v: Vault, assets: int)
    requires LossFree(v)
    ensures ToShares(v, assets).Ok? && (ToShares(v, assets).value > 0 ==> assets > 0)
  {
    LossFreeNav(v);
    if assets <= 0 {
      MulMonotone(assets, 0, Supply(v));
      FloorDivAtMost(assets * Supply(v), Pool(v), 0);
    }
  }

  lemma SharesMoveNoNav(v: Vault, v': Vault)
    requires v'.facilities == v.facilities && v'.impairmentBy == v.impairmentBy && v'.clock == v.clock
    ensures Nav(v') == Nav(v) - v.cash + v'.cash
  {
    assert ImpairmentOn(v') == ImpairmentOn(v);
  }

  lemma Negated(a: int, b: int, c: int, d: int)
    requires c * d <= a * b
    ensures -a * b <= -c * d
  {
  }

  lemma WithdrawKeepsPrice(v: Vault, lp: string, shares: int)
    requires LossFree(v) && 0 <= shares
    requires Get(v.sharesOf, lp) <= v.totalShares
    ensures var v' := Withdraw(v, lp, shares).0; LossFree(v') && PriceAtLeast(v, v')
  {
    LossFreeNav(v);
    hide Nav, PriceAtLeast;
    var v' := Withdraw(v, lp, shares).0;
    if v' == v {
      SameSupply(v, v);
    } else {
      var assets := ToAssets(v, shares).value;
      FloorDivBounds(shares * Pool(v), Supply(v));
      SharesMoveNoNav(v, v');
      Negated(shares, Pool(v), assets, Supply(v));
      PriceMoves(v, v', -assets, -shares);
    }
  }

  // ---- calls that move facilities

  lemma AcceptedDraw(l: Ledger, at: int, amount: int)
    ensures Borrow(l, at, amount).1.Ok? <==> amount > 0 && l.lastAccrualAt <= at
    ensures Borrow(l, at, amount).0.impaired == l.impaired
  {
  }

  lemma DrawKeepsPrice(v: Vault, id: string, at: int, amount: int)
    requires LossFree(v)
    ensures var v' := Draw(v, id, at, amount).0;
      LossFree(v') && Nav(v) <= Nav(v') && Supply(v') == Supply(v) && v'.virtualAssets == v.virtualAssets
  {
    hide Nav, Borrow, Integral, UnitsIn, AccumOf;
    var (v', r) := Draw(v, id, at, amount);
    if v' != v {
      var ticked := v.(clock := at);
      TickKeeps(v, at);
      if r.Ok? {
        var l := v.facilities[id];
        AcceptedDraw(l, at, amount);
        BorrowKeeps(l, at, amount);
        var l' := Borrow(l, at, amount).0;
        assert l'.UnpaidAt(at) == l'.Unpaid();
        FacilityKeeps(ticked, id, l');
        CashMovesNav(WithFacility(ticked, id, l'), v.cash - amount);
      }
    }
  }

  lemma AcceptedRepayment(l: Ledger, at: int, amount: int)
    ensures Repay(l, at, amount).1.Ok? <==> amount > 0 && l.lastAccrualAt <= at
    ensures Repay(l, at, amount).0.impaired == l.impaired
  {
  }

  lemma SettleKeepsPrice(v: Vault, id: string, at: int, amount: int)
    requires LossFree(v) && amount >= 0
    ensures var (v', r) := Settle(v, id, at, amount, amount);
      LossFree(v') && Supply(v') == Supply(v) && v'.virtualAssets == v.virtualAssets && Nav(v) <= Nav(v')
      && (r.Ok? ==> Nav(v') == Nav(v.(clock := at)) + r.value.fees)
  {
    hide Nav, Repay, Integral, UnitsIn, AccumOf, Waterfall;
    var (v', r) := Settle(v, id, at, amount, amount);
    if id in v.facilities && v.clock <= at {
      var held := v.(clock := at, cash := v.cash + amount);
      TickKeeps(v, at);
      CashMovesNav(v.(clock := at), v.cash + amount);
      if r.Ok? {
        var l := v.facilities[id];
        AcceptedRepayment(l, at, amount);
        RepaymentReducesDebt(l, at, amount);
        var l' := Repay(l, at, amount).0;
        assert l'.UnpaidAt(at) == l'.Unpaid();
        FacilityKeeps(held, id, l');
        var paid := WithFacility(held, id, l');
        CashMovesNav(paid, paid.cash - r.value.excess);
        SharesMoveNoNav(paid, v');
      }
    }
  }

  lemma FacilityImproves(v: Vault, id: string, l: Ledger)
    requires LossFree(v) && id in v.facilities && l.Solvent() && !l.impaired
    requires l.principal == v.facilities[id].principal
    requires v.facilities[id].UnpaidAt(v.clock) <= l.UnpaidAt(v.clock)
    ensures LossFree(WithFacility(v, id, l)) && Nav(v) <= Nav(WithFacility(v, id, l))
  {
    FacilityKeeps(v, id, l);
  }

  /** What a call on the facility object itself makes of the facility, at least as good for the vault as before. */
  lemma FacilityCallImproves(l: Ledger, clock: int, op: Op)
    requires op.Accruing? || (op.ChangingRate? && op.at >= clock && op.rateBps >= 0) || (op.Charging? && op.amount >= 0)
    requires l.Solvent() && l.lastAccrualAt <= op.at
    ensures var l' := FacilityAfter(l, op);
      l'.Solvent() && l'.impaired == l.impaired && l'.principal == l.principal
        && l.UnpaidAt(clock) <= l'.UnpaidAt(clock)
  {
    hide Integral, UnitsIn, AccumOf;
    AccrualKeepsSolvent(l, op.at);
    EarlyOrLateAccrual(l, op.at, clock);
    if op.ChangingRate? {
      SetRateKeeps(l, op.at, op.rateBps);
      assert l.Accrued(op.at).UnpaidAt(clock) == l.Accrued(op.at).Unpaid();
      assert FacilityAfter(l, op).UnpaidAt(clock) == FacilityAfter(l, op).Unpaid();
    }
  }

  function FacilityAfter(l: Ledger, op: Op): (l': Ledger)
    requires op.Accruing? || op.ChangingRate? || op.Charging?
  {
    match op
    case Accruing(_, at) => Accrue(l, at).0
    case ChangingRate(_, at, rateBps) => SetRate(l, at, rateBps).0
    case Charging(_, at, amount) => ChargeFee(l, at, amount).0
  }

  lemma FacilityCallKeepsPrice(v: Vault, op: Op)
    requires LossFree(v) && WithoutLoss(v, op)
    requires op.Accruing? || op.ChangingRate? || op.Charging?
    ensures var v' := Apply(v, op);
      LossFree(v') && Nav(v) <= Nav(v') && Supply(v') == Supply(v) && v'.virtualAssets == v.virtualAssets
  {
    hide Nav, Accrue, SetRate, ChargeFee;
    if op.id in v.facilities {
      var l := v.facilities[op.id];
      assert Apply(v, op) == WithFacility(v, op.id, FacilityAfter(l, op));
      if l.lastAccrualAt <= op.at {
        FacilityCallImproves(l, v.clock, op);
      } else {
        RefusedCall(l, op);
      }
      FacilityImproves(v, op.id, FacilityAfter(l, op));
    }
  }

  lemma RefusedCall(l: Ledger, op: Op)
    requires (op.Accruing? || op.ChangingRate? || op.Charging?)
    requires op.at < l.lastAccrualAt
    ensures FacilityAfter(l, op) == l
  {
  }

  /** Accruing never lowers what is read at any time. */
  lemma EarlyOrLateAccrual(l: Ledger, at: int, clock: int)
    requires l.Solvent() && l.lastAccrualAt <= at
    ensures l.UnpaidAt(clock) <= l.Accrued(at).UnpaidAt(clock)
  {
    if at <= clock {
      AccrualIsPathIndependent(l, at, clock);
    } else {
      UnpaidGrows(l, clock, at);
    }
  }

  lemma OpeningKeepsPrice(v: Vault, id: string, rateBps: int, capitalize: bool, at: int)
    requires LossFree(v) && id !in v.facilities && rateBps >= 0
    ensures var v' := OpenFacility(v, id, rateBps, capitalize, at); LossFree(v') && Nav(v') == Nav(v)
  {
    var l := Opened(rateBps, capitalize, at);
    FacilityKeeps(v, id, l);
    if at <= v.clock {
      NothingOnNothing(l.segments, at, v.clock);
    }
  }

  lemma {:induction false} NothingOnNothing(segments: seq<RateSegment>, from: int, until: int)
    requires segments != [] && from <= until
    ensures Integral(0, segments, from, until) == 0
    decreases until - from
  {
    if from < until {
      NothingOnNothing(segments, from, until - 1);
    }
  }

  /** Whatever is called, as long as no loss is recognised, the price of a share does not fall. */
  lemma PriceNeverFallsInOneCall(v: Vault, op: Op)
    requires LossFree(v) && WithoutLoss(v, op)
    requires op.Withdrawing? ==> Get(v.sharesOf, op.lp) <= v.totalShares
    ensures LossFree(Apply(v, op)) && PriceAtLeast(v, Apply(v, op))
  {
    hide Nav, Deposit, Withdraw;
    var v' := Apply(v, op);
    match op {
      case Depositing(lp, assets) => DepositKeepsPrice(v, lp, assets);
      case Withdrawing(lp, shares) => WithdrawKeepsPrice(v, lp, shares);
      case _ =>
        OtherCallsKeepPrice(v, op);
        SameSupply(v, v');
    }
  }

  /** Calls that touch neither shares nor facilities. */
  lemma CashCallKeepsPrice(v: Vault, op: Op)
    requires LossFree(v) && WithoutLoss(v, op)
    requires op.Donating? || op.Collecting? || op.StartingLeg? || op.Arriving? || op.Funding?
    ensures var v' := Apply(v, op);
      LossFree(v') && Nav(v) <= Nav(v') && Supply(v') == Supply(v) && v'.virtualAssets == v.virtualAssets
  {
    hide Nav;
    SharesMoveNoNav(v, Apply(v, op));
  }

  lemma OtherCallsKeepPrice(v: Vault, op: Op)
    requires LossFree(v) && WithoutLoss(v, op) && !op.Depositing? && !op.Withdrawing?
    ensures var v' := Apply(v, op);
      LossFree(v') && Supply(v') == Supply(v) && v'.virtualAssets == v.virtualAssets && Nav(v) <= Nav(v')
  {
    hide Nav, Draw, Settle, AccrueFacility, SetFacilityRate, ChargeFacilityFee, WriteOff, Impair, Deposit, Withdraw;
    hide LossFree;
    hide StartLeg, DestinationReceipt, SourceReceipt, FundReserve, Donate;
    match op
    case Ticking(at) => if v.clock <= at { TickKeeps(v, at); }
    case Opening(id, rateBps, capitalize, at) => OpeningKeepsPrice(v, id, rateBps, capitalize, at);
    case Drawing(id, at, amount) => DrawKeepsPrice(v, id, at, amount);
    case Repaying(id, at, amount, _) => SettleKeepsPrice(v, id, at, amount);
    case Recovering(id, at, amount) => SettleKeepsPrice(v, id, at, amount);
    case Accruing(_, _) => FacilityCallKeepsPrice(v, op);
    case ChangingRate(_, _, _) => FacilityCallKeepsPrice(v, op);
    case Charging(_, _, _) => FacilityCallKeepsPrice(v, op);
    case _ => CashCallKeepsPrice(v, op);
  }
}
