/**
 The book value of the vault and what each operation makes of it. `VaultLedger` in VaultLedger.dfy keeps the same
 fields in place. An operation that raises keeps whatever it had already changed, as the source does.
 */
module Vault {
  import opened Results
  import opened FloorArithmetic
  import opened MapSums
  import opened Facility

  datatype Vault = Vault(
    virtualShares: int,
    virtualAssets: int,
    clock: int,
    cash: int,
    totalShares: int,
    sharesOf: map<string, int>,
    facilities: map<string, Ledger>,
    impairmentBy: map<string, int>,
    borrowerReserve: map<string, int>,
    borrowerRefundable: map<string, int>,
    sourceEscrow: map<string, int>,
    inFlight: map<string, int>)

  function Fresh(virtualShares: int, virtualAssets: int): Vault {
    Vault(virtualShares, virtualAssets, 0, 0, 0, map[], map[], map[], map[], map[], map[], map[])
  }

  // ---- net asset value

  function PrincipalBy(facilities: map<string, Ledger>): map<string, int> {
    map id | id in facilities :: if facilities[id].impaired then 0 else facilities[id].principal
  }

  function InterestBy(facilities: map<string, Ledger>, clock: int): map<string, int> {
    map id | id in facilities :: if facilities[id].impaired then 0 else facilities[id].UnpaidAt(clock)
  }

  function ImpairmentOn(v: Vault): map<string, int> {
    map id | id in v.impairmentBy :: ImpairmentOf(v, id)
  }

  /** Cash owned by the LPs, performing principal and interest, less impairment. */
  ghost function Nav(v: Vault): int {
    v.cash + Sum(PrincipalBy(v.facilities)) + Sum(InterestBy(v.facilities, v.clock)) - Sum(ImpairmentOn(v))
  }

  // ---- shares

  ghost function ToShares(v: Vault, assets: int): Result<int, Error> {
    var pool := Nav(v) + v.virtualAssets;
    if pool == 0 then Err(DivisionByZero) else Ok(FloorDiv(assets * (v.totalShares + v.virtualShares), pool))
  }

  ghost function ToAssets(v: Vault, shares: int): Result<int, Error> {
    var supply := v.totalShares + v.virtualShares;
    if supply == 0 then Err(DivisionByZero) else Ok(FloorDiv(shares * (Nav(v) + v.virtualAssets), supply))
  }

  ghost function Deposit(v: Vault, lp: string, assets: int): (Vault, Result<int, Error>) {
    var shares := ToShares(v, assets);
    if shares.Err? then (v, shares)
    else if shares.value <= 0 then (v, Err(DepositTooSmall))
    else
      (v.(cash := v.cash + assets,
          totalShares := v.totalShares + shares.value,
          sharesOf := v.sharesOf[lp := Get(v.sharesOf, lp) + shares.value]), shares)
  }

  ghost function Withdraw(v: Vault, lp: string, shares: int): (Vault, Result<int, Error>) {
    if shares > Get(v.sharesOf, lp) then (v, Err(InsufficientShares))
    else
      var assets := ToAssets(v, shares);
      if assets.Err? then (v, assets)
      else if assets.value > v.cash then (v, Err(InsufficientCash))
      else
        var paid := v.(cash := v.cash - assets.value, totalShares := v.totalShares - shares);
        if lp !in v.sharesOf then (paid, Err(MissingKey))
        else (paid.(sharesOf := v.sharesOf[lp := v.sharesOf[lp] - shares]), assets)
  }

  function Donate(v: Vault, assets: int): Vault {
    v.(cash := v.cash + assets)
  }

  function Tick(v: Vault, at: int): (Vault, Result<(), Error>) {
    if at < v.clock then (v, Err(ClockBackwards)) else (v.(clock := at), Ok(()))
  }

  // ---- lending

  function OpenFacility(v: Vault, id: string, rateBps: int, capitalize: bool, at: int): Vault {
    WithFacility(v, id, Opened(rateBps, capitalize, at))
  }

  function WithFacility(v: Vault, id: string, l: Ledger): Vault {
    v.(facilities := v.facilities[id := l])
  }

  function Draw(v: Vault, id: string, at: int, amount: int): (Vault, Result<(), Error>) {
    if id !in v.facilities then (v, Err(MissingKey))
    else if amount > v.cash then (v, Err(InsufficientCash))
    else if at < v.clock then (v, Err(ClockBackwards))
    else
      var (l, r) := Borrow(v.facilities[id], at, amount);
      var ticked := v.(clock := at);
      if r.Err? then (ticked, r) else (WithFacility(ticked, id, l).(cash := v.cash - amount), r)
  }

  // ---- the cash pipeline

  function SourceReceipt(v: Vault, settlement: string, amount: int): Vault {
    v.(sourceEscrow := v.sourceEscrow[settlement := Get(v.sourceEscrow, settlement) + amount])
  }

  function StartLeg(v: Vault, settlement: string, amount: int): (Vault, Result<(), Error>) {
    if amount > Get(v.sourceEscrow, settlement) then (v, Err(LegExceedsEscrow))
    else if settlement !in v.sourceEscrow then (v, Err(MissingKey))
    else
      (v.(sourceEscrow := v.sourceEscrow[settlement := v.sourceEscrow[settlement] - amount],
          inFlight := v.inFlight[settlement := Get(v.inFlight, settlement) + amount]), Ok(()))
  }

  function DestinationReceipt(v: Vault, settlement: string, amount: int): (Vault, Result<(), Error>) {
    if amount > Get(v.inFlight, settlement) then (v, Err(ReceiptExceedsInFlight))
    else if settlement !in v.inFlight then (v, Err(MissingKey))
    else
      (v.(inFlight := v.inFlight[settlement := v.inFlight[settlement] - amount], cash := v.cash + amount), Ok(()))
  }

  /** Cash booked by the call, allocated by the waterfall; the excess becomes the borrower's. */
  function Settle(v: Vault, id: string, at: int, amount: int, booked: int): (Vault, Result<Alloc, Error>) {
    if id !in v.facilities then (v, Err(MissingKey))
    else if at < v.clock then (v, Err(ClockBackwards))
    else
      var held := v.(clock := at, cash := v.cash + booked);
      var (l, r) := Repay(v.facilities[id], at, amount);
      if r.Err? then (held, r)
      else
        var paid := WithFacility(held, id, l);
        var excess := r.value.excess;
        if excess == 0 then (paid, r)
        else
          (paid.(cash := paid.cash - excess,
                 borrowerRefundable := v.borrowerRefundable[id := Get(v.borrowerRefundable, id) + excess]), r)
  }

  function RepayFor(v: Vault, id: string, at: int, amount: int, thirdParty: bool): (Vault, Result<Alloc, Error>) {
    Settle(v, id, at, amount, if thirdParty then amount else 0)
  }

  function Recover(v: Vault, id: string, at: int, amount: int): (Vault, Result<Alloc, Error>) {
    Settle(v, id, at, amount, amount)
  }

  function FundReserve(v: Vault, id: string, amount: int): Vault {
    v.(borrowerReserve := v.borrowerReserve[id := Get(v.borrowerReserve, id) + amount])
  }

  // ---- losses

  function Impair(v: Vault, id: string, amount: int): (Vault, Result<(), Error>) {
    if id !in v.facilities then (v, Err(MissingKey))
    else
      var already := Get(v.impairmentBy, id);
      if amount > v.facilities[id].principal + v.facilities[id].Unpaid() - already
        then (v, Err(ImpairmentExceedsExposure))
      else (v.(impairmentBy := v.impairmentBy[id := already + amount]), Ok(()))
  }

  datatype WriteOffResult = WriteOffResult(reserveUsed: int, lossPrincipal: int, lossInterest: int)

  /** Off the performing book, its impairment released; the debt stays in the facility. */
  function RemoveFromBook(v: Vault, id: string): (r: Vault)
    requires id in v.facilities
  {
    WithFacility(v, id, MarkWrittenOff(v.facilities[id])).(impairmentBy := v.impairmentBy - {id})
  }

  /** First-loss cash of the borrower becomes the vault's. */
  function UseReserve(v: Vault, id: string, used: int): Vault {
    v.(borrowerReserve := v.borrowerReserve[id := Get(v.borrowerReserve, id) - used], cash := v.cash + used)
  }

  function ReserveToUse(v: Vault, id: string, accrued: Ledger): int {
    Min(Get(v.borrowerReserve, id), accrued.LegalDebt())
  }

  /** The borrower's reserve goes through the waterfall first. */
  function PayFromReserve(v: Vault, id: string, at: int, used: int): (r: (Vault, Result<(), Error>))
    requires id in v.facilities
    ensures id in r.0.facilities
  {
    if used == 0 then (v, Ok(()))
    else if id !in v.borrowerReserve then (v, Err(MissingKey))
    else
      var (paid, r) := Repay(v.facilities[id], at, used);
      if r.Err? then (UseReserve(v, id, used), Err(r.error))
        else (UseReserve(WithFacility(v, id, paid), id, used), Ok(()))
  }

  function WriteOff(v: Vault, id: string, at: int): (Vault, Result<WriteOffResult, Error>) {
    if id !in v.facilities then (v, Err(MissingKey))
    else if at < v.clock then (v, Err(ClockBackwards))
    else if at < v.facilities[id].lastAccrualAt then (v.(clock := at), Err(AccrualBackwards))
    else
      var l := v.facilities[id].Accrued(at);
      var used := ReserveToUse(v, id, l);
      var (v', r) := PayFromReserve(WithFacility(v.(clock := at), id, l), id, at, used);
      if r.Err? then (v', Err(r.error))
      else
        (RemoveFromBook(v', id), Ok(WriteOffResult(used, v'.facilities[id].principal, v'.facilities[id].Unpaid())))
  }

  // ---- facility calls made directly on the facility object

  function AccrueFacility(v: Vault, id: string, at: int): Vault {
    if id in v.facilities then WithFacility(v, id, Accrue(v.facilities[id], at).0) else v
  }

  function SetFacilityRate(v: Vault, id: string, at: int, rateBps: int): Vault {
    if id in v.facilities then
      WithFacility(v, id, SetRate(v.facilities[id], at, rateBps).0)
    else v
  }

  function ChargeFacilityFee(v: Vault, id: string, at: int, amount: int): Vault {
    if id in v.facilities then WithFacility(v, id, ChargeFee(v.facilities[id], at, amount).0) else v
  }

  // ---- NAV as facilities change

  /** What one facility contributes to the NAV at `clock`. */
  function Worth(l: Ledger, clock: int): int {
    if l.impaired then 0 else l.principal + l.UnpaidAt(clock)
  }

  function WorthOf(v: Vault, id: string): int {
    if id in v.facilities then Worth(v.facilities[id], v.clock) else 0
  }

  function ImpairmentOf(v: Vault, id: string): int {
    if id in v.impairmentBy && id in v.facilities && !v.facilities[id].impaired then v.impairmentBy[id] else 0
  }

  lemma PrincipalAfterFacility(v: Vault, id: string, l: Ledger)
    ensures Sum(PrincipalBy(WithFacility(v, id, l).facilities))
      == Sum(PrincipalBy(v.facilities)) - Get(PrincipalBy(v.facilities), id) + if l.impaired then 0 else l.principal
  {
    hide Sum;
    var principal := if l.impaired then 0 else l.principal;
    assert PrincipalBy(WithFacility(v, id, l).facilities) == PrincipalBy(v.facilities)[id := principal];
    SumUpdate(PrincipalBy(v.facilities), id, principal);
  }

  lemma InterestAfterFacility(v: Vault, id: string, l: Ledger)
    ensures Sum(InterestBy(WithFacility(v, id, l).facilities, v.clock))
      == Sum(InterestBy(v.facilities, v.clock)) - Get(InterestBy(v.facilities, v.clock), id)
         + if l.impaired then 0 else l.UnpaidAt(v.clock)
  {
    hide Sum;
    var interest := if l.impaired then 0 else l.UnpaidAt(v.clock);
    assert InterestBy(WithFacility(v, id, l).facilities, v.clock) == InterestBy(v.facilities, v.clock)[id := interest];
    SumUpdate(InterestBy(v.facilities, v.clock), id, interest);
  }

  lemma ImpairmentAfterFacility(v: Vault, id: string, l: Ledger)
    ensures Sum(ImpairmentOn(WithFacility(v, id, l)))
      == Sum(ImpairmentOn(v)) - ImpairmentOf(v, id) + ImpairmentOf(WithFacility(v, id, l), id)
  {
    hide Sum, Ledger.Unpaid, Ledger.UnpaidAt;
    var v' := WithFacility(v, id, l);
    if id in v.impairmentBy {
      assert ImpairmentOn(v') == ImpairmentOn(v)[id := ImpairmentOf(v', id)];
      SumUpdate(ImpairmentOn(v), id, ImpairmentOf(v', id));
    } else {
      assert ImpairmentOn(v') == ImpairmentOn(v);
    }
  }

  /** Replacing one facility moves the NAV by the change in its worth and in its live impairment. */
  lemma NavAfterFacility(v: Vault, id: string, l: Ledger)
    ensures Nav(WithFacility(v, id, l))
      == Nav(v) - WorthOf(v, id) + Worth(l, v.clock) + ImpairmentOf(v, id) - ImpairmentOf(WithFacility(v, id, l), id)
  {
    hide Sum, ImpairmentOn, ImpairmentOf;
    PrincipalAfterFacility(v, id, l);
    InterestAfterFacility(v, id, l);
    ImpairmentAfterFacility(v, id, l);
  }

  /** Accruing any facility early, up to the vault's clock, leaves the NAV as it was. */
  lemma EarlyAccrualKeepsNav(v: Vault, id: string, at: int)
    requires at <= v.clock
    ensures Nav(AccrueFacility(v, id, at)) == Nav(v)
  {
    if id in v.facilities {
      var l := v.facilities[id];
      var l' := Accrue(l, at).0;
      NavAfterFacility(v, id, l');
      if l.lastAccrualAt <= at {
        AccrualIsPathIndependent(l, at, v.clock);
      }
    }
  }
}
