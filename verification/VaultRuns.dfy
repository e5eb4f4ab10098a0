/** Every call the vault and its facilities take, as one step, and runs of them. */
module VaultRuns {
  import opened Vault

  datatype Op =
    | Depositing(lp: string, assets: int)
    | Withdrawing(lp: string, shares: int)
    | Donating(assets: int)
    | Ticking(at: int)
    | Opening(id: string, rateBps: int, capitalize: bool, at: int)
    | Drawing(id: string, at: int, amount: int)
    | Collecting(settlement: string, amount: int)
    | StartingLeg(settlement: string, amount: int)
    | Arriving(settlement: string, amount: int)
    | Repaying(id: string, at: int, amount: int, thirdParty: bool)
    | Funding(id: string, amount: int)
    | Impairing(id: string, amount: int)
    | WritingOff(id: string, at: int)
    | Recovering(id: string, at: int, amount: int)
    | Accruing(id: string, at: int)
    | ChangingRate(id: string, at: int, rateBps: int)
    | Charging(id: string, at: int, amount: int)

  ghost function Apply(v: Vault, op: Op): Vault {
    match op
    case Depositing(lp, assets) => Deposit(v, lp, assets).0
    case Withdrawing(lp, shares) => Withdraw(v, lp, shares).0
    case Donating(assets) => Donate(v, assets)
    case Ticking(at) => Tick(v, at).0
    case Opening(id, rateBps, capitalize, at) => OpenFacility(v, id, rateBps, capitalize, at)
    case Drawing(id, at, amount) => Draw(v, id, at, amount).0
    case Collecting(settlement, amount) => SourceReceipt(v, settlement, amount)
    case StartingLeg(settlement, amount) => StartLeg(v, settlement, amount).0
    case Arriving(settlement, amount) => DestinationReceipt(v, settlement, amount).0
    case Repaying(id, at, amount, thirdParty) => RepayFor(v, id, at, amount, thirdParty).0
    case Funding(id, amount) => FundReserve(v, id, amount)
    case Impairing(id, amount) => Impair(v, id, amount).0
    case WritingOff(id, at) => WriteOff(v, id, at).0
    case Recovering(id, at, amount) => Recover(v, id, at, amount).0
    case Accruing(id, at) => AccrueFacility(v, id, at)
    case ChangingRate(id, at, rateBps) => SetFacilityRate(v, id, at, rateBps)
    case Charging(id, at, amount) => ChargeFacilityFee(v, id, at, amount)
  }

  ghost function Run(v: Vault, ops: seq<Op>): Vault {
    if ops == [] then v else Apply(Run(v, ops[..|ops| - 1]), ops[|ops| - 1])
  }
}
