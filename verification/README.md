# Rackline: verified models

Rackline lends against GPU receivables and Bitcoin payouts. This project models the off-chain parts that its money and
its evidence rest on, and proves what they promise.

**Accounting.** A facility ledger accrues simple interest as an exact numerator over a list of rate segments, pays by
a fixed waterfall, and may capitalise on a draw. A vault pools the LPs' cash behind ERC-4626 style shares with a
virtual offset, lends it to facilities, receives it back through escrow and in-flight legs, impairs and writes off.
Both are given twice: as values with one function per operation (`Facility`, `Vault`), about which the theorems are
stated, and as the objects the source keeps (`FacilityLedger`, `VaultLedger`), whose methods are proved equal to those
functions, including what a call that raises leaves behind. `FacilityTerms` says what a loan costs on its terms,
`VaultPockets` when each call is accepted and whose cash is where.

**Jobs.** A durable queue of leased jobs with fencing tokens, retries, dead letters and audited resume (`Jobs`,
`JobRuns`, `JobQueue`), the worker that commits a handler's effect together with the completion, and the proof
requests whose status the jobs advance (`ProofLifecycle`). Runs are arbitrary interleavings of committed transactions
by any number of crashed, stale and renamed workers. Each call carries its own time, and times need not grow.

**Ingestion.** A collector commits provider pages one by one against a compare-and-set cursor (`Ingestion`,
`IngestionRuns`, `Collector`), and a backfill splits a range into overlapping chunks (`Backfill`). The collector's
method takes, for every page, what other collectors commit while it is in flight and whether it crashes before or
after its own commit.

**Bitcoin evidence.** Merkle roots and proofs (`Merkle`), the transaction output reader and the serialisation it
inverts (`TxParser`), the regrouping of bits in Bech32 addresses (`BitRegroup`), and building and locally checking a
payment proof (`Spv`, `SpvPayouts`). The pair hash is a parameter; where soundness needs it to be collision-free, the
statement says "or here is a collision".

**Asset rights.** The registry of GPUs, their identity keys, provider assignments, encumbrances, review flags and
partitions, with RMA replacement (`Registry`, `RegistryRuns`, `RegistryEffects`, `RegistryCalls`,
`RegistryEligibility`, `RegistryFinanciers`, `RegistryShortfalls`, `RegistryCollateral`, `AssetRegistry`).

## Where the code differs from what is written about it

- The impairment cap holds when `impair` is called and not afterwards. `VaultCap.CallKeepsCap` says for every call
  exactly when it survives: a payment beyond the fees and the exposure not impaired breaks it, and so does opening a
  facility over an impaired one. `VaultCap.RepaidImpairmentStands` and `VaultCap.ReopenedImpairmentStands` reach both
  from an empty vault.
- A payment that is refused after its cash was booked keeps the cash, and the tick
  (`VaultConservation.ConservedUnlessRaisedAfterBooking`, `VaultConservation.RefusedPaymentLeavesCash`).
- `docs/gpu/accounting.md` line 99 treats an unallocated receipt as a liability; the NAV counts it as the LPs' cash
  until it is allocated (`VaultShares.ArrivedCashCountsTwiceUntilAllocated`).
- `worker.py` lines 5-6 say another worker re-claims an expired lease. It does so exactly when attempts are left; a
  crash on the last attempt leaves a row nobody can move (`JobRuns.LastAttemptCrashIsStuck`).
- A wait that is only transient, NOT_READY or NETWORK_ERROR, already moves an observed request to WAITING_ATTESTATION,
  from which it may be fetched. `ProofLifecycle.WaitingStartsOnAnyWait` and `ProofLifecycle.StillObserved` give the
  exact condition, and `ProofLifecycle.OnItsWayWithoutASuccessfulWait` what it means for a run.
- A legacy transaction without inputs and with one output is read as segwit (`TxParser.MarkerSeen`).
- `assign_to_facility` says it refuses an asset whose parent or partition is financed elsewhere; it does not look at
  siblings. Two partitions of one GPU can be financed by two facilities
  (`RegistryShortfalls.SiblingsGetTwoFinanciers`), and one financier per GPU holds exactly while callers check the
  siblings themselves (`RegistryFinanciers.CallKeepsOneFinancier`,
  `RegistryFinanciers.OneFinancierWhileSiblingsChecked`).
- Replacing a partition drops its link to the GPU. The GPU then counts once more as collateral
  (`RegistryCollateral.ReplacementKeepsCollateral`), and the check on the GPU's partitions forgets the replaced one
  (`RegistryShortfalls.ReplacedPartitionIsForgotten`): GPU and replacement can end with two financiers, although each
  root has one (`RegistryShortfalls.ReplacedPartitionsGpuIsFinancedOnceMore`).
- An ownership review cannot reject an asset while it is eligible, because the table's check constraint raises
  (`RegistryShortfalls.ReviewIsRefusedWhileEligible`, reached by `RegistryShortfalls.EligibleAssetCannotBeRejected`).
  Raising a flag first lets the rejection through (`RegistryShortfalls.FlagUnblocksRejection`).

## Model

| member | source | states |
|---|---|---|
| RateSchedule.IntegralOfStretch | offchain/gpu/hashcredit_gpu/accounting/reference.py:109-118 | one stretch of the accrual loop, up to the next segment start, earns what the per-second sum over it says, for any segment list |
| RateSchedule.RateChangeIsForwardOnly | offchain/gpu/hashcredit_gpu/accounting/reference.py:121-127 | after a rate change every earlier second keeps its rate and every later one has the new rate until the next segment |
| Facility.AccrualIsPathIndependent | offchain/gpu/hashcredit_gpu/accounting/reference.py:103-119 | accruing in two steps is accruing in one, and reads the same ahead, for any segment list |
| Facility.AccrualFrequencyIsIrrelevant | offchain/gpu/hashcredit_gpu/accounting/reference.py:103-119 | any number of accruals at any times up to `at` leave the same ledger as one |
| Facility.ReadingAheadIsAccruing | offchain/gpu/hashcredit_gpu/accounting/reference.py:87-119 | `unpaid_interest_at(t)` is what accruing to `t` and reading gives |
| Facility.WaterfallIsTheOnlyOrder | offchain/gpu/hashcredit_gpu/accounting/reference.py:151-161 | the allocation is the only one that pays fees before interest before principal, overpays none, and adds up to the payment |
| Facility.RepaymentReducesDebt | offchain/gpu/hashcredit_gpu/accounting/reference.py:146-163 | legal debt falls by exactly amount minus excess, the sub-unit remainder is untouched, and excess is positive only when nothing is owed any more |
| Facility.RepaymentsCompose | offchain/gpu/hashcredit_gpu/accounting/reference.py:146-163 | two payments at one time are one payment of the sum |
| Facility.AnySplitIsOnePayment | offchain/gpu/hashcredit_gpu/accounting/reference.py:146-163 | any split of a payment into payments at one time ends in the same book with the same component totals |
| FacilityRuns.InterestIsConserved | offchain/gpu/hashcredit_gpu/accounting/reference.py:103-163 | over every run, accumulator plus interest paid and capitalised is the per-second charge on principal and rate in force while not frozen |
| FacilityRuns.RoundingStaysBelowOneUnit | offchain/gpu/hashcredit_gpu/accounting/reference.py:69-72 | over every run, all rounding together is under one unit, in the borrower's favour |
| FacilityRuns.HistoryExplainsTheBook | offchain/gpu/hashcredit_gpu/accounting/reference.py:121-163 | the history entries add up to the principal (with what was capitalised) and the fees, refused calls included |
| FacilityRuns.RunStaysSolvent | offchain/gpu/hashcredit_gpu/accounting/reference.py:86-163 | with non-negative rates and fees no balance ever goes negative |
| FacilityTerms.OpensAsAgreed | offchain/gpu/hashcredit_gpu/accounting/reference.py:48-67 | a facility opens owing nothing, on its terms, at its rate in every second |
| FacilityTerms.AYearEarnsItsRate | offchain/gpu/hashcredit_gpu/accounting/reference.py:23-25 | a year of 365 days at one rate earns that many basis points of the principal, rounded down |
| FacilityTerms.FirstYearOfALoan | offchain/gpu/hashcredit_gpu/accounting/reference.py:130-139 | a first draw owes nothing at once and a year's rate on it after a year |
| FacilityTerms.DrawFollowsTheTerms | offchain/gpu/hashcredit_gpu/accounting/reference.py:130-139 | a draw is accepted exactly when positive and not back in time; it adds to the principal the amount and, exactly when the terms say so, the unpaid interest |
| FacilityTerms.PrincipalIsExplained | offchain/gpu/hashcredit_gpu/accounting/reference.py:121-163 | over every run principal is what the history drew less what it repaid, plus interest compounded at accepted draws |
| FacilityTerms.NothingCompoundsUnlessAgreed | offchain/gpu/hashcredit_gpu/accounting/reference.py:130-139 | over every run with capitalisation off principal is drawn less repaid and nothing else |
| FacilityTerms.RateChangeFollowsTheTerms | offchain/gpu/hashcredit_gpu/accounting/reference.py:121-128 | an accepted rate change moves nothing owed; the new rate is in force from then on and the old before |
| FacilityTerms.FeeIsOwedOnce | offchain/gpu/hashcredit_gpu/accounting/reference.py:141-144 | an accepted fee is owed once and moves no other balance |
| FacilityTerms.WriteOffForgivesNothing | offchain/gpu/hashcredit_gpu/accounting/reference.py:326-329 | the marks of a write-off record principal and interest as they were, forgive neither and stop interest for good |
| FacilityLedger.FacilityLedger.CurrentRate | offchain/gpu/hashcredit_gpu/accounting/reference.py:79-84 | the loop finds the rate of the last listed segment that has started, or the first one's |
| FacilityLedger.FacilityLedger.UnpaidInterestAt | offchain/gpu/hashcredit_gpu/accounting/reference.py:87-101 | the loop reads the per-second integral without changing the ledger |
| FacilityLedger.FacilityLedger.Accrue | offchain/gpu/hashcredit_gpu/accounting/reference.py:103-119 | the loop adds the per-second integral; refuses to go back; only moves the clock when frozen |
| FacilityLedger.FacilityLedger.SetRate | offchain/gpu/hashcredit_gpu/accounting/reference.py:121-128 | accrues first, then replaces a segment with the same start and keeps the list in order |
| FacilityLedger.FacilityLedger.Borrow | offchain/gpu/hashcredit_gpu/accounting/reference.py:130-139 | accrues, capitalises whole units if the terms say so, adds the amount; a refusal leaves what the source leaves |
| FacilityLedger.FacilityLedger.AllocateRepayment | offchain/gpu/hashcredit_gpu/accounting/reference.py:146-163 | accrues and allocates; ledger and result are the waterfall's |
| FacilityLedger.FacilityLedger.ChargeFee | offchain/gpu/hashcredit_gpu/accounting/reference.py:141-144 | accrues first, then adds the fee and its history entry |
| FacilityLedger.FacilityLedger.MarkAsWrittenOff | offchain/gpu/hashcredit_gpu/accounting/reference.py:326-329 | the vault's marks on a written-off facility; the debt stays |
| Vault.NavAfterFacility | offchain/gpu/hashcredit_gpu/accounting/reference.py:188-204 | replacing one facility moves the NAV by the change of its own worth and its own live impairment |
| Vault.EarlyAccrualKeepsNav | offchain/gpu/hashcredit_gpu/accounting/reference.py:191-204 | accruing any facility early, up to the clock, leaves the NAV as it was |
| VaultPrice.PriceNeverFallsInOneCall | offchain/gpu/hashcredit_gpu/accounting/reference.py:203-256 | no call that recognises no loss lowers the cross-multiplied share price |
| VaultShares.PriceNeverFalls | offchain/gpu/hashcredit_gpu/accounting/reference.py:203-293 | over every run of deposits, withdrawals, donations, ticks, draws, third-party repayments, landings, recoveries, accruals, fees and rate changes the share price never falls |
| VaultShares.SharesStayBalanced | offchain/gpu/hashcredit_gpu/accounting/reference.py:216-236 | `total_shares` stays the sum of `shares_of` through every call |
| VaultShares.ClaimsNeverExceedPool | offchain/gpu/hashcredit_gpu/accounting/reference.py:210-214 | what all holders could redeem together never exceeds NAV plus the virtual asset, losses or not |
| VaultShares.RoundTripFavoursTheVault | offchain/gpu/hashcredit_gpu/accounting/reference.py:210-236 | shares bought are redeemed at once: the withdrawal is accepted, returns at most what was paid, and costs less than one share's worth and a unit |
| VaultShares.DonationAttackNeverPays | offchain/gpu/hashcredit_gpu/accounting/reference.py:210-241 | for every stake, donation and victim deposit (accepted or too small), and any number of virtual shares, the attacker's redemption is accepted and returns at most stake plus donation |
| VaultShares.ArrivedCashCountsTwiceUntilAllocated | offchain/gpu/hashcredit_gpu/accounting/reference.py:271-293 | cash received but not allocated is in the NAV beside the debt it will pay; allocating takes it back but for the fees |
| VaultShares.DepositMintsTheFloor | offchain/gpu/hashcredit_gpu/accounting/reference.py:216-224 | over any pool that is positive, a deposit is accepted exactly when it buys a share, and buys the whole shares its part of the pool comes to |
| VaultShares.WithdrawalPaysTheFloor | offchain/gpu/hashcredit_gpu/accounting/reference.py:226-236 | a holder's withdrawal is accepted exactly when it is within the holding and its floored claim within the cash; it pays the whole units the shares are worth, no fewer and no more, and burns the shares |
| VaultShares.OnlyHoldersRedeem | offchain/gpu/hashcredit_gpu/accounting/reference.py:227-228 | redeeming more than one holds is refused and changes nothing |
| VaultConservation.HoldingsAreConserved | offchain/gpu/hashcredit_gpu/accounting/reference.py:216-343 | over every run whatever, LP cash, reserves, refundables, escrow and in-flight cash are what came in less what went out, plus what calls booked before raising |
| VaultConservation.ConservedUnlessRaisedAfterBooking | offchain/gpu/hashcredit_gpu/accounting/reference.py:216-343 | one call conserves cash exactly when it does not raise after booking some |
| VaultConservation.CleanRunsConserve | offchain/gpu/hashcredit_gpu/accounting/reference.py:216-343 | positive payments into facilities not ahead of the clock, and withdrawals of positive amounts, never do, so such runs conserve exactly |
| VaultConservation.RefusedPaymentLeavesCash | offchain/gpu/hashcredit_gpu/accounting/reference.py:284-288 | a third-party payment refused for going back in time leaves its cash booked |
| VaultConservation.SharesStayAccountedFor | offchain/gpu/hashcredit_gpu/accounting/reference.py:216-236 | over every run without negative withdrawals the shares issued are the shares held |
| VaultLosses.WriteOffSettlesTheBook | offchain/gpu/hashcredit_gpu/accounting/reference.py:310-331 | a write-off lowers legal debt by exactly the reserve used with no excess, and moves NAV by fees collected, minus loss, plus impairment taken |
| VaultLosses.ImpairingFirstIsNoDifferent | offchain/gpu/hashcredit_gpu/accounting/reference.py:301-331 | a write-off ends in the same vault whether or not `impair` was called first |
| VaultLosses.ImpairmentLowersNavOnly | offchain/gpu/hashcredit_gpu/accounting/reference.py:301-308 | an impairment lowers NAV by its amount and changes no facility |
| VaultLosses.RecoveryAfterWriteOff | offchain/gpu/hashcredit_gpu/accounting/reference.py:333-343 | a recovery pays down debt that no longer grows, raises NAV by what is not excess, and the excess is what exceeds the debt |
| VaultCap.CallKeepsCap | offchain/gpu/hashcredit_gpu/accounting/reference.py:244-343 | for every call, impairments stay within exposure after it exactly when its payment was refused or within fees and unimpaired exposure, or the id it opens has no impairment |
| VaultCap.CapHoldsWhileChecked | offchain/gpu/hashcredit_gpu/accounting/reference.py:301-308 | over every run of calls with checked signs, the cap holds throughout exactly when every payment and opening was checked so |
| VaultCap.FreshVaultStaysCapped | offchain/gpu/hashcredit_gpu/accounting/reference.py:169-185 | the same from an empty vault on |
| VaultCap.RepaidImpairmentStands | offchain/gpu/hashcredit_gpu/accounting/reference.py:279-308 | a run from an empty vault, a loan impaired and then repaid, leaves nothing owed, all the cash back and the NAV at zero |
| VaultCap.ReopenedImpairmentStands | offchain/gpu/hashcredit_gpu/accounting/reference.py:244-247 | a run from an empty vault, a loan impaired and its id opened again, leaves nothing owed and a negative NAV |
| VaultNav.CallExplained | offchain/gpu/hashcredit_gpu/accounting/reference.py:203-343 | every call, refused ones and losses included, moves the NAV by its cash, interest, fees and recoveries, less its losses, and by nothing else |
| VaultNav.NavIsExplained | offchain/gpu/hashcredit_gpu/accounting/reference.py:203-343 | over every run the NAV is what it was plus cash flows, interest earned, fees and recoveries, less impairments and write-offs |
| VaultPockets.TickedExactly | offchain/gpu/hashcredit_gpu/accounting/reference.py:194-197 | the clock moves to the time given, exactly unless that is back |
| VaultPockets.DrawnExactly | offchain/gpu/hashcredit_gpu/accounting/reference.py:249-256 | a draw is paid out exactly when the facility is known, the cash there and neither clock passed; it is owed on that facility's terms and nothing else moves |
| VaultPockets.PaidExactly | offchain/gpu/hashcredit_gpu/accounting/reference.py:279-293 | a payment is accepted exactly when positive, its facility known and neither clock passed; debt falls by what is not handed back, and anything is handed back only once nothing is owed |
| VaultPockets.LegStartsExactly | offchain/gpu/hashcredit_gpu/accounting/reference.py:264-269 | a leg starts exactly when that settlement has as much in escrow |
| VaultPockets.LegArrivesExactly | offchain/gpu/hashcredit_gpu/accounting/reference.py:271-277 | cash arrives exactly when that settlement has as much in flight |
| VaultPockets.ImpairedExactly | offchain/gpu/hashcredit_gpu/accounting/reference.py:301-308 | an impairment is taken exactly within the exposure not impaired yet |
| VaultPockets.WrittenOffExactly | offchain/gpu/hashcredit_gpu/accounting/reference.py:310-331 | a write-off is made exactly for a known facility with neither clock passed; the reserve used, the losses reported and the losses recorded on the facility are one another's |
| VaultPockets.OpenedOnItsTerms | offchain/gpu/hashcredit_gpu/accounting/reference.py:244-247 | a facility opened under an id owes nothing, on its terms and rate; the rest of the vault stays |
| VaultPockets.FacilityCallsReachIt | offchain/gpu/hashcredit_gpu/accounting/reference.py:103-144 | accruing, charging and changing the rate of one facility reach that one alone, and do nothing back in time |
| VaultPockets.CallMovesItsPockets | offchain/gpu/hashcredit_gpu/accounting/reference.py:259-343 | a call moves the escrow, flight, refund and reserve of the keys it names by what it says, and of no other key |
| VaultPockets.EveryPocketIsItsOwnLedger | offchain/gpu/hashcredit_gpu/accounting/reference.py:180-184 | over every run each settlement's escrow and flight and each borrower's refunds and reserve are the sum of what calls moved for that one, and none is ever negative |
| VaultLedger.VaultLedger.Nav | offchain/gpu/hashcredit_gpu/accounting/reference.py:187-204 | the sums over facilities give the NAV of the book |
| VaultLedger.VaultLedger.Deposit | offchain/gpu/hashcredit_gpu/accounting/reference.py:216-224 | mints by the floor of the offset ratio or refuses; cash, total and holding move together |
| VaultLedger.VaultLedger.Withdraw | offchain/gpu/hashcredit_gpu/accounting/reference.py:226-236 | redeems by the floor of the offset ratio; refuses more than held or more than the cash |
| VaultLedger.VaultLedger.Draw | offchain/gpu/hashcredit_gpu/accounting/reference.py:249-256 | refuses beyond the cash, ticks, borrows on that facility object alone, pays out |
| VaultLedger.VaultLedger.RepayFor | offchain/gpu/hashcredit_gpu/accounting/reference.py:279-293 | books third-party cash, allocates on that facility object alone, sets the excess aside for its borrower |
| VaultLedger.VaultLedger.WriteOff | offchain/gpu/hashcredit_gpu/accounting/reference.py:310-331 | reserve first, then the rest off the performing book; that facility object alone changes |
| VaultLedger.VaultLedger.Recover | offchain/gpu/hashcredit_gpu/accounting/reference.py:333-343 | books the cash, allocates it, sets the excess aside |
| VaultLedger.VaultLedger.PerformingPrincipal | offchain/gpu/hashcredit_gpu/accounting/reference.py:188-189 | the sum over facilities that are not impaired, in whatever order they are visited |
| VaultLedger.VaultLedger.PerformingInterest | offchain/gpu/hashcredit_gpu/accounting/reference.py:191-192 | the same for interest read ahead to the clock |
| VaultLedger.VaultLedger.Impairment | offchain/gpu/hashcredit_gpu/accounting/reference.py:199-201 | the sum of impairments on facilities still performing |
| VaultLedger.VaultLedger.ConvertToShares | offchain/gpu/hashcredit_gpu/accounting/reference.py:210-211 | the floored offset ratio, for any sign of the NAV, or a division by zero |
| VaultLedger.VaultLedger.ConvertToAssets | offchain/gpu/hashcredit_gpu/accounting/reference.py:213-214 | the floored inverse ratio, or a division by zero |
| VaultLedger.VaultLedger.Donate | offchain/gpu/hashcredit_gpu/accounting/reference.py:238-241 | cash in, no shares, no debt |
| VaultLedger.VaultLedger.Tick | offchain/gpu/hashcredit_gpu/accounting/reference.py:194-197 | the clock never goes back |
| VaultLedger.VaultLedger.OpenFacility | offchain/gpu/hashcredit_gpu/accounting/reference.py:244-247 | a new facility object under the id; every other object keeps its book |
| VaultLedger.VaultLedger.SourceReceipt | offchain/gpu/hashcredit_gpu/accounting/reference.py:259-262 | escrow grows; cash and debt do not |
| VaultLedger.VaultLedger.StartLeg | offchain/gpu/hashcredit_gpu/accounting/reference.py:264-269 | moves escrow into flight, at most what is there |
| VaultLedger.VaultLedger.DestinationReceipt | offchain/gpu/hashcredit_gpu/accounting/reference.py:271-277 | moves in-flight cash to the vault, at most what is there |
| VaultLedger.VaultLedger.FundReserve | offchain/gpu/hashcredit_gpu/accounting/reference.py:296-298 | the borrower's reserve grows; nothing of the LPs' does |
| VaultLedger.VaultLedger.Impair | offchain/gpu/hashcredit_gpu/accounting/reference.py:301-308 | adds an impairment within the exposure not impaired yet |
| JobRuns.RunsStayValid | offchain/gpu/hashcredit_gpu/jobs/queue.py:174-368 | every interleaving keeps: one claim per attempt, attempts within the budget, a lease held by the last claim, an effect exactly on success and by the last claim, keys unique |
| JobRuns.RunsOnlyGrow | offchain/gpu/hashcredit_gpu/jobs/queue.py:219-368 | attempts and budgets never fall, granted claims and committed effects are never taken back, a succeeded job never changes |
| JobRuns.FencingHolds | offchain/gpu/hashcredit_gpu/jobs/queue.py:264-273 | a lease that is over never passes a fenced update again, through expiry, failure, re-claim, a reused worker name and resume |
| JobRuns.SupersededTokensNeverPass | offchain/gpu/hashcredit_gpu/jobs/queue.py:13-15 | a token superseded by a later claim never again passes, whatever the clock reads |
| JobRuns.AtMostOneHolds | offchain/gpu/hashcredit_gpu/jobs/queue.py:264-273 | of all claims of a job at most one passes the guard, whatever clocks the callers read |
| JobRuns.EveryJobTakesEffectOnce | offchain/gpu/hashcredit_gpu/jobs/worker.py:63-95 | from an empty table, under any crashes and stale workers, a job's handler commits at most once, and has exactly when it is SUCCEEDED |
| JobRuns.OneEffectPerKey | offchain/gpu/hashcredit_gpu/jobs/queue.py:174-215 | two jobs that took effect have different semantic keys |
| JobRuns.EnqueueIsIdempotent | offchain/gpu/hashcredit_gpu/jobs/queue.py:203-211 | enqueuing a key again returns the same id and inserts nothing |
| JobRuns.LeaseLastsUntilItsEnd | offchain/gpu/migrations/versions/0002_event_cash_job_ledgers.py:155-168 | a granted lease names its worker, its attempt and its end, and is that holder's, and nobody else's, up to its end and not beyond |
| JobRuns.RenewalMovesTheEnd | offchain/gpu/hashcredit_gpu/jobs/queue.py:275-283 | a renewed lease lasts to its new end and not beyond |
| JobRuns.ExpiredLeaseIsRetakenWithinBudget | offchain/gpu/migrations/versions/0002_event_cash_job_ledgers.py:158-165 | an expired lease is taken over exactly when attempts are left |
| JobRuns.LastAttemptCrashIsStuck | offchain/gpu/hashcredit_gpu/jobs/queue.py:233-238 | a lease expired on its last attempt is never claimed, failed, completed or resumed again in any run of later events |
| JobRuns.LastAttemptCrashHappens | offchain/gpu/hashcredit_gpu/jobs/queue.py:219-262 | one enqueue and one claim with a budget of one reach such a row |
| JobRuns.CanStillSucceed | offchain/gpu/hashcredit_gpu/jobs/queue.py:219-368 | every other job, however late, has a run that ends in SUCCEEDED |
| JobRuns.DeadOnlyLeavesByResume | offchain/gpu/hashcredit_gpu/jobs/queue.py:326-368 | only an audited resume changes a dead job |
| JobRuns.ResumeGivesAFreshToken | offchain/gpu/hashcredit_gpu/jobs/queue.py:341-350 | a resumed job has its whole budget again and is granted under a token above every earlier one |
| JobRuns.FailureFollowsTheRowsBudget | offchain/gpu/hashcredit_gpu/jobs/queue.py:297-322 | a holder's failure is dead-lettered exactly when terminal or the row's own budget is spent, and otherwise runnable from now plus the delay and not before |
| JobRuns.EnqueueRefusesOrInserts | offchain/gpu/hashcredit_gpu/jobs/queue.py:174-215 | a job is inserted exactly with a key and a budget, under a free id and a new key; a call fails exactly on a missing key or budget or a taken id |
| JobRuns.NewJobIsAsAsked | offchain/gpu/hashcredit_gpu/jobs/queue.py:189-201 | an inserted row has the kind, key and budget asked for, is untried and unleased, can be leased at t exactly from its start on, and every other row stays |
| JobRuns.BudgetIsSpentExactly | offchain/gpu/hashcredit_gpu/jobs/queue.py:297-322 | after n passing failures a job is still runnable exactly while n is below its budget, and dead at its budget |
| JobRuns.NewJobHasItsBudget | offchain/gpu/hashcredit_gpu/jobs/queue.py:174-215 | a new job dies of passing failures exactly at the attempt it was enqueued for |
| JobRuns.HeldExactly | offchain/gpu/hashcredit_gpu/jobs/queue.py:264-273 | the guard passes exactly the worker and attempt the row is leased to, while the lease lasts |
| JobRuns.CompletedExactly | offchain/gpu/hashcredit_gpu/jobs/queue.py:285-295 | a completion is accepted exactly under the lease, and leaves the row succeeded, unleased, without error, its attempts and budget as they were, with one effect more |
| JobRuns.FailureKeepsItsReason | offchain/gpu/hashcredit_gpu/jobs/queue.py:299-311 | the recorded error is the kind, the reason cut at 2000 characters, and a mark exactly when transient failures have spent the budget |
| JobRuns.ResumeNeedsAReason | offchain/gpu/hashcredit_gpu/jobs/queue.py:326-333 | a dead job is resumed exactly by a named actor in a known role with a reason that is more than white space |
| JobQueue.JobQueue.Enqueue | offchain/gpu/hashcredit_gpu/jobs/queue.py:174-215 | one row per semantic key, found by searching the table |
| JobQueue.JobQueue.Select | offchain/gpu/hashcredit_gpu/jobs/queue.py:233-240 | runnable jobs of the given kinds and ids, soonest first, as many as asked, none sooner left out |
| JobQueue.JobQueue.LeaseFirst | offchain/gpu/hashcredit_gpu/jobs/queue.py:241-262 | over a possibly stale list, wins the first row still leasable, and none only when none is |
| JobQueue.JobQueue.Claim | offchain/gpu/hashcredit_gpu/jobs/queue.py:219-262 | grants exactly when some job is runnable, and then the soonest |
| JobQueue.JobQueue.FencedUpdate | offchain/gpu/hashcredit_gpu/jobs/queue.py:264-273 | changes one row, only under the caller's own live lease |
| JobQueue.JobQueue.Fail | offchain/gpu/hashcredit_gpu/jobs/queue.py:297-322 | records the failure under the fence and reports the state it left |
| JobQueue.JobQueue.Resume | offchain/gpu/hashcredit_gpu/jobs/queue.py:326-368 | refuses without actor, known role and a reason that is not blank; revives a dead job only |
| JobQueue.Worker.RunOne | offchain/gpu/hashcredit_gpu/jobs/worker.py:63-95 | reports success exactly when the effect committed under a live lease; any other end commits no effect |
| JobQueue.Worker.RunOnce | offchain/gpu/hashcredit_gpu/jobs/worker.py:97-102 | does nothing exactly when nothing is runnable, else runs one claim to one of its outcomes |
| JobQueue.JobQueue.LeaseJob | offchain/gpu/migrations/versions/0002_event_cash_job_ledgers.py:155-168 | the check and the increment in one step, for the caller that wins the row |
| JobQueue.JobQueue.RenewLease | offchain/gpu/hashcredit_gpu/jobs/queue.py:275-283 | moves the end of a lease still held |
| JobQueue.JobQueue.Complete | offchain/gpu/hashcredit_gpu/jobs/queue.py:285-295 | marks success and commits the effect, under the fence |
| JobQueue.Worker.RecordFailure | offchain/gpu/hashcredit_gpu/jobs/worker.py:90-95 | a failure whose lease is lost records nothing |
| JobQueue.CandidatesAreRunnable | offchain/gpu/hashcredit_gpu/jobs/queue.py:233-240 | what is tried is exactly what is neither done nor dead, due, within its budget, of the kinds and ids asked for, and not under a live lease |
| JobQueue.SoonerComesFirst | offchain/gpu/hashcredit_gpu/jobs/queue.py:238 | of two jobs the one due sooner comes first, then the smaller id |
| JobQueue.OutcomeDecidesTheState | offchain/gpu/hashcredit_gpu/jobs/worker.py:63-95 | how a handler ends decides the row: succeeded with its effect, dead, retried after the delay, or untouched on a lost lease; no other row changes |
| ProofLifecycle.StatusIsAlwaysEvidenced | offchain/gpu/migrations/versions/0002_event_cash_job_ledgers.py:45-78 | over every run a status never claims rows that are not there |
| ProofLifecycle.StatusOnlyMovesForward | offchain/gpu/hashcredit_gpu/jobs/proof.py:112-150 | rank never falls, a closed request never changes |
| ProofLifecycle.AcceptedKindsFollowTheRoute | offchain/gpu/hashcredit_gpu/jobs/proof.py:51-75 | over every run accepted outcomes are waits followed by fetch, submit, confirm, consume in that order, each at most once, as far as the status says |
| ProofLifecycle.ConsumedOnlyByTheWholeRoute | offchain/gpu/hashcredit_gpu/jobs/proof.py:1-17 | CONSUMED means all four succeeded, once each, and artifact, accepted verification and consumption are on record |
| ProofLifecycle.NextKindCanStart | offchain/gpu/hashcredit_gpu/jobs/proof.py:51-75 | the kind scheduled next can start from the status just reached, its success takes the request exactly one step further, and none follows the end |
| ProofLifecycle.FailuresAreRecorded | offchain/gpu/hashcredit_gpu/jobs/proof.py:139-150 | a failure on an open request is recorded with its error and the status of its outcome, what the handler wrote is gone, and the job fails terminally exactly when the request closes |
| ProofLifecycle.ProofRequests.ApplyOutcome | offchain/gpu/hashcredit_gpu/jobs/proof.py:111-150 | updates the one request as the tables say, or raises |
| ProofLifecycle.WaitingStartsOnAnyWait | offchain/gpu/hashcredit_gpu/jobs/proof.py:127-141 | an observed request starts waiting exactly on a wait that is done or transient, a network error included |
| ProofLifecycle.StillObserved | offchain/gpu/hashcredit_gpu/jobs/proof.py:112-150 | over every run a request is still observed exactly when no wait was done or transient and no outcome terminal |
| ProofLifecycle.OnItsWayWithoutASuccessfulWait | offchain/gpu/hashcredit_gpu/jobs/proof.py:139-141 | over every run a request on its way that never had a wait accepted had one that was transient |
| ProofLifecycle.NoSuccessfulWaitNeeded | offchain/gpu/hashcredit_gpu/jobs/proof.py:139-141 | after any transient wait the whole route to CONSUMED is open without a successful one |
| ProofLifecycle.RecordsAreAcceptedOutcomes | offchain/gpu/hashcredit_gpu/jobs/proof.py:116-150 | over every run the rows on record are exactly those of accepted handlers, and the attempts are accepted outcomes plus failures reported while open |
| ProofLifecycle.AcceptedExactly | offchain/gpu/hashcredit_gpu/jobs/proof.py:112-136 | a handler's success is accepted exactly from its kind's starting status with the rows that status needs on record |
| ProofLifecycle.StatusShowsItsRows | offchain/gpu/migrations/versions/0002_event_cash_job_ledgers.py:45-78 | over every run: nothing ready without an artifact, nothing accepted without an accepted verification, nothing consumed without a consumption |
| IngestionRuns.StoredExactlyOnce | offchain/gpu/hashcredit_gpu/ingestion/collector.py:247-258 | in any run of crashing and racing collectors the rows and outbox events are exactly the committed observations, once each |
| IngestionRuns.CompletedWindowIsOnePass | offchain/gpu/hashcredit_gpu/ingestion/collector.py:229-268 | the commits that end a window are that window's clean pass, in order |
| IngestionRuns.PassIsUnique | offchain/gpu/hashcredit_gpu/ingestion/collector.py:229-268 | a window has only one clean pass |
| IngestionRuns.NoGap | offchain/gpu/hashcredit_gpu/ingestion/collector.py:211-228 | in any run, every instant from the initial start to the high-water mark lies in a poll window read to its end |
| IngestionRuns.NothingIsMissed | offchain/gpu/hashcredit_gpu/ingestion/collector.py:1-16 | in any run, every observation dated from the initial start to the high-water mark is stored, if clean passes leave none out |
| IngestionRuns.HighWaterNeverGoesBack | offchain/gpu/hashcredit_gpu/ingestion/cursors.py:136-143 | a poll's high-water mark never goes back and its commits are never taken back |
| IngestionRuns.PollProgresses | offchain/gpu/hashcredit_gpu/ingestion/collector.py:217-224 | with no window in flight a poll fetches exactly when there is time to cover and a window is longer than its overlap |
| IngestionRuns.OnlyOneOfTwoRacersCommits | offchain/gpu/hashcredit_gpu/ingestion/collector.py:247-254 | of two collectors holding one cursor the second commits only if the first left it unchanged |
| IngestionRuns.CompletedWindowIsStored | offchain/gpu/hashcredit_gpu/ingestion/collector.py:229-268 | a window read to its end has all its observations stored |
| IngestionRuns.PollWindowIsBounded | offchain/gpu/hashcredit_gpu/ingestion/collector.py:217-228 | a new poll window starts one overlap before the mark, passes the mark, ends at or before `until`, is at most the maximum long, and meets one of the two bounds |
| IngestionRuns.WindowInFlightIsResumed | offchain/gpu/hashcredit_gpu/ingestion/collector.py:211-215 | a window in flight is resumed at its page with its own end, whatever `until` has become |
| IngestionRuns.ChunkWindowIsTheChunk | offchain/gpu/hashcredit_gpu/ingestion/collector.py:217-228 | a new pass over a chunk is over exactly the chunk |
| IngestionRuns.FirstOpeningCounts | offchain/gpu/hashcredit_gpu/ingestion/cursors.py:93-124 | over every run a feed keeps the start and overlap it was first opened with |
| IngestionRuns.MarkNeverPassesWhatWasAsked | offchain/gpu/hashcredit_gpu/ingestion/collector.py:211-228 | over every run of racing polls mark and window in flight stay within the old ones and what the polls were told to go up to |
| Collector.Collector.StorePage | offchain/gpu/hashcredit_gpu/ingestion/collector.py:279-348 | inserts and announces what is not there yet, and counts it |
| Collector.Collector.Collect | offchain/gpu/hashcredit_gpu/ingestion/collector.py:199-268 | whatever others commit and wherever it crashes, its database is that of a run of committed transactions; if it finishes, its window is read to the end or reported as a gap; alone, its counts and tokens are those of the pages it committed; undisturbed, it finishes or commits a page at every turn |
| Collector.Collector.CollectWindow | offchain/gpu/hashcredit_gpu/ingestion/collector.py:186-195 | on its own cursor, reads its own window to the end or reports it, even when it resumes an interrupted one; refuses exactly a window that ends before it starts; undisturbed it finishes or commits a page at every turn |
| Collector.Collector.CommitFetched | offchain/gpu/hashcredit_gpu/ingestion/collector.py:247-256 | compares the cursor, stores the page, moves the cursor, or changes nothing |
| Collector.Collector.Poll | offchain/gpu/hashcredit_gpu/ingestion/collector.py:161-184 | opens the feed's cursor at the initial start or resumes it, refusing to invent a start; found nothing new, read its window to the end, or reported it as a gap; undisturbed it does one of the first two or commits a page at every turn it lives for; alone it counts exactly the pages it committed, and leaves mark and window in flight within the old ones and min(until, now) |
| Collector.PollsNoFurtherThanNow | offchain/gpu/hashcredit_gpu/ingestion/collector.py:173-174 | a poll goes up to what it was asked for, but not into the future |
| Collector.FirstPollStartsAtTheStart | offchain/gpu/hashcredit_gpu/ingestion/collector.py:175-184 | the first poll of a feed starts one overlap before the start given, and goes no further than asked or than one window |
| Backfill.ChunksCoverTheRange | offchain/gpu/hashcredit_gpu/ingestion/backfill.py:34-42 | the chunks cover every instant of the range |
| Backfill.ChunksOverlap | offchain/gpu/hashcredit_gpu/ingestion/backfill.py:36-41 | chunks stay inside the range, are at most a chunk and its overlap long, end one chunk after another and begin one overlap before the previous end, so no two share a cursor |
| Backfill.BackfillAccount | offchain/gpu/hashcredit_gpu/ingestion/backfill.py:20-42 | refuses exactly the two bad inputs; when it returns, each chunk is read to its end or on record as a gap; undisturbed it leaves no gap and fails only for running out of turns |
| Backfill.BackfillStoresTheRange | offchain/gpu/hashcredit_gpu/ingestion/backfill.py:1-10 | a backfill without gaps has stored every observation of its range |
| Merkle.ComputeRoot | offchain/prover/hashcredit_prover/bitcoin.py:132-154 | the loop's root, or an error for no transactions |
| Merkle.RootIsTheTop | offchain/prover/hashcredit_prover/bitcoin.py:132-154 | the loop's root is the top node of the tree defined from the top down |
| Merkle.GenerateProof | offchain/prover/hashcredit_prover/bitcoin.py:157-189 | the loop's proof and root, or an error for an empty list or an index out of range |
| Merkle.ProofIsThePath | offchain/prover/hashcredit_prover/bitcoin.py:173-187 | a proof's entries are, level by level, the partners of the nodes on the way up, as many as the tree is high |
| Merkle.HeightIsLogarithmic | offchain/prover/hashcredit_prover/bitcoin.py:143-152 | the tree's height is that of the least power of two holding the leaves |
| Merkle.GeneratedProofVerifies | offchain/prover/hashcredit_prover/bitcoin.py:157-208 | for every non-empty list and index in range the generated proof verifies against the computed root |
| Merkle.VerifiedProofIsGenuine | offchain/prover/hashcredit_prover/bitcoin.py:192-208 | a verifying proof of the tree's height is the generated one for the transaction at that index, or two 64-byte strings collide |
| Merkle.VerificationDecidesMembership | offchain/prover/hashcredit_prover/bitcoin.py:192-208 | without collisions a transaction is at an index exactly when some proof of the tree's height verifies there |
| Merkle.VerifyProof | offchain/prover/hashcredit_prover/bitcoin.py:192-208 | the loop climbs from the transaction and compares with the root |
| Merkle.HashPairs | offchain/prover/hashcredit_prover/bitcoin.py:144-152 | one level: an odd one repeats its last node, then neighbours are hashed in pairs |
| Merkle.ServiceGenerateProof | offchain/api/hashcredit_api/proof.py:139-171 | the second copy's loop for every integer index: no range check, negative positions read from the end, a sibling beyond the level left out |
| Merkle.CopiesAgreeExactlyInRange | offchain/api/hashcredit_api/proof.py:139-171 | the two copies agree on an index exactly when it is in range, or there is nothing to index |
| Merkle.ServiceRaisesBelowTheLevel | offchain/api/hashcredit_api/proof.py:157-160 | the second copy raises exactly for an index further below zero than the padded list is long |
| TxParser.VarintReadsBack | offchain/api/hashcredit_api/btc_signmessage.py:34-43 | every number that can be encoded reads back as itself wherever it stands |
| TxParser.ParseTxOutputs | offchain/prover/hashcredit_prover/bitcoin.py:227-258 | the loops meet the reader's specification, index errors and cut slices included |
| TxParser.ServiceParseTxOutputs | offchain/api/hashcredit_api/proof.py:80-112 | the second copy meets the same specification, so the copies agree on every input, errors included |
| TxParser.VarintCopiesAgree | offchain/api/hashcredit_api/proof.py:67-77 | offset and bytes-consumed copies of the number reader agree |
| TxParser.ParseInvertsSerialize | offchain/prover/hashcredit_prover/bitcoin.py:227-258 | reading inverts serialising, legacy and BIP 144, for any number of inputs and outputs, unless a legacy transaction has no inputs and exactly one output |
| TxParser.MarkerSeen | offchain/prover/hashcredit_prover/bitcoin.py:233-235 | the marker branch is taken exactly for segwit transactions and legacy ones with no inputs and one output |
| TxParser.LegacyWithoutInputsIsMisread | offchain/prover/hashcredit_prover/bitcoin.py:233-235 | such a transaction, with one empty output, reads as having none |
| TxParser.LegacyWithoutInputsMayMatch | offchain/prover/hashcredit_prover/bitcoin.py:233-258 | another such transaction reads correctly by accident of its value and lock time |
| BitRegroup.ConvertBits | offchain/prover/hashcredit_prover/address.py:89-112 | the loop gives the same number in digits of the other width, padded, or unpadded with less than a digit of zero bits dropped, or None |
| BitRegroup.ReadKeepsBalance | offchain/prover/hashcredit_prover/address.py:97-101 | the mask never drops a bit still to be written |
| BitRegroup.RegroupingInverts | offchain/prover/hashcredit_prover/address.py:89-112 | padding to narrow digits and unpadding are inverse, and the strings accepted unpadded are exactly those padding produces |
| Spv.ReadHeaderWritesBack | offchain/prover/hashcredit_prover/bitcoin.py:79-103 | writing a header that was read gives back its 80 bytes |
| Spv.WrittenHeaderReadsBack | offchain/prover/hashcredit_prover/bitcoin.py:79-103 | reading a header that was written gives back the header |
| Spv.BuiltHeightsAreRight | offchain/prover/hashcredit_prover/proof_builder.py:174-195 | headers run from checkpoint plus one to tip, the block index points at the target's header, confirmations are tip minus target plus one, at least six |
| Spv.BuiltProofVerifies | offchain/prover/hashcredit_prover/proof_builder.py:146-317 | a built proof passes the local check exactly when the node's headers are linked |
| Spv.VerifyProofLocally | offchain/prover/hashcredit_prover/proof_builder.py:272-317 | the header loop and the Merkle check, with the errors malformed headers raise |
| Spv.CheckChainDecidesLinked | offchain/prover/hashcredit_prover/proof_builder.py:293-303 | the loop over headers says yes exactly to well-formed headers that each name the hash of the one before |
| Spv.PassingProofShowsMembership | offchain/prover/hashcredit_prover/proof_builder.py:272-317 | a passing proof shows its transaction at its index of the block whose root the header carries, or a collision |
| SpvPayouts.ScriptReadsBack | offchain/prover/hashcredit_prover/bitcoin.py:261-285 | a key hash and type are read exactly from the script that pays to them |
| SpvPayouts.PayoutIsTheOutput | offchain/prover/hashcredit_prover/proof_builder.py:210-221 | from any serialised transaction, a payout is found exactly when the index points at an output paying to a key hash, and is that output's value, hash and type |
| SpvPayouts.BuiltExactly | offchain/prover/hashcredit_prover/proof_builder.py:146-270 | a proof is built exactly with the target after the checkpoint, six confirmations, the transaction under its id, a payable output, and the block's root over its ids |
| SpvPayouts.BuiltSaysWhatTheNodeSaid | offchain/prover/hashcredit_prover/proof_builder.py:236-270 | heights, ids, time and position in a built proof are the node's |
| SpvPayouts.BuiltPaysTheOutput | offchain/prover/hashcredit_prover/proof_builder.py:204-270 | a proof built for a serialised transaction names the value of the output and the key hash in its script |
| RegistryRuns.RunsStayOk | offchain/gpu/hashcredit_gpu/assets/registry.py:119-387 | every operation keeps the registry's relations |
| RegistryRuns.FinancingKeeps | offchain/gpu/hashcredit_gpu/assets/encumbrance.py:145-173 | financing keeps all of it, by the eligibility check over parent and partitions |
| RegistryRuns.ReplacementKeeps | offchain/gpu/hashcredit_gpu/assets/registry.py:309-387 | an RMA replacement keeps all of it, refused or not |
| RegistryRuns.KeysAssignmentsAndRightsStaySingle | offchain/gpu/hashcredit_gpu/assets/registry.py:1-7 | in every run an active key names one asset, an asset has at most one open assignment and one financing right of its own, a retired one none of the three, a GPU and its partition never different financiers, and an eligible asset is active, verified and unflagged |
| RegistryEffects.ReplacementMovesKeys | offchain/gpu/hashcredit_gpu/assets/registry.py:350-368 | after a replacement the new asset carries exactly the moved and new keys, the old one none, every other what it did |
| RegistryEffects.ReplacementMovesRights | offchain/gpu/hashcredit_gpu/assets/registry.py:372-387 | the new asset is live on the account and financed by the facility and under the kind of right the old one was, the old one no longer |
| RegistryEffects.RegistrationAddsTheAsset | offchain/gpu/hashcredit_gpu/assets/registry.py:159-175 | a created asset is as described, carries exactly its keys and is live on the account given; nothing else moves |
| RegistryEffects.PartitionJoinsItsGpu | offchain/gpu/hashcredit_gpu/assets/registry.py:183-199 | a partition belongs to its GPU and carries exactly its keys |
| RegistryEffects.RekeyingSwapsOneKey | offchain/gpu/hashcredit_gpu/assets/registry.py:281-306 | a key change swaps one key on one asset |
| RegistryCalls.RolesAreChecked | offchain/gpu/hashcredit_gpu/assets/roles.py:8-18 | a call that changes anything was made in a role that may: operators and the system register, underwriters review, resolve, finance and release |
| RegistryCalls.KeysCanBeAdded | offchain/gpu/hashcredit_gpu/assets/registry.py:170-172 | keys can be added exactly when they differ from each other and no asset carries one |
| RegistryCalls.KeysCanBeMoved | offchain/gpu/hashcredit_gpu/assets/registry.py:351-364 | keys can be moved exactly when they differ from each other and the old asset carries them all |
| RegistryCalls.PartitionedExactly | offchain/gpu/hashcredit_gpu/assets/registry.py:183-199 | a partition is created exactly under an active physical GPU, under a new id and keys nobody carries |
| RegistryCalls.CreatedExactly | offchain/gpu/hashcredit_gpu/assets/registry.py:139-175 | an asset is created exactly with keys that nobody carries, a new id, units, and a known account if one is given |
| RegistryCalls.RekeyedExactly | offchain/gpu/hashcredit_gpu/assets/registry.py:281-306 | a key is changed exactly on an active asset that carries the old one, to one that nobody else carries |
| RegistryCalls.AssignedExactly | offchain/gpu/hashcredit_gpu/assets/registry.py:223-264 | an asset goes live exactly when active, live nowhere and the account known; every other asset stays where it was |
| RegistryCalls.LiveElsewhereIsFlagged | offchain/gpu/hashcredit_gpu/assets/registry.py:244-253 | an asset is flagged instead exactly when it is live on another account, and loses its eligibility |
| RegistryCalls.EndedExactly | offchain/gpu/hashcredit_gpu/assets/registry.py:267-275 | an assignment ends exactly when there is one; every other asset stays where it was |
| RegistryCalls.FlagIsResolved | offchain/gpu/hashcredit_gpu/assets/registry.py:93-104 | exactly an open flag is closed by exactly an underwriter, and eligibility does not come back |
| RegistryCalls.ReviewIsRecorded | offchain/gpu/hashcredit_gpu/assets/registry.py:393-412 | an accepted review is an underwriter's and well-formed, and records verdict and ownership and nothing else |
| RegistryCalls.ConsentIsRecorded | offchain/gpu/hashcredit_gpu/assets/encumbrance.py:88-97 | a document is on file exactly for a known asset, and decides nothing |
| RegistryCalls.RightIsRecorded | offchain/gpu/hashcredit_gpu/assets/encumbrance.py:51-85 | a third party's right is recorded as given exactly for a known asset under a new id, the asset flagged for it and no longer eligible |
| RegistryCalls.RightIsReleased | offchain/gpu/hashcredit_gpu/assets/encumbrance.py:176-186 | a release closes the one right it names, and is accepted exactly when that is open |
| RegistryCalls.ReplacedExactly | offchain/gpu/hashcredit_gpu/assets/registry.py:326-387 | an asset is replaced exactly when active, its replacement new, the moved keys its own, the new ones nobody's, its assignment and right can be opened again, and carrying is asked for if it is financed; a refusal changes nothing |
| RegistryCalls.ReplacementTakesItsPlace | offchain/gpu/hashcredit_gpu/assets/registry.py:336-370 | the replacement is what the old asset was but for its parent, and not eligible; the old one is retired; every other asset stays |
| RegistryCalls.DerivedIdsTellAssetsApart | offchain/gpu/hashcredit_gpu/assets/registry.py:178-180 | derived ids are 26 characters long, end in their tag, and differ exactly when the assets' ids do before it |
| RegistryEligibility.EligibleExactly | offchain/gpu/hashcredit_gpu/assets/encumbrance.py:111-142 | an asset is eligible for a facility exactly when active, verified, of known ownership, with consent if leased, under no open flag and no third party's open claim, and neither it nor its GPU nor its partitions are under another facility's right |
| RegistryEligibility.DecisionIsRecorded | offchain/gpu/hashcredit_gpu/assets/encumbrance.py:139-142 | deciding records exactly that on the asset and touches nothing else |
| RegistryEligibility.FinancedExactly | offchain/gpu/hashcredit_gpu/assets/encumbrance.py:145-173 | an asset is financed exactly when an underwriter asks for a known facility, the asset is free for it and not financed, and the id is new; one row is added |
| RegistryEligibility.NothingEncumberedIsFinanced | offchain/gpu/hashcredit_gpu/assets/encumbrance.py:111-173 | in every run what is financed is reviewed, documented, unflagged and under no third party's lien, pledge or assignment |
| RegistryEligibility.OnlyDecisionsMakeEligible | offchain/gpu/hashcredit_gpu/assets/registry.py:393-396 | only a decision on the asset, or financing it, makes it eligible |
| RegistryEligibility.OnlyRecordingAddsClaims | offchain/gpu/hashcredit_gpu/assets/encumbrance.py:51-85 | only recording one adds a third party's claim, and its asset is then not eligible |
| RegistryEligibility.CallKeepsEligibleClear | offchain/gpu/hashcredit_gpu/assets/encumbrance.py:51-142 | every call keeps: no eligible asset is under a third party's claim |
| RegistryEligibility.EligibleStaysClear | offchain/gpu/hashcredit_gpu/assets/encumbrance.py:51-142 | so does every run |
| RegistryFinanciers.CallKeepsOneFinancier | offchain/gpu/hashcredit_gpu/assets/encumbrance.py:111-208 | for every call, all open financing rights under one root name one facility after it exactly when an accepted financing of a partition found its siblings financed by nobody else |
| RegistryFinanciers.OneFinancierWhileSiblingsChecked | offchain/gpu/hashcredit_gpu/assets/encumbrance.py:129-138 | over every run each root has one financier throughout exactly when the siblings were checked at every financing |
| RegistryFinanciers.ReplacementKeepsFinancingCount | offchain/gpu/hashcredit_gpu/assets/encumbrance.py:189-208 | a replacement, refused or not, never changes how many financing rights are open |
| RegistryFinanciers.OpenRightsAreCounted | offchain/gpu/hashcredit_gpu/assets/encumbrance.py:145-186 | over every run the open financing rights are those there were, plus accepted financings, less releases of one |
| RegistryShortfalls.SiblingsGetTwoFinanciers | offchain/gpu/hashcredit_gpu/assets/encumbrance.py:131-138 | a run from an empty registry ends with two partitions of one GPU financed by two facilities |
| RegistryShortfalls.ReplacedPartitionIsForgotten | offchain/gpu/hashcredit_gpu/assets/registry.py:336-347 | after any accepted replacement, the check on a GPU's partitions is the check there was on all of them but the one replaced |
| RegistryShortfalls.ReplacedPartitionsGpuIsFinancedOnceMore | offchain/gpu/hashcredit_gpu/assets/registry.py:336-387 | a run from an empty registry ends with a GPU and the replacement of its partition financed by two facilities |
| RegistryShortfalls.ReviewIsRefusedWhileEligible | offchain/gpu/hashcredit_gpu/db/models.py:210-214 | a well-formed review of a known asset is refused exactly when the asset is eligible and the verdict is a rejection |
| RegistryShortfalls.EligibleAssetCannotBeRejected | offchain/gpu/hashcredit_gpu/assets/registry.py:393-412 | three calls from an empty registry reach an eligible asset whose rejection raises and records nothing |
| RegistryShortfalls.FlagUnblocksRejection | offchain/gpu/hashcredit_gpu/assets/registry.py:83-90 | raising any flag first lets the rejection through |
| RegistryCollateral.CollateralUnits | offchain/gpu/hashcredit_gpu/assets/registry.py:202-217 | the loops end, and give each root once at its own count, zero when retired; an unknown id raises |
| RegistryCollateral.ListedTwiceCountsOnce | offchain/gpu/hashcredit_gpu/assets/registry.py:202-217 | listing an asset again, or a partition of one listed, adds nothing |
| RegistryCollateral.FamilyCountsOnce | offchain/gpu/hashcredit_gpu/assets/registry.py:202-217 | any listing of a GPU and its partitions is worth the GPU's units once |
| RegistryCollateral.ReplacementKeepsCollateral | offchain/gpu/hashcredit_gpu/assets/registry.py:336-347 | a replacement keeps what a listing is worth exactly when the replaced asset has no parent |
| RegistryCollateral.DuplicateListingCreatesNothing | offchain/gpu/hashcredit_gpu/assets/registry.py:143-158 | registering an active key creates nothing; the asset it names is flagged and loses eligibility |
| RegistryCollateral.FindRoot | offchain/gpu/hashcredit_gpu/assets/registry.py:210-212 | the loop up the parents ends at the root |
| AssetRegistry.AssetRegistry.ReplaceAsset | offchain/gpu/hashcredit_gpu/assets/registry.py:309-387 | moves keys, assignment and right row by row; an error anywhere leaves the tables as they were |
| AssetRegistry.AssetRegistry.RegisterAsset | offchain/gpu/hashcredit_gpu/assets/registry.py:119-175 | flags a duplicate or creates the asset with keys and assignment; an error leaves nothing behind |
| AssetRegistry.AssetRegistry.Reasons | offchain/gpu/hashcredit_gpu/assets/encumbrance.py:111-142 | no reason is listed exactly when nothing stands in the way |
| AssetRegistry.AssetRegistry.AssignToFacility | offchain/gpu/hashcredit_gpu/assets/encumbrance.py:145-173 | finances only an eligible asset not financed yet; a refusal leaves eligibility as it was |
| AssetRegistry.InsertKeys | offchain/gpu/hashcredit_gpu/assets/registry.py:170-172 | inserts keys one by one until the unique index refuses one |
| AssetRegistry.MoveKeyRows | offchain/gpu/hashcredit_gpu/assets/registry.py:351-364 | retires each moved key on the old asset and issues it on the new one, or finds it missing |
| AssetRegistry.RetireKeyRows | offchain/gpu/hashcredit_gpu/assets/registry.py:367-368 | no key stays active on the retired asset, and no other row changes |
| AssetRegistry.AssetRegistry.RaiseFlag | offchain/gpu/hashcredit_gpu/assets/registry.py:83-90 | adds an open flag and drops eligibility |
| AssetRegistry.AssetRegistry.ResolveFlag | offchain/gpu/hashcredit_gpu/assets/registry.py:93-104 | an underwriter closes an open flag; eligibility does not come back by it |
| AssetRegistry.AssetRegistry.RegisterPartition | offchain/gpu/hashcredit_gpu/assets/registry.py:183-199 | only under an active physical GPU |
| AssetRegistry.AssetRegistry.AssignProvider | offchain/gpu/hashcredit_gpu/assets/registry.py:223-264 | opens the assignment, or flags an asset live elsewhere and opens none |
| AssetRegistry.AssetRegistry.EndAssignment | offchain/gpu/hashcredit_gpu/assets/registry.py:267-275 | closes the open assignment |
| AssetRegistry.AssetRegistry.ChangeIdentityKey | offchain/gpu/hashcredit_gpu/assets/registry.py:281-306 | retires the old key's row, then refuses a new key active anywhere |
| AssetRegistry.AssetRegistry.ReviewOwnership | offchain/gpu/hashcredit_gpu/assets/registry.py:393-412 | records the verdict, unless the asset is eligible and the verdict takes that away |
| AssetRegistry.AssetRegistry.FindDuplicate | offchain/gpu/hashcredit_gpu/assets/registry.py:143-145 | the first of the keys that is active on some asset |
| AssetRegistry.AssetRegistry.DecideEligibility | offchain/gpu/hashcredit_gpu/assets/encumbrance.py:111-142 | persists whether nothing stands in the way |
| AssetRegistry.AssetRegistry.RecordThirdPartyRight | offchain/gpu/hashcredit_gpu/assets/encumbrance.py:51-85 | opens the right and flags the asset |
| AssetRegistry.AssetRegistry.ReleaseEncumbrance | offchain/gpu/hashcredit_gpu/assets/encumbrance.py:176-186 | closes an open encumbrance |

## Left out

- VaultShares.PriceNeverFalls: allocation of destination cash is covered only together with its receipt, as one landing, because a repayment without a receipt is not refused and would be cash out of nothing; a rate change dated before the vault's clock, which rewrites interest already in the NAV, and opening over an existing facility are excluded for the same kind of reason
- VaultLosses.WriteOffSettlesTheBook: a second write-off of one facility and a draw on a written-off one, which the source does not refuse, are excluded
- VaultNav.NavIsExplained: rates, fees and reserves are non-negative, as the source expects of its callers and does not check; interest of a rate change dated before the clock is what the change does to the interest read
- VaultCap.CallKeepsCap: rates and fees are non-negative
- VaultPockets.EveryPocketIsItsOwnLedger: amounts, rates, fees and reserves are non-negative, as the source expects of its callers and does not check; a negative leg would move cash the other way
- VaultPockets.PaidExactly: the facility's balances and rates are non-negative; so for `VaultPockets.WrittenOffExactly`
- VaultShares.WithdrawalPaysTheFloor: the shares outstanding and virtual are positive together and the holder has a row; a call that asks for none or fewer without a row raises a missing key after booking, which `VaultConservation.CleanRunsConserve` leaves out by its positive amounts
- FacilityTerms.RateChangeFollowsTheTerms: the segments are in order and the first has started, as opening and every rate change leave them
- RegistryCalls.RightIsReleased: that a release is accepted exactly when its right is open is stated for encumbrance ids that are unique, as the table's primary key makes them
- VaultShares.DonationAttackNeverPays: one victim deposit; several victims in a row are covered only by the price theorem
- IngestionRuns.StoredExactlyOnce: observations are told apart by their payload hash, as the rows are, so two payloads with one hash are one observation; it also needs that a page with more to come names the next one
- Collector.Collector.CollectWindow: a chunk's cursor is named after its window, as `backfill_account` does; a correction re-fetch that reuses a tag for another window is not modelled
- Backfill.BackfillAccount: the overlap is a natural number of seconds; with a negative overlap and a chunk of zero or less the source's loop would not end
- JobQueue.JobQueue.Claim: one transaction runs alone; an interleaving between its SELECT and its lease is covered by `LeaseFirst`, which takes any stale list
- Spv.BuiltProofVerifies: hex text, upper-case ids and failing node calls are not modelled; ids are the reversed bytes
- Registry tables: timestamps, provenance, SKUs, custodians, locations, identity confidence and document references are not kept; reason texts of an eligibility decision are constructors
- Vault `journal`, `total_legal_debt` and the borrowing-base helpers: bookkeeping and reading that nothing above depends on
- A NAV read while an impairment names a facility that was never opened raises a missing key; no operation creates such an impairment
- The worker's endless polling loop and its idle sleep; `RunOnce` is its body
- Backoff delay and jitter are a parameter of `Fail`; the audit log and its hash chain, job payloads and payload hashes are not modelled
- Proof candidates, the raw blob store, the outbox dispatcher and `as_of` freshness bounds of the collector
- The failure path of a proof outcome commits in a second transaction; it is one step here
- Base58 and Bech32 checksums, script matching in the second copy, proof-of-work and ABI encoding
- SQL, sessions and row locks: tables are maps and sequences, each transaction one step, a raised error no step
