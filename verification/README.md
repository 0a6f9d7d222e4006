# Eventfund: a verified model of the backend's ledgers and protocols

The backend keeps Mongo records in step with an on-chain event fund. This
project models the parts of it that have to survive replays, retries, partial
failures and reorganisations, and proves what they keep. `dafny verify
dfyconfig.toml` checks everything.

| files | component |
|---|---|
| `Ledger`, `LedgerLaws`, `LedgerBalance`, `LedgerReplays`, `LedgerStatus`, `Overlaps`, `Shares` | contributions, shares, refunds, rewards, and the status they leave |
| `EventTotals`, `TotalsReplay`, `Once` | event totals applied once per transaction hash, and counted again |
| `RefundSweep`, `RefundLaws`, `RefundOutcomes` | the automatic ticket refund of terminal events |
| `Lifecycle`, `LifecycleOutcomes`, `Fund`, `Thresholds` | the event's status, the timer, its life on the contract, the 36 percent tests |
| `Minting`, `MintingLaws` | mint plan, mint loops, retries |
| `ErrorSearch`, `ErrorPaths`, `Traversal` | the breadth-first error searches of backend and frontend |
| `TicketStats` | ticket statistics as a materialised view of the event log |
| `Deposits`, `DepositLaws`, `DepositOutcomes`, `DepositPayments` | the fiat deposit protocol |
| `Marketplace`, `MarketplaceLaws` | listing and ticket rows as a projection of the contract |
| `EventCache`, `EventCacheLaws` | cache-aside reads of events |
| `EnvFile`, `EnvFileLaws` | the env-file upsert of the deployment scripts |
| `Copies`, `Sums`, `Text`, `Options`, `Status` | cached reads and other shared helpers |

## How it is modelled

- Code that changes records step by step is a class whose methods do what the
  source does, loop for loop; each method is proved against a function on
  values, and the laws are lemmas about those functions and their runs.
- Beside those laws stand outcomes: what a sweep, a phase, a callback or a
  confirmation leaves behind, told by counts, rows and states alone, without the
  functions the methods are proved against.
- Collections are maps or sequences. One stretch of code between two waits is
  one atomic step where that is the point: the deposit protocol, the cache, the
  timer's selection and work, and the cached copies of an event. Elsewhere one
  call is one step, and the steps of different calls interleave freely.
- Where the code reads an event through its cached `findById`, the model reads
  a copy: loading, storing and expiry of a copy are steps of their own, Redis
  may be down or fail to delete, and the writes that bypass the cache leave the
  copy as it is.
- The contracts are an environment with the rules of their Solidity sources: a
  call that reverts changes nothing; the first successful mint moves the event
  to ticketing; a price of zero means the event's own price; a refund needs a
  sold ticket, enabled refunds and enough pool; a sold ticket of an ended event
  reads as expired; a used, expired or refunded ticket cannot change hands.
- Foreign calls (RPC, Redis, payment gateway) succeed, fail, or take effect and
  then report a failure, as parameters choose.
- Amounts are unbounded integers; where the database adds in 64 bits
  (`EventTotals`, and the refund logs of the ledger), leaving the range is
  modelled.

## Where the code falls short of what it is for

Each of these is proved, with the exact condition under which the code does
meet the property.

- Funding plus refunded amount is conserved exactly as long as each refund is
  added once, on top of the stored amount
  (`LedgerBalance.ConservedIffRefundsPayExactly`). It is not when the
  confirmation and the log of one refund both add it
  (`LedgerBalance.ConfirmThenLogCountsTwice`), when a confirmation adds to a
  cached amount (`LedgerBalance.StaleCopyLosesRefund`), or when the log of a
  contribution comes again after its refund (`LedgerBalance.ReplayedLogRevivesRow`).
- The log of a refund fails, after it has flipped the rows, if the amount or the
  stored counter is outside 64 bits; the event's funding is then wrong until the
  next rebuild (`LedgerLaws.SoundRun`, `LedgerLaws.LogFailsIff`,
  `LedgerLaws.LargeRefundLeavesFunding`).
- Rebuilds of one event that overlap leave it short of what was recorded after
  the last writer read (`Overlaps.AgreesIffNothingNetSinceRead`,
  `Overlaps.AgreesIffNoneRecordedSince`, `Overlaps.OverlapLosesContribution`).
- Of two contributions in one transaction the rows keep the second; the event of
  the first keeps funding that it has no row for
  (`LedgerLaws.SecondContributionDisplaces`).
- The rebuild after a reorganisation leaves no marks, so the next scan of the
  window counts its logs again (`TotalsReplay.RescanCountsAgainIff`); and it sums
  every log where the updates count one per transaction and field
  (`TotalsReplay.RebuildAgreesIff`).
- A refund confirmation is guarded by the wallet's rows, not by the transaction
  hash (`LedgerReplays.RefundReplayHarmlessIff`, `LedgerReplays.LateInvestmentThenReplay`).
- A sold ticket of an event past its end date reads as expired and is never
  refunded by the sweep (`RefundLaws.FaultFreeSweepSettlesIff`); its listing can
  be neither bought nor cancelled (`MarketplaceLaws.SpentListingIsStuck`).
- A lifecycle task that runs after its event has moved on, a call that reads an
  outdated copy, or a status write that others overtook can move an event back, a
  cancelled one to funded, ticketing or ongoing included
  (`Lifecycle.StatusOnlyMovesForwardIff`, `Lifecycle.StaleCopyRevivesEvent`,
  `Lifecycle.OvertakenMintReopensEvent`).
- A mint that fails half-way is never completed, while every retry reports
  success (`MintingLaws.PartialMintIsNeverCompleted`). That needs no fault: a
  contract object with the plain call only, and a runner that sends transactions,
  lets a plan with mixed prices through to its first entry
  (`MintingLaws.FaultFreeMintStrandsIff`, `MintingLaws.MixedPricesStrandEvent`).
- Statistics of an event whose rows vanished stay wrong after an interrupted
  chunk and its retry (`TicketStats.RetryIsExactIff`), and a duplicate key
  blocks its chunk for good (`TicketStats.DuplicateKeyRepeats`).
- Callbacks, processors and balance updates of a deposit save what they decided
  on an earlier read (`DepositLaws.SoundRunIff`): two processors can pay one
  order (`DepositOutcomes.TwoLooksPayTwice`), a late notification reopens an
  order that is being paid (`DepositOutcomes.LateSaveReopens`), and one of two
  overlapping credits is lost (`DepositOutcomes.OverlappingCreditsLoseOne`).
- Without such races, a transfer that lands but is reported as failed is paid
  again when the payment callback repeats
  (`DepositOutcomes.PaidTwiceByCallbackIff`); a crashed processor strands its
  order (`DepositOutcomes.StrandedUnlessReadBefore`); the return callback does
  not compare the amount (`DepositOutcomes.PaidInFullIff`,
  `DepositOutcomes.HeardOtherIff`).
- A late receipt, or a sale confirmed under another row's id, takes the listing
  rows away from the contract (`MarketplaceLaws.LateReplayHarmlessIff`,
  `MarketplaceLaws.SaleNamingRowIff`).
- The env upsert is not idempotent on files with a stray carriage return
  (`EnvFileLaws.IdempotentIff`).

## Model

| member | source | states |
|---|---|---|
| `Ledger.LedgerStore.FindEvent` | backend/src/repositories/event.repo.js:40-58 | a read returns the copy if there is one and Redis serves it, else the stored event, and leaves a copy |
| `Ledger.LedgerStore.UpdateEvent` | backend/src/repositories/event.repo.js:88-103 | a write stores the event and drops its copy if Redis lets it |
| `Ledger.LedgerStore.RebuildSharePercentagesAndFunding` | backend/src/services/events/events.service.js:2732-2803 | writes one share per existing or contributing holder from the confirmed rows, keeping claims, and returns the confirmed total and the next status, taken from the event as it was read |
| `Ledger.LedgerStore.WriteShares` | backend/src/services/events/events.service.js:2756-2793 | the bulk upsert: exactly the existing and the contributing holders, each with its sum and percentage, claims untouched |
| `Ledger.LedgerStore.GroupByHolder` | backend/src/services/events/events.service.js:2749-2754 | the holder map filled in one loop is the sum of each contributor's confirmed rows |
| `Ledger.LedgerStore.ConfirmInvestmentTransaction` | backend/src/services/events/events.service.js:2152-2311 | new state, copies included, and reply of an investment confirmation in every case: unknown event, foreign hash, replay, new row |
| `Ledger.LedgerStore.Invest` | backend/src/services/events/events.service.js:2805-2906 | an off-chain investment: rejected cases leave everything, otherwise one new row, shares and funding rebuilt |
| `Ledger.LedgerStore.BumpShare` | backend/src/services/events/events.service.js:2846-2877 | the direct share update before the rebuild touches only one holder's amount |
| `Ledger.RebuildForgetsAmounts` | backend/src/services/events/events.service.js:2769-2793 | a rebuild overwrites every amount, so the direct share update before it has no lasting effect |
| `Ledger.LedgerStore.MarkDonatorContributionsAsRefunded` | backend/src/repositories/contribution.repo.js:93-135 | flips exactly the wallet's confirmed donations of the event |
| `Ledger.LedgerStore.ConfirmContributionRefundTransaction` | backend/src/services/events/events.service.js:2393-2522 | new state, copies included, and reply of a refund confirmation, which adds to the refunded amount it read and reads the stored event again; a wallet without confirmed rows counts as already synced |
| `Ledger.LedgerStore.HandleContributionRefunded` | backend/src/services/blockchain/processors/fund.processor.js:592-641 | the log of a refund: rows, then the counter once per hash, then the rebuild; a conversion error stops it after the rows |
| `Ledger.LedgerStore.ApplyRefund` | backend/src/services/blockchain/processors/fund.processor.js:606-637 | the counter and the status for a new hash, the status alone for a known one, nothing but the error outside 64 bits |
| `Ledger.LedgerStore.HandleContributionMade` | backend/src/services/blockchain/processors/fund.processor.js:353-366 | the log of a contribution: its row is inserted or confirmed, and the event rebuilt |
| `Ledger.LedgerStore.RebuildFundAndShares` | backend/src/services/blockchain/processors/fund.processor.js:79-85 | funding and shares are those of the rows, and the copy stays |
| `Ledger.LedgerStore.GroupKept` | backend/src/repositories/share.repo.js:295-318 | the repository's single pass: groups and total of the rows with a holder and a positive amount |
| `Ledger.LedgerStore.RebuildShareStateFromContributions` | backend/src/repositories/share.repo.js:295-357 | the repository's rebuild: shares are those of the kept rows, with the exact percentage, and zero for holders without rows |
| `Ledger.LedgerStore.ConfirmRewardClaimTransaction` | backend/src/services/events/events.service.js:2605-2730 | new state, copies included, and reply of a reward confirmation: it is added to the share once per transaction hash |
| `LedgerLaws.RebuiltMatches` | backend/src/services/events/events.service.js:2732-2803 | a rebuild makes funding and shares agree with the rows whatever they said before |
| `LedgerLaws.RepoMatches` | backend/src/repositories/share.repo.js:295-357 | so does the repository's rebuild once the funding is stored |
| `LedgerLaws.SoundStep` | backend/src/services/events/events.service.js:2152-2906 | a step leaves every event settled if and only if it does not flip rows and then fail on an amount outside 64 bits, and takes no row from another event than it rebuilds |
| `LedgerLaws.LogFailsIff` | backend/src/repositories/event.repo.js:503-539 | the log of a refund fails exactly if its hash is new and its amount or the stored counter does not fit in 64 bits |
| `LedgerLaws.TrackedStep` | backend/src/services/blockchain/processors/fund.processor.js:592-641 | a failed refund, or a row taken for another event, leaves more funding than the rows say, until the next rebuild of the event |
| `LedgerLaws.LargeRefundLeavesFunding` | backend/src/services/blockchain/processors/fund.processor.js:592-641 | the log of a refund above 64 bits leaves the funding above the rows by exactly the wallet's confirmed sum |
| `LedgerLaws.SecondContributionDisplaces` | backend/src/repositories/contribution.repo.js:44-62 | the log of the second contribution of a transaction, to another event, takes the row of the first and leaves that event unsettled |
| `LedgerLaws.SoundRun` | backend/src/services/events/events.service.js:2152-2906 | over any run, replays, logs and cached reads included: funding is the confirmed total, each holder's amount that holder's confirmed sum and the shares add up to the funding, if and only if since its last rebuild no refund failed on the event and no row was taken from it |
| `LedgerLaws.SharesAddUp` | backend/src/services/events/events.service.js:2744-2793 | the shares of a settled event sum to its funding |
| `LedgerLaws.MarkingTakesOut` | backend/src/repositories/contribution.repo.js:93-118 | refunding takes exactly the wallet's confirmed sum out of the event's total |
| `LedgerBalance.ConservedIffRefundsPayExactly` | backend/src/services/events/events.service.js:2481-2504 | funding plus refunded amount equals everything its rows record in every state of a run if and only if every step is exact: a confirmation adds the wallet's confirmed sum to the stored amount, a new log pays that sum within 64 bits, a repeated one finds nothing left, no log overwrites a refunded row or another event's, and a ticket refund, which adds to the same counter, adds nothing |
| `LedgerBalance.WholeRefundExactIff` | backend/src/services/events/events.service.js:2481-2504 | a confirmation that adds the wallet's whole sum is exact if and only if the copy it read has the stored amount |
| `LedgerBalance.StaleCopyLosesRefund` | backend/src/services/blockchain/processors/fund.processor.js:592-641 | the log of one wallet's refund and then the confirmation of another's, read through the cache, lose the first |
| `LedgerBalance.BalancedStepIff` | backend/src/services/events/events.service.js:2481-2504 | from a balanced event exactly the exact steps lead to a balanced one |
| `LedgerBalance.ConfirmThenLogCountsTwice` | backend/src/services/blockchain/processors/fund.processor.js:592-641 | the confirmation followed by the log of the same refund, within 64 bits, counts it twice |
| `LedgerBalance.ReplayedLogRevivesRow` | backend/src/services/blockchain/processors/fund.processor.js:353-366 | the log of a contribution, processed again after its refund, confirms the row again |
| `LedgerReplays.ReconfirmingKeepsTotalsIff` | backend/src/services/events/events.service.js:2254-2287 | confirming a recorded investment again keeps the totals exactly unless it repairs an event that was left behind |
| `LedgerReplays.ReconfirmingAfterAnyRun` | backend/src/services/events/events.service.js:2254-2287 | so it does after any run in between, refunds, logs and cached reads included, whatever has overwritten its row |
| `LedgerReplays.RefundReplayHarmlessIff` | backend/src/services/events/events.service.js:2481-2504 | after a refund confirmation and any run, its replay changes nothing but the cache if and only if no row of the wallet was confirmed since the wallet's last refund, or the last such row was overwritten, or the event is read as unpublished |
| `LedgerReplays.LateInvestmentThenReplay` | backend/src/services/events/events.service.js:2481-2504 | refund confirmed, older investment confirmed late, refund replayed: counted twice |
| `LedgerReplays.RefundTwice` | backend/src/services/events/events.service.js:2481-2504 | an immediate second refund confirmation changes nothing but the cache |
| `LedgerReplays.ClaimsStep` | backend/src/repositories/share.repo.js:165-198 | only a new reward for the share changes what it has claimed; rebuilds leave it |
| `LedgerReplays.ClaimedIsSum` | backend/src/repositories/share.repo.js:165-198 | the claimed reward is its start plus one amount per distinct new hash, over any run |
| `LedgerReplays.RewardOrderDoesNotMatter` | backend/src/repositories/share.repo.js:165-198 | runs that deliver the same rewards in any order and multiplicity end with the same claim |
| `LedgerStatus.StepIsLifecycleStep` | backend/src/services/events/events.service.js:2795-2803 | every step of the ledger moves the status of an event, its copy and its readers as one step of the lifecycle; an effective investment is `Lifecycle.Invested` with the goal reached exactly if the new confirmed total reaches the goal it read, a refund is `Lifecycle.RefundClaimed` |
| `LedgerStatus.RunIsLifecycleRun` | backend/src/services/events/events.service.js:2393-2803 | so over any run, whatever is replayed and whatever copies are read |
| `LedgerStatus.LedgerOnlyMovesForwardIff` | backend/src/services/events/events.service.js:2393-2803 | over any run of the ledger the status of an event only moves forward if and only if no step meets its lifecycle guard, and then a terminal status stays |
| `LedgerStatus.InvestmentStores` | backend/src/services/events/events.service.js:2795-2803 | a confirmed investment stores the confirmed total, and funded exactly if the event was read as funded, or as funding with its goal reached; nothing else of the event changes |
| `LedgerStatus.RefundStores` | backend/src/services/events/events.service.js:2493-2505 | a confirmed refund stores the confirmed total, adds to the refunded amount it read, and leaves a failed event failed and every other one cancelled |
| `LedgerStatus.InvestmentIsNewIff` | backend/src/services/events/events.service.js:2152-2290 | an investment adds its confirmed row exactly for a positive receipt of a published event that reaches the minimum, with a hash that no row has |
| `LedgerStatus.InvestmentIsRepeatIff` | backend/src/services/events/events.service.js:2254-2275 | with a hash that a row has, it is a repeat exactly if that row is the same donation, and a conflict otherwise |
| `LedgerStatus.InvestedHereIff` | backend/src/services/events/events.service.js:2805-2845 | an off-chain investment adds its row exactly for a funding event and an amount that reaches the minimum |
| `LedgerStatus.RefundClaimedIff` | backend/src/services/events/events.service.js:2440-2492 | a refund claim changes rows exactly if the wallet has a confirmed donation to the published event |
| `LedgerStatus.RewardClaimedIff` | backend/src/services/events/events.service.js:2605-2713 | a reward is added to its own share exactly for a positive receipt of a published event whose hash the share has not seen |
| `Copies.ReadsAgree` | backend/src/repositories/event.repo.js:40-58 | what one read saw is what later reads see, whatever is stored meanwhile, while Redis serves both |
| `Overlaps.FundingIsLastRead` | backend/src/services/events/events.service.js:2738-2794 | however rebuilds overlap, the funding is the total of the rows as they were when its last writer read them |
| `Overlaps.ShareIsLastRead` | backend/src/services/events/events.service.js:2744-2793 | and the amount of a share is its holder's sum in the rows as they were when the last writer covering it read them |
| `Overlaps.FundingShortBy` | backend/src/services/events/events.service.js:2732-2803 | over any overlap of rebuilds, contributions and refunds the funding falls short of the rows by exactly what was recorded, less what was refunded, since its last writer read them |
| `Overlaps.ShareShortBy` | backend/src/services/events/events.service.js:2732-2803 | the same for every holder's share and its last writer |
| `Overlaps.AgreesIffNothingNetSinceRead` | backend/src/services/events/events.service.js:2732-2803 | so the event agrees with its rows if and only if those net amounts are zero |
| `Overlaps.AgreesIffNoneRecordedSince` | backend/src/services/events/events.service.js:2732-2803 | without refunds: if and only if every contribution to the event was recorded before the last writer of the funding and the last writer of its holder's share read |
| `Overlaps.QuietRebuildSettles` | backend/src/services/events/events.service.js:2732-2803 | one undisturbed rebuild settles the event, whatever overlaps left behind |
| `Overlaps.OverlapLosesContribution` | backend/src/services/events/events.service.js:2288-2311 | of two contributions confirmed at the same time the funding can lack one |
| `Shares.GroupsAddUp` | backend/src/services/events/events.service.js:2744-2754 | grouping by holder loses exactly the rows without a contributor |
| `Shares.HundredthsBounds` | backend/src/services/events/events.service.js:512-519 | the floored hundredths of a percent are within one hundredth of the exact ratio |
| `Shares.HundredthsMonotone` | backend/src/services/events/events.service.js:512-519 | a larger contribution never gets a smaller percentage |
| `Shares.RoundedPercentagesNearlyAddUp` | backend/src/services/events/events.service.js:2744-2789 | with n contributing holders the rounded percentages sum to at most 100 and to more than 100 minus n hundredths |
| `Shares.PercentagesAgree` | backend/src/repositories/share.repo.js:295-357 | the two rebuilds' percentages differ by less than 0.01 |
| `Shares.KeepsAll` | backend/src/repositories/share.repo.js:305-318 | when every row has a holder and a positive amount, the repository's rebuild drops none, so both rebuilds have the same holders and amounts |
| `Shares.KeptIff` | backend/src/repositories/share.repo.js:305-318 | of the confirmed donations the repository keeps exactly those with a holder and a positive amount |
| `Shares.OrderDoesNotMatter` | backend/src/services/events/events.service.js:2738-2754 | totals and sums depend only on the multiset of rows |
| `Shares.PercentagesIgnoreOrder` | backend/src/services/events/events.service.js:2744-2789 | hence holders, amounts and percentages do not depend on contribution order |
| `EventTotals.EventStore.ApplyIdempotentDelta` | backend/src/repositories/event.repo.js:472-558 | applies a delta at most once per (lower-cased hash, field); reports true exactly when it was applied |
| `EventTotals.AddAll` | backend/src/repositories/event.repo.js:524-539 | every incremented counter gets its delta; others stay |
| `EventTotals.EventStore.ClearProcessedTxHashes` | backend/src/repositories/event.repo.js:564-570 | drops exactly the marks with the given hashes, in every event |
| `EventTotals.CountersAreTallies` | backend/src/repositories/event.repo.js:472-558 | while sums fit in 64 bits, the counters are what a once-per-key tally computes |
| `EventTotals.TotalsAreExactIff` | backend/src/repositories/event.repo.js:472-558 | for non-negative amounts of any size on non-negative counters: every counter ends as its start plus one delta per distinct key if and only if all those sums fit in signed 64 bits |
| `EventTotals.ExpectedIsSum` | backend/src/repositories/event.repo.js:472-558 | the expected total is the start plus the sum over the distinct new keys |
| `EventTotals.NextDecision` | backend/src/repositories/event.repo.js:546-557 | a call applies its delta unless its key was processed or delivered before, or an amount is outside 64 bits |
| `EventTotals.TrueOncePerKey` | backend/src/repositories/event.repo.js:546-557 | true is reported once per key |
| `EventTotals.AllOrNothing` | backend/src/repositories/event.repo.js:472-558 | an update that is new and convertible adds its mark, its amounts and its labels and nothing else; any other one changes nothing |
| `EventTotals.LabelIsLastApplied` | backend/src/repositories/event.repo.js:541-557 | over any updates a label is what the last applied update that names it sets it to, or what it was |
| `TotalsReplay.ReplayGivesSameTotalsIff` | backend/src/repositories/event.repo.js:564-570 | after a first pass from zero: zeroing the counters, clearing the given hashes and delivering the same payments again, in any order with any repeats and labels, gives every counter its exact total if and only if those totals fit in signed 64 bits and every hash that paid anything is cleared |
| `TotalsReplay.RebuildState` | backend/src/services/blockchain/processors/fund.processor.js:90-230 | one pass over an event's logs sums each of its five running counters and resets the marks |
| `TotalsReplay.RebuildAgreesIff` | backend/src/services/blockchain/processors/fund.processor.js:90-230 | the rebuild gives the totals of the once-per-hash updates if and only if those fit in signed 64 bits and no log pays with the hash and field of an earlier one |
| `TotalsReplay.RescanAddsIff` | backend/src/services/blockchain/processors/fund.processor.js:90-132 | delivering a window of logs after the rebuild adds one amount per distinct mark to every rebuilt sum if and only if, wherever something is paid, the result fits in signed 64 bits |
| `TotalsReplay.RescanCountsAgainIff` | backend/src/services/blockchain/processors/fund.processor.js:90-132 | the counters stay what the rebuild made them if and only if every log of the window pays nothing or does not convert to 64 bits |
| `Once.TotalIsSum` | backend/src/repositories/event.repo.js:472-558 | any deliveries give the start plus one delta per distinct new key |
| `Once.OrderAndRepeatsDoNotMatter` | backend/src/repositories/event.repo.js:472-558 | the result depends only on the set of deliveries |
| `Once.AppliedOncePerKey` | backend/src/repositories/event.repo.js:546-557 | each key takes effect once |
| `Once.ForgettingCountsAgain` | backend/src/repositories/share.repo.js:362-368 | clearing marks without resetting totals counts the cleared keys again on redelivery |
| `Once.ForgettingIsHarmlessIff` | backend/src/repositories/share.repo.js:362-368 | for positive deltas that is harmless exactly when nothing counted was cleared |
| `Once.ReplayFromScratch` | backend/src/repositories/event.repo.js:564-570 | clearing everything and starting again gives the first result, in any order |
| `RefundSweep.AutoRefund.AutoCancelActiveListings` | backend/src/services/tickets/autoRefund.service.js:133-269 | the cancelling loop computes exactly the specified chain, rows, counters and blocked set under any faults |
| `RefundSweep.FindRow` | backend/src/services/tickets/autoRefund.service.js:216-226 | the row that is cancelled is the newest that names the listing or is an active one of the token |
| `RefundSweep.AutoRefund.AutoRefundCancelledEvent` | backend/src/services/tickets/autoRefund.service.js:271-384 | the refund loop after it computes exactly the specified sweep |
| `RefundLaws.EveryTokenAccountedFor` | backend/src/services/tickets/autoRefund.service.js:301-383 | inspected equals refunded plus already refunded plus skipped plus failed, and the number of tokens |
| `RefundLaws.SweepIsSafe` | backend/src/services/tickets/autoRefund.service.js:133-384 | one sweep under any faults pays a token at most once ever, only if it found it unlisted or unlisted it itself, and never adds unsettled work |
| `RefundLaws.RerunningIsSafe` | backend/src/services/tickets/autoRefund.service.js:133-384 | so do any number of sweeps, each with its own tokens and faults |
| `RefundLaws.CancelOneEffects` | backend/src/services/tickets/autoRefund.service.js:153-262 | one round of the cancelling loop changes at most the token's listing; unblocked means cleared |
| `RefundLaws.RefundOneEffects` | backend/src/services/tickets/autoRefund.service.js:313-381 | one round of the refund loop pays at most for its own unblocked token |
| `RefundLaws.UnblockedIsCleared` | backend/src/services/tickets/autoRefund.service.js:133-269 | a token that is not blocked was seen without a listing, or its listing was cancelled in this sweep |
| `RefundLaws.PoolPaysForRefunds` | contracts/contracts/Fund.sol:790-814 | the refund pool falls by exactly the prices of the tokens that stopped being sold |
| `RefundLaws.FaultFreeSweepSettlesIff` | backend/src/services/tickets/autoRefund.service.js:271-384 | a sweep without faults leaves no sold token if and only if there was none or all were payable: refunds enabled, event not past its end date, listings cancellable, prices positive, pool sufficient |
| `RefundLaws.SettledStaysUnpaid` | backend/src/services/tickets/autoRefund.service.js:271-384 | once nothing is sold, further sweeps pay nothing |
| `RefundOutcomes.RowsTellRefunds` | backend/src/services/tickets/autoRefund.service.js:271-384 | under any faults, every ticket row after a sweep: refunded exactly if the sweep saw the token refunded, or learned that its own refund landed, and could write; sold, unlisted and the seller's if its listing was cancelled; otherwise as it was |
| `RefundOutcomes.ListingRowsTellCancels` | backend/src/services/tickets/autoRefund.service.js:216-251 | listing rows are only closed, each for a cancelled listing that names it or its token, and the newest such row of every cancelled listing is closed in the end |
| `RefundOutcomes.CountersTellOutcomes` | backend/src/services/tickets/autoRefund.service.js:301-384 | every counter of both phases is the number of tokens with its outcome, told by the chain before and after the sweep |
| `RefundOutcomes.PaidIff` | backend/src/services/tickets/autoRefund.service.js:328-356 | exactly the unblocked sold tokens of an event with refunds that has not ended are refunded, as long as the pool still covers the price after the tokens before it and no call fails |
| `RefundOutcomes.BlockedIff` | backend/src/services/tickets/autoRefund.service.js:152-268 | exactly which tokens are blocked, and which listings are cancelled on chain |
| `RefundOutcomes.OneTicketIsRefunded` | backend/src/services/tickets/autoRefund.service.js:271-384 | a sold, listed ticket is taken off the market, paid, and shown as refunded |
| `Lifecycle.LifecycleTimer.ScheduleLifecycleTask` | backend/src/services/events/autoLifecycle.service.js:119-142 | an event already being worked on is skipped; the key is released afterwards |
| `Lifecycle.LifecycleTimer.RunPhase` | backend/src/services/events/autoLifecycle.service.js:484-631 | a phase changes due events only, each by its task, and all of them if the limit allows |
| `Lifecycle.LifecycleTimer.RunTick` | backend/src/services/events/autoLifecycle.service.js:484-631 | a whole tick moves no status down and leaves terminal ones |
| `Lifecycle.DueTaskMovesForward` | backend/src/services/events/autoLifecycle.service.js:144-482 | each task, run on an event that is due, moves its status forward |
| `Lifecycle.StepMovesBackIff` | backend/src/services/events/events.service.js:521-548 | a step of any kind, with any cached copy, moves the status back if and only if it meets its guard: the listed late tasks, the listed writes on an outdated copy, and the listed writes that were overtaken |
| `Lifecycle.OwnerGoesBackIff` | backend/src/services/events/events.service.js:521-548 | the same for the owner's update |
| `Lifecycle.ConfirmationGoesBackIff` | backend/src/services/events/events.service.js:2393-2803 | the same for investment and refund confirmations and completion |
| `Lifecycle.StatusOnlyMovesForwardIff` | backend/src/services/events/autoLifecycle.service.js:144-482 | over any interleaving of prompt and late tasks, owner and user calls, contract moves, delayed status writes and cached reads, the status only moves forward if and only if no step meets its guard; then terminal statuses are absorbing and there are at most five changes |
| `Lifecycle.FreshPromptStepsMoveForward` | backend/src/services/events/autoLifecycle.service.js:144-482 | a prompt step that finds no copy and writes at once never moves a status back |
| `Lifecycle.StaleCopyRevivesEvent` | backend/src/services/events/events.service.js:2732-2803 | an event cancelled while a reader held its old document is set to funding or funded by the next investment confirmation |
| `Lifecycle.OvertakenMintReopensEvent` | backend/src/services/admin/admin.service.js:1295-1396 | an event cancelled between its last mint and the write of its status is set to ticketing |
| `Lifecycle.LateTaskGoesBackIff` | backend/src/services/events/autoLifecycle.service.js:484-631 | a task that runs after its event has moved on regresses the status exactly in the listed states, and otherwise keeps the link to the chain |
| `Lifecycle.CancelledEventBecomesFunded` | backend/src/services/events/autoLifecycle.service.js:178-273 | an event cancelled between selection and work is set to funded |
| `Lifecycle.CancelledEventBecomesOngoing` | backend/src/services/events/autoLifecycle.service.js:275-364 | an event cancelled between selection and work is set to ongoing |
| `LifecycleOutcomes.SettleEndedOutcome` | backend/src/services/events/autoLifecycle.service.js:366-482 | an ended event whose calls work is completed in database and on chain exactly if 36 percent of its sold tickets were used, and failed and cancelled otherwise |
| `LifecycleOutcomes.ResolveSalesOutcome` | backend/src/services/events/autoLifecycle.service.js:275-364 | at the end of its sales window an event goes on exactly if its target was sold, and is failed and cancelled otherwise |
| `LifecycleOutcomes.FinalizeFundingOutcome` | backend/src/services/events/autoLifecycle.service.js:144-176 | a funding event past its deadline is failed and cancelled; before it nothing moves |
| `LifecycleOutcomes.StartTicketingOutcome` | backend/src/services/events/autoLifecycle.service.js:178-273 | an event that is funded on chain ends in ticketing if all its tickets are minted, and as funded otherwise |
| `LifecycleOutcomes.StartTicketingElsewhere` | backend/src/services/admin/admin.service.js:1201-1293 | an event in ticketing on chain is shown so; one that is still funding is not ticketed, and is cancelled past its deadline |
| `LifecycleOutcomes.TaskWaits` | backend/src/services/events/autoLifecycle.service.js:144-482 | without working calls, outside the window or with nothing to sell, a task changes nothing |
| `LifecycleOutcomes.SettlePhase` | backend/src/services/events/autoLifecycle.service.js:366-482 | the outcome of every ended event in a phase of the timer, with every other event left alone |
| `LifecycleOutcomes.ResolvePhase` | backend/src/services/events/autoLifecycle.service.js:275-364 | the same for the events at the end of their sales window |
| `LifecycleOutcomes.FinalizePhase` | backend/src/services/events/autoLifecycle.service.js:144-176 | the same for the events in funding |
| `LifecycleOutcomes.OwnerUpdateOutcome` | backend/src/services/events/events.service.js:1601-1949 | exactly when the owner's update cancels, completes, tickets or opens an event, and when it moves the chain |
| `LifecycleOutcomes.InvestmentOutcome` | backend/src/services/events/events.service.js:2795-2803 | an investment makes a funding event funded exactly if it reaches the goal, and keeps every other status |
| `LifecycleOutcomes.RefundOutcome` | backend/src/services/events/events.service.js:2493-2505 | a refund keeps a failed event failed and makes every other one cancelled |
| `LifecycleOutcomes.MarkCompletedOutcome` | backend/src/services/events/events.service.js:2968-3070 | completion succeeds exactly for an event in ticketing or ongoing that the contract lets complete |
| `Fund.SharesFinalUnlessFunding` | contracts/contracts/Fund.sol:382-520 | over any calls the shares of an event are final exactly when it is no longer funding |
| `Fund.ActMoves` | contracts/contracts/Fund.sol:421-520 | no call moves the status otherwise than funding, funded, ticketing, completed, or to cancelled; finalising a funding event cancels it or reverts |
| `Fund.GoalDecides` | contracts/contracts/Fund.sol:421-520 | over any calls, an event with investment is past funding, other than by cancellation, exactly when its goal was reached |
| `Fund.ActsIff` | contracts/contracts/Fund.sol:421-617 | exactly when each call takes money or moves the status |
| `Thresholds.ThresholdFormsAgree` | backend/src/services/events/events.service.js:49-53 | the three 36 percent forms agree, give the least covering count, and lie in 1..n |
| `Thresholds.CompletionTestsAgree` | frontend/src/app/services/events.service.ts:978-989 | timer, contract and frontend tests agree and mean 36 percent of the sold tickets |
| `Thresholds.MoreUsedStillPasses` | backend/src/services/events/autoLifecycle.service.js:424-432 | more check-ins never turn a pass into a failure |
| `Thresholds.MoreSoldBreaksIff` | backend/src/services/events/autoLifecycle.service.js:424-432 | more sold tickets break a passing check-in exactly when 36 percent of the new count exceeds the used ones |
| `Thresholds.MoreSalesStillPass` | backend/src/services/events/autoLifecycle.service.js:301-317 | more sold tickets never break a passing sales test |
| `Thresholds.SalesPassMeans` | backend/src/services/events/autoLifecycle.service.js:301-317 | the sales test means the percentage if one is set, else the count, else all tickets |
| `Minting.BuildTicketMintPlan` | backend/src/services/admin/admin.service.js:135-184 | a plan is never empty and every entry has a positive quantity |
| `Minting.Split` | backend/src/services/admin/admin.service.js:1295-1299 | an entry is cut into batches of 1 to the batch size, of its own type and price |
| `Minting.TicketingService.SendBatch` | backend/src/services/admin/admin.service.js:1298-1391 | one mint call and the recording of its token ids, in every outcome |
| `Minting.TicketingService.MintPlan` | backend/src/services/admin/admin.service.js:1295-1393 | the nested loops send exactly the calls of the plan, up to the first failure |
| `Minting.TicketingService.UpdateToTicketing` | backend/src/services/admin/admin.service.js:1201-1396 | the whole transition: repeated, out of window, already ticketing on chain, finalised first, minted |
| `MintingLaws.CallsMintThePlan` | backend/src/services/admin/admin.service.js:1295-1393 | for any batch size the calls carry exactly the planned tickets, each at its type and price |
| `MintingLaws.PublishedTotalIff` | backend/src/services/events/events.service.js:561-592 | an event is published with the sum of its tiers, or without tiers with the number requested, and refused if both are there and differ or neither is |
| `MintingLaws.PlanCoversTiersIff` | backend/src/services/admin/admin.service.js:135-184 | the plan mints the published total if and only if no tier with supply is dropped for its name or price, or, if no tier is planned, the fallback quantity is that total |
| `MintingLaws.PlanFollowsTiers` | backend/src/services/admin/admin.service.js:127-160 | the plan has one entry for each tier with name, supply and price, in their order, with its supply, its price and the type that its name mentions first |
| `MintingLaws.TiersDecide` | backend/src/services/admin/admin.service.js:135-160 | with one such tier the request plays no part |
| `MintingLaws.FallbackPlanIff` | backend/src/services/admin/admin.service.js:162-184 | without one, a single entry: the first of the three quantities at the first of the two prices, both positive, or the error |
| `MintingLaws.SendingMintsPrefix` | contracts/contracts/Fund.sol:549-587 | what is minted is a prefix of the calls, in order, within the contract's maximum |
| `MintingLaws.AttemptNeverExceedsPlan` | backend/src/services/admin/admin.service.js:1201-1396 | an attempt never mints more than its plan |
| `MintingLaws.FirstMintDecides` | backend/src/services/admin/admin.service.js:1214-1218 | once anything is minted no later attempt mints again |
| `MintingLaws.PlanNeverExceeded` | backend/src/services/admin/admin.service.js:1201-1396 | over any attempts with any failures the planned total and the contract's maximum are never exceeded |
| `MintingLaws.PartialMintIsNeverCompleted` | backend/src/services/admin/admin.service.js:1210-1218 | a partial mint stays partial, and every retry in the window reports success and shows ticketing |
| `MintingLaws.CompleteMintMatchesPlanIff` | contracts/contracts/Fund.sol:568-580 | a complete mint gives exactly the planned tickets, type by type and price by price, if and only if every price is sent and non-zero or equals the contract's own |
| `MintingLaws.FaultFreeMintSucceedsIff` | contracts/contracts/Fund.sol:549-587 | without faults, whatever calls the contract object offers, an event funded on chain is ticketed exactly when there is a plan and all of it can be sent and is accepted |
| `MintingLaws.FaultFreeMintStrandsIff` | backend/src/services/admin/admin.service.js:1278-1328 | without faults an attempt fails with tickets minted exactly if it is not refused beforehand, its first call goes through, and not all of the plan does |
| `MintingLaws.MixedPricesStrandEvent` | backend/src/services/admin/admin.service.js:1278-1328 | an entry at the event's own price and then one at another, sent by plain calls: the first is minted, the attempt fails, the event stays short whatever follows, and every later attempt reports success |
| `MintingLaws.AttemptIsTransition` | backend/src/services/admin/admin.service.js:1201-1396 | an attempt with its mint calls moves both statuses exactly as the one-step transition of the lifecycle does |
| `MintingLaws.SuccessRecordsEveryTicket` | backend/src/repositories/ticket.repo.js:274-318 | after a successful transition every minted token has its row with its type, and a new row has its price |
| `ErrorSearch.ExtractBlockchainErrorData` | backend/src/services/admin/admin.service.js:386-416 | terminates on every graph, examines no object twice, returns null only if no reachable object holds revert data, and otherwise the data of the first such object |
| `ErrorSearch.ExtractErrorName` | frontend/src/app/services/events.service.ts:871-922 | the same for names over cause and all object-valued fields |
| `ErrorSearch.PushLinks` | backend/src/services/admin/admin.service.js:410-412 | the guarded pushes append the object's links in order |
| `ErrorSearch.PushFields` | frontend/src/app/services/events.service.ts:910-918 | every object-valued field goes to the end of the queue |
| `ErrorSearch.ErrorTokenIsFirstMatch` | frontend/src/app/services/events.service.ts:903-908 | the name taken from a text is the first match of the error pattern |
| `ErrorPaths.NoRevertDataIff` | backend/src/services/admin/admin.service.js:386-416 | the search ends empty-handed exactly if no path through error, info.error and cause leads to a text data of ten characters or more that starts with 0x |
| `ErrorPaths.RevertDataIsNearest` | backend/src/services/admin/admin.service.js:386-416 | otherwise its answer is such data at the end of a shortest path |
| `ErrorPaths.LinksInOrder` | backend/src/services/admin/admin.service.js:410-412 | of one object, error is looked at before info.error, and that before cause |
| `ErrorPaths.NoNameIff` | frontend/src/app/services/events.service.ts:871-922 | the frontend's search ends empty-handed exactly if no object in reach gives a name |
| `ErrorPaths.NameIsNearest` | frontend/src/app/services/events.service.ts:871-922 | otherwise its answer is a name given at the end of a shortest path |
| `ErrorPaths.ErrorNameIff` | frontend/src/app/services/events.service.ts:892-908 | an object gives its own name, or else the first name mentioned in the first of its texts that mentions one |
| `Traversal.FirstHitIsNearest` | backend/src/services/events/events.service.js:96-126 | the first hit is unique and no hit is nearer to the start |
| `Traversal.Complete` | backend/src/services/events/events.service.js:96-126 | every place before all queued ones has been visited, although objects are marked only when taken out |
| `Traversal.NothingLeft` | backend/src/services/events/events.service.js:96-126 | an empty queue means that nothing reachable holds an answer |
| `Traversal.HeadIsFirst` | backend/src/services/events/events.service.js:96-126 | an answer at the head of the queue is the first hit |
| `TicketStats.TicketStore.RecountFromLog` | backend/src/repositories/ticketStats.repo.js:20-63 | the queries and folds of one event compute its recount; sold, used, expired and refunded are the numbers of its rows of that name |
| `TicketStats.OneMoreRow` | backend/src/repositories/ticketStats.repo.js:20-63 | one more row changes the statistics of its own event only, and of those exactly the field of its name: by one, by its number of tickets for a mint, and the revenue by its price for a sale |
| `TicketStats.TicketStore.RebuildForEventIds` | backend/src/repositories/ticketStats.repo.js:11-81 | overwrites the statistics of exactly the given events with their recount |
| `TicketStats.TicketStore.DeleteInRange` | backend/src/repositories/ticketEvent.repo.js:33-40 | removes exactly the contract's rows in the range |
| `TicketStats.TicketStore.InsertMany` | backend/src/repositories/ticketEvent.repo.js:64-68 | inserts every row whose key is free and fails if some key is taken |
| `TicketStats.InsertionKeepsIndex` | backend/src/repositories/ticketEvent.repo.js:64-68 | after an insertion every key of the log and of the documents is there exactly once, behind what was there before |
| `TicketStats.InsertionFailsIff` | backend/src/repositories/ticketEvent.repo.js:64-68 | it reports an error exactly if the key of some document is in the log or among the documents before it |
| `TicketStats.TicketStore.ProcessChunk` | backend/src/services/blockchain/processors/ticket.processor.js:257-288 | one chunk: old ids, delete, insert, rebuild, and what an error leaves behind |
| `TicketStats.ProcessTicketLogs` | backend/src/services/blockchain/processors/ticket.processor.js:255-298 | if all chunks finish, the view is exact and the range holds the canonical rows |
| `TicketStats.ChunkKeepsViewExact` | backend/src/services/blockchain/processors/ticket.processor.js:257-288 | replacing any range by any rows and rebuilding only the touched events keeps every event's statistics equal to a full recount |
| `TicketStats.ReplacedIsExactIff` | backend/src/services/blockchain/processors/ticket.processor.js:257-288 | with rows replaced and some events rebuilt, the view is exact exactly if for every other touched event the rows it lost and those it got count the same |
| `TicketStats.AbortedChunkIsExactIff` | backend/src/services/blockchain/processors/ticket.processor.js:257-288 | so after a duplicate key, or a stop at any point: after the deletion, within the insertion, or between two events of the rebuild |
| `TicketStats.RecountSplits` | backend/src/repositories/ticketStats.repo.js:20-63 | a recount is that of the rows outside a range plus that of the rows inside |
| `TicketStats.ChunkRecount` | backend/src/services/blockchain/processors/ticket.processor.js:257-288 | after a chunk an event's recount is that of the rows outside the range plus that of the rows inserted |
| `TicketStats.RetryIsExactIff` | backend/src/services/blockchain/processors/ticket.processor.js:257-288 | after any number of stops at any points and a last attempt to the end, the view is exact exactly if the deleted rows of every event that got none back, and was not rebuilt by the first attempt, count for nothing |
| `TicketStats.DuplicateKeyRepeats` | backend/src/repositories/ticketEvent.repo.js:64-68 | a chunk that failed on a duplicate key fails the same way on every retry |
| `TicketStats.MinedAgainElsewhereClashes` | backend/src/repositories/ticketEvent.repo.js:64-68 | a surviving row of a transaction mined again inside the range makes the chunk fail, whatever else is in it |
| `TicketStats.VanishedEventStaysCounted` | backend/src/services/blockchain/processors/ticket.processor.js:257-288 | a concrete sale that a reorganisation removed stays counted after an interrupted chunk and its retry |
| `TicketStats.ChunkReplaces` | backend/src/services/blockchain/processors/ticket.processor.js:259-285 | a finished chunk leaves exactly the canonical rows in its range |
| `Deposits.DepositService.HandleIpn` | backend/src/controllers/deposits.controller.js:120-178 | the payment notification up to its save: reply and what it will save in every case |
| `Deposits.DepositService.HandleReturn` | backend/src/controllers/deposits.controller.js:217-270 | the return callback up to its save: only a pending order is going to be paid |
| `Deposits.DepositService.SavePaid` | backend/src/controllers/deposits.controller.js:169-181 | the save of either callback writes what differs from what it read, whatever the order is by then |
| `Deposits.DepositService.LookUp` | backend/src/services/deposits/depositProcessor.service.js:25-37 | a processor starts on a paid order only |
| `Deposits.DepositService.TakeOver` | backend/src/services/deposits/depositProcessor.service.js:38-41 | it marks the order as being processed without looking again, or as failed if that cannot be saved |
| `Deposits.DepositService.Transfer` | backend/src/services/deposits/depositProcessor.service.js:49-112 | the transfer and what the processor writes for each outcome |
| `Deposits.DepositService.FindBalance` | backend/src/services/deposits/depositProcessor.service.js:120-137 | the balance update reads the wallet's balance, or none |
| `Deposits.DepositService.UpdateUserBalance` | backend/src/services/deposits/depositProcessor.service.js:138-165 | a saved credit writes the balance that was read with the amount added to both amounts and one to the count; a second new balance of a wallet, or one that cannot be saved, changes nothing |
| `DepositLaws.SoundStep` | backend/src/services/deposits/depositProcessor.service.js:25-165 | a step keeps the invariant if and only if it is not a clash: a save of a callback or a take on an order that was taken or completed since, or a balance saved over another one |
| `DepositLaws.SoundRunIff` | backend/src/services/deposits/depositProcessor.service.js:25-165 | every state of a run is sound if and only if no step of it is a clash |
| `DepositLaws.CurrentReadsAreClean` | backend/src/services/deposits/depositProcessor.service.js:25-165 | a save that finds what its reader saw is never a clash |
| `DepositLaws.WalletsAddUp` | backend/src/services/deposits/depositProcessor.service.js:120-165 | from an empty system, over any run without a clash: totalDeposited = availableBalance + totalWithdrawn = sum of the wallet's credited orders, depositCount is their number, each order is credited at most once, no two workers take one order |
| `DepositOutcomes.CompletedForever` | backend/src/controllers/deposits.controller.js:159-166 | without clashes a completed order keeps status, wallet, amount and transfer for ever |
| `DepositOutcomes.StrandedUnlessReadBefore` | backend/src/controllers/deposits.controller.js:249-283 | an order whose processor died while processing can leave that status if and only if some worker still holds a read from before |
| `DepositOutcomes.PaidTwiceIff` | backend/src/services/deposits/depositProcessor.service.js:56-112 | over a run without a clash an order is paid out more than once if and only if a lost transfer of it is followed by another that lands |
| `DepositOutcomes.PaidTwiceByCallbackIff` | backend/src/controllers/deposits.controller.js:160-181 | if processors take orders while they are paid: if and only if after a lost transfer a callback saves the order as paid again, and then another transfer lands |
| `DepositOutcomes.RepeatedCallbackPaysAgain` | backend/src/controllers/deposits.controller.js:160-181 | a failed order is paid again by a repeated callback even if its first transfer landed |
| `DepositOutcomes.TwoLooksPayTwice` | backend/src/controllers/deposits.controller.js:188-283 | two processors that find an order paid before either takes it both pay it |
| `DepositOutcomes.TwoCreditsCount` | backend/src/services/deposits/depositProcessor.service.js:138-165 | and both credit it |
| `DepositOutcomes.LateSaveReopens` | backend/src/controllers/deposits.controller.js:140-181 | a notification that read the order before a processor took it, and saves after, makes it paid again under that processor |
| `DepositOutcomes.OverlappingCreditsLoseOne` | backend/src/services/deposits/depositProcessor.service.js:120-151 | of two credits that read a wallet's balance before either saves, one is lost |
| `DepositOutcomes.BalanceShowsCompletedIff` | backend/src/services/deposits/depositProcessor.service.js:120-165 | over any run without a clash a wallet's balance shows all its completed orders if and only if no worker missed the credit of one of a positive amount, by a failed read, a failed save or its death, and none is about to credit one |
| `DepositOutcomes.CreditedIff` | backend/src/services/deposits/depositProcessor.service.js:98-165 | a completed order was credited exactly if its worker did not miss the credit and is not about to make it |
| `DepositOutcomes.PaidInFullIff` | backend/src/controllers/deposits.controller.js:148-181 | only the save of a callback that heard another amount makes an order not paid in full |
| `DepositOutcomes.HeardOtherIff` | backend/src/controllers/deposits.controller.js:249-276 | only the return callback of a pending order can be one |
| `DepositPayments.PaidOnlyByGoodPayment` | backend/src/controllers/deposits.controller.js:120-181 | over any run, clashes included, an order that is anything but pending or expired, or was paid out or credited, has an earlier verified and successful payment callback of its own, for a notification with its amount |
| `DepositPayments.CallbackActsIff` | backend/src/controllers/deposits.controller.js:120-270 | a callback has an effect exactly for such a payment of an order that can still be marked; then its save makes the order paid with the amount it heard |
| `DepositPayments.ReplyNamesFirstFault` | backend/src/controllers/deposits.controller.js:120-178 | the reply to a notification names the first thing that is wrong with it |
| `DepositPayments.ProcessorActsIff` | backend/src/services/deposits/depositProcessor.service.js:25-41 | a processor starts on a paid order only |
| `DepositPayments.TransferOutcome` | backend/src/services/deposits/depositProcessor.service.js:49-112 | the order is completed exactly if the funds are there and the transfer lands and reports so; otherwise one failure is counted |
| `DepositPayments.UpdateAddsToBalance` | backend/src/services/deposits/depositProcessor.service.js:120-165 | an undisturbed balance update adds the order's amount to its own wallet |
| `DepositPayments.PaidOrderIsDelivered` | backend/src/services/deposits/depositProcessor.service.js:25-165 | undisturbed, a paid order is transferred and credited with its own amount, and nothing else changes |
| `DepositPayments.FundsAreAccountedFor` | backend/src/services/deposits/depositProcessor.service.js:49-112 | over any run, clashes and crashes included, all of the relayer's funds are still there or were sent for orders, once for each time an order counts as paid out |
| `DepositPayments.OnlyPendingExpires` | backend/src/repositories/depositOrder.repo.js:85-100 | the sweep for overdue orders expires exactly the pending ones |
| `Marketplace.MarketplaceService.ConfirmListingCreated` | backend/src/services/marketplace/marketplace.service.js:415-513 | reply and rows in every case |
| `Marketplace.MarketplaceService.ConfirmListingSold` | backend/src/services/marketplace/marketplace.service.js:312-407 | reply and rows in every case, for a named listing or the token's active one |
| `Marketplace.MarketplaceService.ConfirmListingCancelled` | backend/src/services/marketplace/marketplace.service.js:522-609 | reply and rows in every case |
| `Marketplace.MarketplaceService.UpdateTicketStatus` | backend/src/repositories/ticket.repo.js:135-150 | sets holder, sold status and listed flag of an existing ticket row |
| `Marketplace.MarketplaceService.CreateListing` | backend/src/services/marketplace/marketplace.service.js:690-746 | a listing made without a transaction: reply and rows in every case |
| `Marketplace.MarketplaceService.CancelListing` | backend/src/services/marketplace/marketplace.service.js:755-792 | a cancellation without a transaction: reply and rows in every case |
| `MarketplaceLaws.AlwaysConsistent` | contracts/contracts/Marketplace.sol:78-203 | on the contract, over any actions: the active index names exactly the active listings, and the marketplace holds exactly the listed tickets |
| `MarketplaceLaws.ConfirmFollows` | backend/src/services/marketplace/marketplace.service.js:343-398 | confirming the next log takes the projection before it to the projection after it |
| `MarketplaceLaws.RepeatIsHarmless` | backend/src/services/marketplace/marketplace.service.js:364-371 | confirming a log again straight away changes nothing |
| `MarketplaceLaws.CreatedAnswersIff` | backend/src/services/marketplace/marketplace.service.js:415-513 | when a creation is refused, unknown, already synced or synced, and the rows it then writes |
| `MarketplaceLaws.SoldAnswersIff` | backend/src/services/marketplace/marketplace.service.js:312-407 | the same for a sale, under the row named or the active one |
| `MarketplaceLaws.CancelledAnswersIff` | backend/src/services/marketplace/marketplace.service.js:522-609 | the same for a cancellation, which prefers the contract's listing to the row named |
| `MarketplaceLaws.RowsAreProjection` | backend/src/repositories/listing.repo.js:232-263 | in-order confirmation with immediate repeats makes listing rows, holders and listed flags exactly the projection of the confirmed prefix |
| `MarketplaceLaws.ListedIffOneActiveRow` | backend/src/services/marketplace/marketplace.service.js:445-505 | then a ticket is listed exactly when one active row exists for it, and its row shows its holder |
| `MarketplaceLaws.LateReplayHarmlessIff` | backend/src/services/marketplace/marketplace.service.js:445-505 | a late replay is harmless exactly so: a creation while still active, a sale if it names its listing or the token has no newer one, a cancellation always |
| `MarketplaceLaws.SaleNamingRowIff` | backend/src/services/marketplace/marketplace.service.js:350-358 | a sale confirmed under a row id keeps the projection exactly if it is the sold listing's own |
| `MarketplaceLaws.PriceCapsAgree` | backend/src/services/marketplace/marketplace.service.js:121-127 | the service's 15/10 cap equals the contract's 150/100 |
| `MarketplaceLaws.ListableIff` | contracts/contracts/Marketplace.sol:78-118 | on the contract a ticket can be listed exactly while it is sold and not spent, by its holder, within the cap, if it is not listed |
| `MarketplaceLaws.ListingIntentAcceptedIff` | backend/src/services/marketplace/marketplace.service.js:94-170 | a listing intent built on projected rows is accepted on chain exactly for a positive price and a transferable ticket |
| `MarketplaceLaws.IntentNamesItsRow` | backend/src/services/marketplace/marketplace.service.js:179-304 | a buy or cancel intent names the row's own listing, and the contract accepts it if and only if the ticket is not used, expired or refunded |
| `MarketplaceLaws.SpentListingIsStuck` | contracts/contracts/Ticket.sol:438-452 | as long as its ticket stays spent, a listing stays active on the contract, whatever is tried |
| `MarketplaceLaws.DirectRunsListOnce` | backend/src/services/marketplace/marketplace.service.js:690-792 | over any run of direct listings and cancellations a ticket is listed exactly when it has one active row |
| `MarketplaceLaws.CreatesDirectlyIff` | backend/src/services/marketplace/marketplace.service.js:690-746 | a direct listing is made exactly for the holder's own sold, unlisted ticket at no more than one and a half times its price, with its rows; and the error replies |
| `MarketplaceLaws.CancelsDirectlyIff` | backend/src/services/marketplace/marketplace.service.js:755-792 | a direct cancellation is made exactly for the seller's own active listing, with its rows; and the error replies |
| `MarketplaceLaws.CancelUndoesCreate` | backend/src/services/marketplace/marketplace.service.js:690-792 | cancelling what was just created restores the tickets and leaves one cancelled row |
| `MarketplaceLaws.DirectCancelHidesChainCancel` | backend/src/services/marketplace/marketplace.service.js:755-792 | a direct cancellation of a contract listing makes its later receipt count as already synced, and the marketplace stays the recorded holder |
| `EventCache.EventTtl` | backend/src/config/env.js:113 | the configured time to live is never zero |
| `EventCache.EventRepository.GetEvent` | backend/src/services/cache/redis.service.js:45-69 | a read hits exactly while Redis is up and the entry is live |
| `EventCache.EventRepository.CacheEvent` | backend/src/services/cache/redis.service.js:78-103 | a store keeps the document until the time to live, or for ever if that is zero |
| `EventCache.EventRepository.FindById` | backend/src/repositories/event.repo.js:40-58 | an uninterrupted read returns the live entry, else the database's document, which it stores |
| `EventCache.EventRepository.UpdateById` | backend/src/repositories/event.repo.js:88-103 | an update writes the document and drops the entry if Redis lets it |
| `EventCacheLaws.ReadsAreFresh` | backend/src/services/cache/redis.service.js:79-128 | a cached read returns a document the database held no longer ago than the time to live plus the load-to-store delay, whatever writers and Redis do |
| `EventCacheLaws.ZeroTtlHasNoBound` | backend/src/services/cache/redis.service.js:88-92 | why the configured time to live must not be zero: an entry stored with zero can be arbitrarily old |
| `EventCacheLaws.ServedForTtl` | backend/src/services/cache/redis.service.js:78-103 | what a read has stored is served for the configured seconds, ten minutes without a setting or with zero, and no longer |
| `EventCacheLaws.UpdateDropsIff` | backend/src/repositories/event.repo.js:88-103 | an update makes the next read miss exactly if Redis is up and deletes; other entries stay |
| `EventCacheLaws.FinishKeepsCoherentIff` | backend/src/repositories/event.repo.js:48-55 | storing what was loaded keeps the cache equal to the database exactly if the database still holds it |
| `EventCacheLaws.LoadRacesWithWrite` | backend/src/repositories/event.repo.js:40-58 | a write with its invalidation between load and store leaves the old document cached |
| `EventCacheLaws.CalmCacheIsDatabase` | backend/src/repositories/event.repo.js:88-103 | with uninterrupted reads, writes that always invalidate and no outage every entry equals the database |
| `EnvFile.UpsertEnvFile` | contracts/contracts/scripts/deployAll.js:9-41 | the loops over settings, lines and trailing blanks write exactly the specified text |
| `EnvFile.ReplaceLines` | contracts/contracts/scripts/deployAll.js:24-32 | the first line of each wanted key is replaced, every other line kept; the names left over have no line |
| `EnvFileLaws.AssignmentMatches` | contracts/contracts/scripts/deployAll.js:25-31 | a written line assigns to its key and reads as its value up to leading white space |
| `EnvFileLaws.MatchIgnoresReturn` | contracts/contracts/scripts/deployAll.js:25 | a trailing carriage return changes neither a line's key nor whether it is blank |
| `EnvFileLaws.SplitUnlines` | contracts/contracts/scripts/deployAll.js:17-40 | splitting printed lines gives them back, less one trailing carriage return each |
| `EnvFileLaws.EverySettingReadsBack` | contracts/contracts/scripts/deployAll.js:24-40 | in the written file the first line of every setting is its assignment, which reads back as the value without leading white space |
| `EnvFileLaws.OtherLinesKept` | contracts/contracts/scripts/deployAll.js:24-40 | every other line keeps its text and place, up to one carriage return and trailing blank lines |
| `EnvFileLaws.EmptySettingIsIgnored` | contracts/contracts/scripts/deployAll.js:19-38 | a setting with an empty value does nothing: the file is as it would be without the setting |
| `EnvFileLaws.SecondPass` | contracts/contracts/scripts/deployAll.js:24-39 | a second pass over what was written only loses trailing carriage returns |
| `EnvFileLaws.IdempotentIff` | contracts/contracts/scripts/deployAll.js:9-41 | upserting twice equals upserting once if and only if no kept line ends in a carriage return |

## Left out

- Interleaving inside one confirmation, log handler or owner update of `Ledger`, `Lifecycle` and `Marketplace` (two owner transitions that both find the chain funded): apart from the cached copies, the delayed status writes of `Lifecycle` and the rebuilds in `Overlaps`, each is one atomic step.
- `addBigInt` and the other helpers of `backend/src/utils/bigint.js` on malformed strings: amounts are integers that were read successfully; division is only used on non-negative amounts.
- `rebuildFundState` in `backend/src/repositories/contribution.repo.js`: it sums through JavaScript numbers, so above 2^53 it is not the exact total the ledger uses for it.
- `EventTotals.TotalsAreExactIff`: says when totals are exact; the double that a counter becomes outside 64 bits is only marked as inexact.
- `Shares.PercentagesAgree`: compares exact ratios; the rounding of the quotient to a JavaScript double is not modelled.
- `calculateETHAmount` and other floating-point conversions; order amounts are given in wei.
- `LedgerStatus.StepIsLifecycleStep`: takes receipts and logs of refunded contributions to exist only for an event cancelled on chain, as the contract rules.
- `LedgerReplays.ClaimedIsSum`: rewards are never withdrawn or forgotten within a run; `clearProcessedRewardTxHashes` is covered by `Once.ForgettingIsHarmlessIff`, and `deleteByEventId` with the rebuild from the chain log by the fund processor is not part of this model.
- `Ledger.LedgerStore.GroupKept`: integers in place of the JavaScript numbers that the repository sums; above 2^53 those sums are rounded.
- `Ledger.LedgerStore.RebuildShareStateFromContributions`: integers and exact ratios in place of JavaScript numbers, as above.
- `LedgerLaws.RepoMatches`: the same integers and ratios.
- `Ledger.LedgerStore.HandleContributionMade`: the amount of the log is stored exactly, while the source rounds it to a JavaScript number above 2^53.
- `LedgerLaws.SoundRun`: assumes that logs name a wallet and a positive amount, and that generated hashes are new.
- `Ledger.LedgerStore.RebuildFundAndShares`: integers in place of the JavaScript numbers that the repository sums.
- `TotalsReplay.RescanCountsAgainIff`: takes amounts to be positive and the field of a log to decide which counters it pays into, as the handlers do.
- `TotalsReplay.RebuildState`: integers in place of the JavaScript numbers of the source, which round above 2^53; the counters that are set rather than summed, and the event's statuses and dates, are left out.
- Log handlers that only write a status (`handleFundingSuccessful`, `handleEventCancelled`, `handleTicketingStarted`, `handleCompleted`), and the status that the rebuild from the chain log writes: replays of those logs may rewrite a status, and are not part of `Lifecycle`.
- `Deposits.DepositService.Transfer`: gas and nonces of the relayer; a transfer that the chain refuses for them is one that is not sent.
- `Minting.TicketingService.UpdateToTicketing`: one transition at a time, for an event that is already published on chain; the receipt's events are taken to be found, and other events' mints only shift token ids.
- `Marketplace.MarketplaceService.ConfirmListingSold`: which active row the database returns, if a token has several, is left open; direct ticket transfers outside the marketplace and the log indexer's own upserts are not modelled.
- `EventCache.EventRepository.FindById`: documents are opaque texts, so dates and ids that come back from the cache as strings are not visible; list caches and the statistics key are left out.
- `EnvFile.UpsertEnvFile`: settings with integer-like names, which JavaScript would reorder, and reading or writing the file itself.
- `queuedEventKeys` and the queue around the refund sweeps, `autoRefundContributionsForEvent`, `tickInFlight` and the timer itself: they only decide when a modelled step runs.
- Admin edits that set a raw status, `updateListingStatus`: they may regress statuses by design.
- Publishing an event on chain, creation fees, funding configuration, validators, authentication, uploads, pagination and views.
- Timestamps, messages and other fields that no modelled decision reads.
- The indexer that fills the chain log: `TicketStats` starts from the log.
