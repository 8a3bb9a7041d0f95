# Verification of the trading and billing core

A Dafny model of the parts of the repository that move money, with proofs about whole runs. `dafny verify dfyconfig.toml` checks all of it, also with `--resource-limit 2000000`.

Code that updates rows or variables step by step is modelled twice: as a transition function that proofs can speak about, and as methods (on classes where the source keeps rows) proved equal to that function. Amounts are exact reals, or whole units of 1e-8 in the billing ledger.

| files | what they model |
|---|---|
| `ActionProtocol`, `ActionSafety`, `ActionSlots`, `ActionQueries`, `ActionCancel`, `ActionRetries`, `ActionQuiet`, `ActionChain`, `ActionRecords`, `ActionStore` | the idempotent order protocol: workers, lost replies, retries, slots of attempts, operator cancellations |
| `FillAccounting`, `FillRuns`, `FillDust`, `FillPaths`, `FillScripts`, `FillMoney`, `FillClosing`, `FillCounters`, `FillLedger` | reconciling fills into positions and sub-positions |
| `StrategyRunner`, `RunnerDecisions`, `StopLoss`, `StopLossRuns`, `TickGuard`, `EntryCounts` | the live runner's decision, its stop-loss, the guards around its ticks, and runs of ticks against fills |
| `RiskBudget`, `Recovery` | the order plan, its sizing, recovery legs |
| `Simulator`, `SimulatorLoop`, `SimulatorLaws`, `SimulatorLadder`, `SimulatorRun`, `SimulatorResults`, `SimulatorFloors`, `SimulatorEntries`, `SimulatorExits`, `SimulatorCycles`, `SimulatorTrades`, `Analytics`, `Drawdown` | the backtest simulator and the replay of its trade log |
| `PaperTrading`, `PaperLaws`, `PaperCoins`, `PaperDecisions`, `PaperRows`, `PaperRecovery`, `PaperExits`, `PaperReopening`, `PaperLedger` | paper trading |
| `Billing`, `BillingLaws`, `BillingReferrals`, `BillingRuns`, `BillingAccounts`, `BillingBook` | the balance ledger, fees and referral rewards |
| `DepositScanner`, `DepositLaws`, `DepositProgress` | crash-restartable deposit scanning on top of the ledger |
| `EntrySignal`, `EntryRules`, `Base32`, `Reals` | the entry rule, the secret codec, shared arithmetic |

## Assumptions

- Protocol: the client order ID is an injective image of the action key, a request is settled before its failure is recorded, and the retry scheduler's second failure record precedes the next claim of that key. The last one is needed: `ActionSafety.LateRecordDoublesTheOrder`.
- Fills: a report is a prefix of the order's trades, each trade is worth more than 1e-12 coins and more than its own commission, FILLED is reported exactly when the order is completely executed, and reports of one order are handled one after another. A run of the strategy (`EntryCounts`) adds that ticks wait while an order or its action is unresolved and that a resolved order has no further trades.
- Deposits: confirmed blocks do not change, a transaction hash and log index name one transfer, the owner of an address is fixed, and the block range is at least one.
- Billing: every operation is one transaction; references drawn at random are parameters.
- Paper trading: budget and base order have eight decimals, as their columns do.

## Where the code does not meet the promise

For each of these there is a lemma with a concrete input, the condition under which the promise holds, or both.

- The counter of an entry can depend on when its first fill is reported: submit and sync decide differently on a sold-out parent, on an initial entry while a position is open, on a reused independent level and on a recovery entry without a position (`FillCounters.CountersPathIndependent`). An operator's own order can run into this (`FillCounters.LateFillOnEmptyParent`); an order the strategy decides on cannot (`EntryCounts.EntriesCountOnce`).
- The coins on the books of a leg can differ from those the account has gained on it, exactly when a sell takes more than the leg holds, or an exit executed in full or a dust close leaves a remainder (`FillMoney.CoinsKeptExactly`); the money always agrees, up to the cost of that remainder (`FillMoney.ProfitIsMoney`).
- A paper tick can buy into the position it has just closed (`PaperReopening.TickBuysIntoClosed`, `PaperExits.TickBuysIntoClosedExactly`): the recovery anchor is looked up among closed legs too.
- The recovery target of a paper position is not always that of its basket: a request by hand in recovery that changes the average leaves the stored one behind, and nothing else does (`PaperRecovery.TargetFollowsExactly`), so that a leg can then be sold below its cost (`PaperRecovery.ByHandStrandsTheTarget`).
- The rounded plan can exceed the risk budget by rounding (`RiskBudget.RoundedPlanCanExceedBudget`), by at most `RiskBudget.RoundedPlanOvershoot`; the unrounded one cannot (`RiskBudget.AllocationWithinBudget`), nor can one whose budget and requested sizes have eight decimals (`RiskBudget.EightDecimalPlanWithinBudget`).
- An operator's cancellation can make a slot fill twice (`ActionSlots.OperatorCancelFillsTwice`): with every tick and claim making its query, exactly when the action's order had not ended unfilled, was not on record as working, and there was an order, or a worker that could still place one (`ActionCancel.CancellationIsSafeExactly`).
- A sync of an action whose failure was recorded after its commit leaves it resolved but marked retryable (`ActionQuiet.LostAcknowledgementLeavesRetryable`); nothing else breaks the agreement of the columns (`ActionQuiet.RetryableHoldsExactly`).
- An earlier attempt of a slot can end up other than CANCELLED (`ActionChain.LostAcknowledgementBreaksTheChain`): exactly when a failure or a commit overwrites a CANCELLED attempt that has a successor, or the successor is claimed on a count that such a step has made stale (`ActionChain.ChainHoldsExactly`).
- A stop-loss that sells leg by leg can cease half-way when recovery buys have made the parent cheaper than a leg (`StopLossRuns.StopCanCease`, a run from the opening buy). It sells everything, at whatever price it triggers, exactly when no remainder was bought at a lower average than the whole basket (`StopLoss.StopLossSellsEverything`).
- With an RSI filter, neither live nor backtest decides as on the whole history (`EntrySignal.RsiNeedsWholeHistory`), and they disagree with each other on some chart whose newest kline has just closed, because the live rule then reads one candle more (`EntrySignal.AgreementIsWithoutRsi`). While the newest kline forms, and on histories no longer than the backtest's window, they agree (`EntrySignal.LiveAgreesWithBacktest`).
- Two instances can tick one strategy when a lock expires under a tick, and only then (`TickGuard.ExpiryMattersExactly`, `TickGuard.OneTickPerStrategy`).

## Model

| member | source | states |
|---|---|---|
| `ActionSafety.AtMostOneOrder` | backend/src/trading/testnet-strategy-execution.service.ts:264-331 | every interleaving of claims, lost replies, failures, retries, syncs and operator actions leaves at most one exchange order per key |
| `ActionSafety.NextSafe` | backend/src/trading/testnet-strategy-execution.service.ts:264-331 | every single step keeps the inductive invariant: one engaged worker per key, and whoever is about to place finds no order |
| `ActionSafety.ClaimKeySafe` | backend/src/trading/testnet-strategy-action.service.ts:66-142 | only the creator of a row places without looking the order up first |
| `ActionSafety.ClaimRetrySafe` | backend/src/trading/testnet-strategy-action.service.ts:375-394 | the compare-and-set admits a worker only to a key nobody is working on |
| `ActionSafety.LookedUpSafe` | backend/src/trading/testnet-strategy-execution.service.ts:311-331 | a retry places only after a lookup that found nothing, and then nothing is there |
| `ActionSafety.PlacedSafe` | backend/src/trading/testnet-strategy-execution.service.ts:319-331 | an accepted (and perhaps already filled or ended), lost or undelivered request keeps the invariant; at most the one placing worker adds an order |
| `ActionSafety.SavedStepSafe` | backend/src/trading/testnet-strategy-execution.service.ts:353-541 | committing, rolling back or losing the acknowledgement keeps the invariant |
| `ActionSafety.FailureRecordedSafe` | backend/src/trading/testnet-strategy-action.service.ts:182-222 | recording a failure, once by the execution and once more by the scheduler, keeps the invariant |
| `ActionSafety.OperatorSafe` | backend/src/trading/testnet-strategy-action.service.ts:281-348 | manual retry, cancellation and sync keep the invariant |
| `ActionSafety.LateRecordDoublesTheOrder` | backend/src/trading/live-action-retry-scheduler.service.ts:45-61 | a concrete run in which a retry is claimed before the second failure record: two orders of one key, so the ordering assumption is needed |
| `ActionSlots.SlotFilledAtMostOnce` | backend/src/trading/testnet-strategy-runner.service.ts:146-155 | in every ordered run whose operator cancellations are harmless, at most one attempt of a ladder or recovery slot is ever filled, and attempt n+1 exists only after attempt n was over without a fill |
| `ActionSlots.NextSlots` | backend/src/trading/testnet-strategy-runner.service.ts:553-555 | every step but a harmful operator cancellation keeps the chain of spent attempts |
| `ActionSlots.VoidStays` | backend/src/trading/testnet-strategy-action.service.ts:66-142 | an action cancelled before any order went out, and in nobody's hands, can never get an order again |
| `ActionSlots.CountIsTrue` | backend/src/trading/testnet-strategy-runner.service.ts:146-155 | c cancelled attempts are all attempts of the slot, or attempt c+1 already exists: a stale count can only yield a duplicate key |
| `ActionSlots.EarlierAttemptsSpent` | backend/src/trading/testnet-strategy-runner.service.ts:141-145 | all attempts below one that exists are over without a fill |
| `ActionSlots.OnlyOneAttemptFills` | backend/src/trading/testnet-strategy-execution.service.ts:1149-1156 | from one order per key and the chain: no two filled orders share a slot |
| `ActionSlots.OperatorCancelFillsTwice` | backend/src/trading/testnet-strategy-action.service.ts:325-348 | a concrete run: cancelling an action while its order is in flight lets two attempts of one slot fill |
| `ActionQueries.QueriedSlotFilledAtMostOnce` | backend/src/trading/testnet-strategy-runner.service.ts:157-182 | when every tick and claim makes its query, at most one attempt of a slot is filled also if operators cancel actions whose saved orders are still on record as working |
| `ActionQueries.NextGuarded` | backend/src/trading/testnet-strategy-action.service.ts:72-107 | every step keeps that a cancelled attempt is spent or holds the slot through its order on record, and that the next attempt follows a spent one |
| `ActionQueries.OnRecordUntilSynced` | backend/src/trading/testnet-strategy-execution.service.ts:925-934 | only a sync changes what is on record, and it leaves the action CANCELLED only when the order has ended unfilled |
| `ActionCancel.CancellationIsSafeExactly` | backend/src/trading/testnet-strategy-action.service.ts:325-348 | from every reachable state, with every tick and claim making its query, two attempts of the slot can still fill after an operator's cancellation if and only if the action's order had not ended unfilled, was not on record as working, and there was an order or a worker that could place one |
| `ActionCancel.UncoveredCancelFillsTwice` | backend/src/trading/testnet-strategy-action.service.ts:325-348 | the harmful half, by a run that passes the queries: the earlier attempts are made to count again, the next attempt fills, then the cancelled one |
| `ActionCancel.AttendedFills` | backend/src/trading/testnet-strategy-execution.service.ts:264-331 | a worker that looks up, places or fails can still get the cancelled order filled, through a manual retry if need be |
| `ActionRetries.RetriesEnd` | backend/src/trading/testnet-strategy-action.service.ts:375-394 | claimRetry succeeds at most maxAttempts times per key, plus once for every manual retry |
| `ActionRetries.RunCounts` | backend/src/trading/testnet-strategy-action.service.ts:126-130 | attemptCount is the number of admissions; every row stays within its bound, and a FAILED row is retryable, has a time and an attempt left |
| `ActionRetries.NextBounded` | backend/src/trading/testnet-strategy-action.service.ts:191-204 | one step keeps the bound for every action |
| `ActionRetries.RetryDelayBounds` | backend/src/trading/testnet-strategy-action.service.ts:411-415 | retry delays lie between 30 s and 15 min and double until the cap |
| `ActionRetries.AdmittedExactly` | backend/src/trading/testnet-strategy-action.service.ts:375-394 | claimRetry admits a free worker if and only if the action is FAILED, retryable and its retry time has come, and takes it back to PENDING |
| `ActionRetries.RetriesWait` | backend/src/trading/testnet-strategy-action.service.ts:375-394 | unless an operator has reopened the action since, no retry is admitted sooner than 30 s, nor sooner than the delay of its attempt, after the last recorded failure of the key |
| `ActionQuiet.RetryableHoldsExactly` | backend/src/trading/testnet-strategy-action.service.ts:182-204 | over every ordered run each action is retryable, with a retry time, exactly while it is FAILED, if and only if no sync is made of a saved action that is FAILED |
| `ActionQuiet.TidyKeptExactly` | backend/src/trading/testnet-strategy-execution.service.ts:925-934 | step by step: an event keeps that agreement of all actions if and only if it is no such sync |
| `ActionQuiet.SyncKeepsTidyExactly` | backend/src/trading/testnet-strategy-execution.service.ts:925-934 | a sync of a saved action keeps the agreement if and only if the action was not FAILED |
| `ActionQuiet.RetryableExactlyWhenFailed` | backend/src/trading/testnet-strategy-action.service.ts:182-204 | the case in which every commit is acknowledged: the agreement always holds, and a saved action is resolved and unattended |
| `ActionQuiet.LostAcknowledgementLeavesRetryable` | backend/src/trading/testnet-strategy-execution.service.ts:925-934 | a run from the start that ends with a SUBMITTED action still marked retryable, with a retry time |
| `ActionQuiet.CommitSettles` | backend/src/trading/testnet-strategy-execution.service.ts:528-538 | after an acknowledged commit no worker has the key any more; what the action then says is in ActionRecords.CommitAnswers |
| `ActionRecords.CommitAnswers` | backend/src/trading/testnet-strategy-execution.service.ts:528-538 | an acknowledged commit records the state the worker read, and the action is CANCELLED exactly for an order that ended without a fill, COMPLETED for every other order that is over, SUBMITTED while it works |
| `ActionRecords.SyncAnswers` | backend/src/trading/testnet-strategy-execution.service.ts:925-934 | a sync of a saved order records its state at the exchange and answers the action in the same way |
| `ActionRecords.ActionsFollowTheirOrders` | backend/src/trading/testnet-strategy-execution.service.ts:1149-1156 | in every ordered run with acknowledged commits every saved action stands as its recorded order says, and what is on record as over is over at the exchange with the fill it was resolved on |
| `ActionRecords.UnresolvedWhileWorking` | backend/src/trading/testnet-strategy-execution.service.ts:1149-1156 | so a saved action is unresolved exactly while its order is on record as working |
| `ActionRecords.BlockedByWorkingOrders` | backend/src/trading/testnet-strategy-action.service.ts:72-107 | and a slot refuses a claim exactly while an order of it is on record as working or an action without a saved order is unresolved |
| `ActionChain.ChainHoldsExactly` | backend/src/trading/testnet-strategy-runner.service.ts:141-155 | over every ordered run with harmless cancellations all attempts of a slot but the last are CANCELLED throughout, if and only if no step overwrites a CANCELLED attempt that has a successor, and no attempt is claimed on a count whose last attempt is no longer CANCELLED |
| `ActionChain.ChainKeptExactly` | backend/src/trading/testnet-strategy-action.service.ts:182-204 | step by step, for every event: the chain is kept if and only if the event is neither of these |
| `ActionChain.LostAcknowledgementBreaksTheChain` | backend/src/trading/testnet-strategy-action.service.ts:182-204 | a run from the start in which an earlier attempt of a slot ends up FAILED instead of CANCELLED |
| `ActionChain.AllButTheLastCancelled` | backend/src/trading/testnet-strategy-runner.service.ts:141-155 | the case of acknowledged commits and no operator cancellation: no step ever breaks the chain, and the earlier orders are unfilled |
| `ActionStore.ActionTable.ClaimRetry` | backend/src/trading/testnet-strategy-action.service.ts:375-394 | succeeds exactly for a due FAILED action and changes only that row |
| `ActionStore.ActionTable.MarkFailed` | backend/src/trading/testnet-strategy-action.service.ts:182-204 | FAILED with a retry time, or PERMANENTLY_FAILED without, by attempts left and kind of failure |
| `ActionStore.ActionTable.ManualRetry` | backend/src/trading/testnet-strategy-action.service.ts:281-309 | puts a failed action up at once unless its order is unresolved |
| `ActionStore.ActionTable.CancelRetry` | backend/src/trading/testnet-strategy-action.service.ts:325-348 | cancels FAILED and PENDING actions only |
| `ActionStore.ActionTable.Claim` | backend/src/trading/testnet-strategy-action.service.ts:66-142 | an existing key is returned, a claim refused while another action or order of the slot, or elsewhere in the position, is unresolved, otherwise exactly one PENDING row with attempt 0 of 4 is added |
| `ActionStore.ActionTable.ClaimDue` | backend/src/trading/live-action-retry-scheduler.service.ts:36-48 | of every listed key that is still due and whose order is resolved, exactly one attempt is started, and the execution finds its claim |
| `FillAccounting.NetFill` | backend/src/trading/testnet-strategy-execution.service.ts:1093-1109 | the loop computes the totals net of commissions taken in the traded assets |
| `FillAccounting.NetGrows` | backend/src/trading/testnet-strategy-execution.service.ts:1087-1109 | every further trade adds to net quantity and net quote, for buys and sells |
| `FillMoney.NetIsTheChange` | backend/src/trading/testnet-strategy-execution.service.ts:1093-1109 | the net amount of any trades seen is what they did to the exchange account, trade by trade: a buy adds its coins less the commission in coins and takes its money plus the commission in money, a sell mirrors it |
| `FillAccounting.SellLegBalance` | backend/src/trading/testnet-strategy-execution.service.ts:994-1036 | whatever part is sold at whatever cost share, realised profit less remaining cost moves by the proceeds alone |
| `FillAccounting.DustBound` | backend/src/trading/testnet-strategy-execution.service.ts:1001-1007 | a dust close forgets at most the cost of 1e-12 coins; a filled exit forgets nothing |
| `FillAccounting.SubmitBuyMoves` | backend/src/trading/testnet-strategy-execution.service.ts:360-498 | the submit books a buy on exactly its leg |
| `FillAccounting.SyncBuyMoves` | backend/src/trading/testnet-strategy-execution.service.ts:765-891 | a sync books the new part of a buy on exactly its leg |
| `FillAccounting.SellMoves` | backend/src/trading/testnet-strategy-execution.service.ts:994-1073 | a sell changes exactly its leg |
| `FillAccounting.AcceptedFindsLeg` | backend/src/trading/testnet-strategy-execution.service.ts:244-262 | an accepted independent exit has its sub-position |
| `FillAccounting.OpenConserves` | backend/src/trading/testnet-strategy-execution.service.ts:360-376 | an opening buy starts the books balanced |
| `FillAccounting.SubmitConserves` | backend/src/trading/testnet-strategy-execution.service.ts:353-541 | a submit keeps, for parent and every sub-position: realised = sells - buys + remaining cost + dropped dust cost |
| `FillAccounting.SyncConserves` | backend/src/trading/testnet-strategy-execution.service.ts:757-940 | so does a sync |
| `FillRuns.RunConserves` | backend/src/trading/testnet-strategy-execution.service.ts:757-940 | so does every interleaving of submits and syncs of any number of orders |
| `FillRuns.ExitedLegRealized` | backend/src/trading/testnet-strategy-execution.service.ts:1019-1034 | a fully exited leg has realised exactly its sells less its buys, net of commissions, plus the dropped cost |
| `FillMoney.OrdersBookTheirTrades` | backend/src/trading/testnet-strategy-execution.service.ts:744-758 | after any run of looks every order has booked exactly what its visible trades did to the exchange account |
| `FillMoney.ProfitIsMoney` | backend/src/trading/testnet-strategy-execution.service.ts:994-1036 | and every leg has realised the money the account gained on it, plus its open cost, plus the cost that dust closes dropped |
| `FillMoney.ExitedLegEarned` | backend/src/trading/testnet-strategy-execution.service.ts:1019-1034 | so a leg that is out of the market has earned what the account really gained on it, plus that dropped cost |
| `FillMoney.StepKeepsCoinsExactly` | backend/src/trading/testnet-strategy-execution.service.ts:994-1073 | one booking keeps the coins of a leg equal to those the account gained on it unless, without selling just what the leg holds, it sells more, or is an exit executed in full, or leaves dust that is closed - and only then are they different |
| `FillMoney.CoinsKeptExactly` | backend/src/trading/testnet-strategy-execution.service.ts:757-940 | and over every run they are equal throughout if and only if no booking does |
| `FillDust.ExitedLegProfit` | backend/src/trading/testnet-strategy-execution.service.ts:1019-1034 | that excess is at most 1e-12 coins at the highest price paid for every close that left a remainder, and nothing when every close was a filled exit |
| `FillDust.RunDropsLittle` | backend/src/trading/testnet-strategy-execution.service.ts:1001-1007 | over any run a leg drops at most that much, and never costs more than that price per coin |
| `FillScripts.LooksConserve` | backend/src/trading/testnet-strategy-execution.service.ts:744-758 | for any interleaving of looks at growing prefixes of any number of orders' fills: what is booked is the net amount of what was seen, and the cost basis is conserved |
| `FillScripts.LooksAreJoint` | backend/src/trading/testnet-strategy-execution.service.ts:744-758 | every such run is a run of reports in which quantity and quote grow together |
| `FillRuns.SyncConservesExactly` | backend/src/trading/testnet-strategy-execution.service.ts:757-765 | a sync conserves if and only if a report that adds no quantity adds no quote, and one that sells quantity for no quote sells something worthless |
| `FillRuns.RunSound` | backend/src/trading/testnet-strategy-execution.service.ts:1038-1059 | an empty leg never carries cost |
| `FillRuns.SyncClosesOnlyExited` | backend/src/trading/testnet-strategy-execution.service.ts:1060-1071 | a sync that closes a position leaves at most dust in it and no open sub-position |
| `FillRuns.SubmitClosesOnlyExited` | backend/src/trading/testnet-strategy-execution.service.ts:499-501 | so does a submit |
| `FillClosing.AcceptedExactly` | backend/src/trading/testnet-strategy-execution.service.ts:209-262 | an order is accepted exactly when it is for a positive quantity and, for a sell, its leg is there and holds as much; an independent exit also needs its sub-position open |
| `FillClosing.SellClosesExactly` | backend/src/trading/testnet-strategy-execution.service.ts:1007-1071 | a sell leaves a sub-position open exactly while more than dust is left in it, the position exactly while the parent holds more than dust or a sub-position is open, and the other sub-positions as they were |
| `FillClosing.SubmitClosesExactly` | backend/src/trading/testnet-strategy-execution.service.ts:353-501 | what a submit leaves open: after a sell by that rule; a buy opens, and closes only when it was cancelled or rejected unfilled and nothing else is held or pending |
| `FillClosing.SyncClosesExactly` | backend/src/trading/testnet-strategy-execution.service.ts:739-937 | a sync likewise, on what it adds |
| `FillClosing.WaitingKeepsOpen` | backend/src/trading/testnet-strategy-execution.service.ts:1158-1171 | an order that may still be filled keeps its open position from being closed by an entry that comes to nothing |
| `FillClosing.WithinDustBooksNothing` | backend/src/trading/testnet-strategy-execution.service.ts:746-758 | a report whose total has not grown by more than 1e-12 coins books nothing |
| `FillClosing.SyncRefusedExactly` | backend/src/trading/testnet-strategy-execution.service.ts:757-765 | a sync is refused exactly when it has new sales for a sub-position that is not there |
| `FillPaths.BuyPathIndependent` | backend/src/trading/testnet-strategy-execution.service.ts:765-891 | however a buy's fills are split over the submit reply and syncs, every leg ends as after one reply with all of them |
| `FillPaths.SellPathIndependent` | backend/src/trading/testnet-strategy-execution.service.ts:892-907 | so does a sell: same holding, same cost, same profit apart from dropped dust |
| `FillPaths.SellPathDropsDust` | backend/src/trading/testnet-strategy-execution.service.ts:1047-1055 | and what is dropped on the way costs at most 1e-12 coins' worth |
| `FillPaths.DeltaOfLook` | backend/src/trading/testnet-strategy-execution.service.ts:744-758 | a sync books exactly the net amount of the trades that are new to it |
| `FillPaths.SellTwice` | backend/src/trading/testnet-strategy-execution.service.ts:998-1007 | selling in two reports leaves what one report leaves, also across a dust close |
| `FillCounters.CountersPathIndependent` | backend/src/trading/testnet-strategy-execution.service.ts:836-841 | dcaCount and recoveryDcaCount agree with one reply if and only if the first report had a fill or CountsAlike holds |
| `FillCounters.AlikeExactly` | backend/src/trading/testnet-strategy-execution.service.ts:383-384 | CountsAlike is exactly the condition under which submit and sync count a first fill the same |
| `FillCounters.AdvancesOnce` | backend/src/trading/testnet-strategy-execution.service.ts:801-802 | then a first fill advances its own counter by one and no other |
| `EntryCounts.DecisionsCountAlike` | backend/src/trading/testnet-strategy-runner.service.ts:494-555 | every entry the runner decides on with nothing pending satisfies CountsAlike |
| `EntryCounts.EntriesCountOnce` | backend/src/trading/testnet-strategy-execution.service.ts:836-841 | over every run of ticks and reports dcaCount is the number of ladder orders with a fill, and recoveryDcaCount that of recovery orders, whenever each first fill is seen |
| `FillCounters.LateFillOnEmptyParent` | backend/src/trading/strategy.controller.ts:248-263 | after a run that sells the parent out, an operator's own BUY counts when its fill is in the reply and not when a sync sees it first |
| `FillLedger.ReduceLeg` | backend/src/trading/testnet-strategy-execution.service.ts:1038-1057 | the statements shared by both sell bookings compute the leg after the sale and whether it closes |
| `FillLedger.PositionRows.constructor` | backend/src/trading/testnet-strategy-execution.service.ts:360-376 | an entry without an open position creates the row |
| `FillLedger.PositionRows.ApplyParentSellFill` | backend/src/trading/testnet-strategy-execution.service.ts:994-1036 | the parent row after a sell |
| `FillLedger.PositionRows.ApplyIndependentSellFill` | backend/src/trading/testnet-strategy-execution.service.ts:1038-1073 | the sub-position row after a sell, and the position when the last leg goes |
| `FillLedger.PositionRows.BookEntry` | backend/src/trading/testnet-strategy-execution.service.ts:377-486 | the rows after an entry at submit time |
| `FillLedger.PositionRows.BookEntryDelta` | backend/src/trading/testnet-strategy-execution.service.ts:766-891 | the rows after a sync of an entry |
| `FillLedger.PositionRows.CloseIfEmptyRow` | backend/src/trading/testnet-strategy-execution.service.ts:1158-1171 | closes a position that holds nothing and waits for nothing |
| `FillLedger.PositionRows.SubmitOrder` | backend/src/trading/testnet-strategy-execution.service.ts:353-541 | the whole submit transaction, or the refusal that leaves the rows alone |
| `FillLedger.PositionRows.SyncOrder` | backend/src/trading/testnet-strategy-execution.service.ts:739-940 | the whole sync transaction, or its rollback |
| `StrategyRunner.DecisionsAreAccepted` | backend/src/trading/testnet-strategy-execution.service.ts:209-262 | whatever a tick decides on the rows it read, the execution service's own checks accept |
| `StrategyRunner.SellsWholeLegs` | backend/src/trading/testnet-strategy-runner.service.ts:381-450 | a sell is always one whole leg of the basket |
| `RunnerDecisions.StopLossSellsTheTop` | backend/src/trading/testnet-strategy-runner.service.ts:65-100 | at or below the stop the tick sells the highest leg that holds coins, or the parent when none does, whatever else is due |
| `RunnerDecisions.NormalSellsExactly` | backend/src/trading/testnet-strategy-runner.service.ts:381-450 | otherwise, outside recovery, it sells if and only if a leg or the parent holds coins and has a positive target at or below the price: the first such leg in the order of levels, else the parent |
| `RunnerDecisions.RecoverySellsExactly` | backend/src/trading/testnet-strategy-runner.service.ts:276-332 | in recovery it sells if and only if something is held and the price has reached the stored target, or, when none is stored, the basket is worth its cost and the take profit more: from the top |
| `RunnerDecisions.NormalBuysExactly` | backend/src/trading/testnet-strategy-runner.service.ts:452-555 | when nothing is sold, the first recovery order is bought once an open first independent leg is left by its step, and otherwise the next ladder level once the price is at or below its trigger, both held back by a missing confirmation |
| `RunnerDecisions.RecoveryBuysExactly` | backend/src/trading/testnet-strategy-runner.service.ts:334-374 | in recovery, when nothing is sold: the next recovery order once the price is its step below the anchor and one is left and affordable |
| `RunnerDecisions.OpensExactly` | backend/src/trading/testnet-strategy-runner.service.ts:232-298 | without a position it opens one, for the planned amount, unless a dip is wanted and has not come |
| `StrategyRunner.BuysWithinBudget` | backend/src/trading/testnet-strategy-runner.service.ts:521-545 | no buy is sized beyond what the basket leaves of the risk budget |
| `StrategyRunner.LadderBuysThePlan` | backend/src/trading/testnet-strategy-runner.service.ts:521-545 | a ladder buy asks for exactly the plan's unrounded amount of its level while exposure follows the plan |
| `StopLoss.StopLossSellsEverything` | backend/src/trading/testnet-strategy-runner.service.ts:61-100 | a triggered stop-loss sells the whole basket at an unchanged price, one leg per tick, at whatever price it triggers, if and only if no remainder (the parent with the lowest k legs) was bought at a lower average than the whole |
| `StopLoss.StopHoldsExactly` | backend/src/trading/testnet-strategy-runner.service.ts:65-72 | the stop stays hit for every remainder at every price at which it is hit, under exactly that condition |
| `StopLoss.SellsThroughExactly` | backend/src/trading/testnet-strategy-runner.service.ts:74-78 | tick by tick at one price: every tick still finds the stop hit and sells if and only if every remainder is below its own stop, and after one tick a leg and one more nothing is left |
| `StopLoss.PartIsHit` | backend/src/trading/testnet-strategy-runner.service.ts:68-72 | a part with no lower average than the whole is below its stop wherever the whole is below its own |
| `StopLoss.FallingPricesHold` | backend/src/trading/testnet-strategy-runner.service.ts:74-76 | a basket whose legs were bought at falling prices meets the condition, whatever the quantities |
| `StopLossRuns.ExitLeavesRemainder` | backend/src/trading/testnet-strategy-execution.service.ts:994-1073 | once the exit that the stop-loss asks for is executed in full, the next tick reads the remainder, or the position is closed with at most dust left |
| `StopLossRuns.StopCanCease` | backend/src/trading/testnet-strategy-runner.service.ts:65-78 | a run of ticks from the opening buy on which the stop-loss sells the leg and then holds with the parent unsold, because a recovery buy has made the parent cheaper than the leg |
| `TickGuard.OneTickPerInstance` | backend/src/trading/testnet-strategy-runner.service.ts:185-194 | however ticks interleave and locks expire, an instance never has two ticks of one strategy in progress |
| `TickGuard.OneTickPerStrategy` | backend/src/trading/testnet-strategy-runner.service.ts:198-210 | while no lock expires under its tick, at most one tick of a strategy over all instances gets past the lock |
| `TickGuard.ExpiryMattersExactly` | backend/src/redis/redis-lock.service.ts:25-33 | an expiry lets a second instance in if and only if the lock was held by a tick |
| `TickGuard.LockGoesExactly` | backend/src/redis/redis-lock.service.ts:36-47 | after any run a lock goes if and only if it expires or the tick that holds it leaves; nobody else releases it or takes it over |
| `TickGuard.LostStaysLost` | backend/src/trading/testnet-strategy-runner.service.ts:198-210 | a tick whose lock expired under it does not get it back |
| `TickGuard.LockService.Acquire` | backend/src/redis/redis-lock.service.ts:25-33 | takes a free lock and no other |
| `TickGuard.LockService.Release` | backend/src/redis/redis-lock.service.ts:36-47 | releases only a lock held with the same token |
| `TickGuard.Runner.RunStrategy` | backend/src/trading/testnet-strategy-runner.service.ts:185-221 | an undisturbed tick decides exactly when both guards are free and nothing is pending, and releases both |
| `RiskBudget.BuildPlan` | backend/src/trading/risk-budget.service.ts:29-57 | the loop produces the planned levels, or refuses invalid input |
| `RiskBudget.PlanStep` | backend/src/trading/risk-budget.service.ts:35-50 | one round of the loop, and that a clipped level is the last |
| `RiskBudget.AllocationWithinBudget` | backend/src/trading/risk-budget.service.ts:35-50 | the unrounded plan sums to at most the budget, and funds every level in full unless it exhausts it |
| `RiskBudget.PlannedLevelsAreAmounts` | backend/src/trading/risk-budget.service.ts:41-46 | levels are numbered from one, and each rounded amount is within 1e-8 of the unrounded one |
| `RiskBudget.DropsAreSteps` | backend/src/trading/risk-budget.service.ts:41-50 | level k + 1 is listed k steps below the first, rounded to four decimals, never above the one before; the first is at the market and not independent, and there are at most 201 |
| `RiskBudget.RoundExact` | backend/src/trading/risk-budget.service.ts:97-100 | amounts with eight decimals are not changed by rounding |
| `RiskBudget.RoundedPlanCanExceedBudget` | backend/src/trading/risk-budget.service.ts:41-50 | a concrete plan whose rounded amounts exceed the budget |
| `RiskBudget.PlannedAmountHasEightDecimals` | backend/src/trading/risk-budget.service.ts:41-50 | when the budget and the requested sizes have eight decimals, so has every planned amount, the clipped one included |
| `RiskBudget.EightDecimalPlanIsExact` | backend/src/trading/risk-budget.service.ts:97-100 | then rounding changes none of them |
| `RiskBudget.EightDecimalPlanWithinBudget` | backend/src/trading/risk-budget.service.ts:41-50 | and the rounded plan keeps to the budget |
| `RiskBudget.RoundedPlanOvershoot` | backend/src/trading/risk-budget.service.ts:41-50 | any rounded plan exceeds the budget by at most half a unit of the eighth decimal, plus the epsilon, for each level |
| `RiskBudget.RunnerFollowsPlan` | backend/src/trading/testnet-strategy-runner.service.ts:494-534 | the runner asks for the planned amount, level by level, when fills cost what was planned |
| `RiskBudget.RunnerEntry` | backend/src/trading/testnet-strategy-runner.service.ts:239-241 | and so does its first buy |
| `Recovery.NextLeg` | backend/src/trading/recovery-strategy.service.ts:62-90 | a leg is positive, within the remaining budget and the configured count, and triggers below its anchor |
| `Recovery.LegsDescend` | backend/src/trading/recovery-strategy.service.ts:44-46 | later legs trigger strictly lower |
| `Recovery.BasketTotals` | backend/src/trading/recovery-strategy.service.ts:92-105 | the loop sums the parent and the open sub-positions |
| `SimulatorLoop.Simulate` | backend/src/trading/backtest-dca-simulator.service.ts:98-530 | refuses bad settings or prices, else returns the report of the run's last state |
| `SimulatorLoop.RunCandles` | backend/src/trading/backtest-dca-simulator.service.ts:196-506 | the candle loop computes the run |
| `SimulatorLoop.ProcessCandle` | backend/src/trading/backtest-dca-simulator.service.ts:196-506 | one candle in the source's order |
| `SimulatorLoop.ProcessBuys` | backend/src/trading/backtest-dca-simulator.service.ts:201-313 | cycle restart, ladder, anchor and recovery buys |
| `SimulatorLoop.BuyLadder` | backend/src/trading/backtest-dca-simulator.service.ts:211-266 | the ladder loop, which terminates |
| `SimulatorLoop.EnterLevel` | backend/src/trading/backtest-dca-simulator.service.ts:231-265 | one ladder buy |
| `SimulatorLoop.LadderIsBlocked` | backend/src/trading/backtest-dca-simulator.service.ts:216-237 | the checks that end the ladder loop |
| `SimulatorLoop.BuyRecovery` | backend/src/trading/backtest-dca-simulator.service.ts:275-313 | the recovery loop, which terminates |
| `SimulatorLoop.EnterRecoveryLeg` | backend/src/trading/backtest-dca-simulator.service.ts:289-312 | one recovery buy |
| `SimulatorLoop.RecoveryWillFire` | backend/src/trading/backtest-dca-simulator.service.ts:276-294 | the checks that end the recovery loop |
| `SimulatorLoop.TakeExits` | backend/src/trading/backtest-dca-simulator.service.ts:315-472 | stop-loss or one of the three take-profit paths |
| `SimulatorLoop.Sell` | backend/src/trading/backtest-dca-simulator.service.ts:322-333 | proceeds net of slippage and fee, and the logged result |
| `SimulatorLoop.SellAllLots` | backend/src/trading/backtest-dca-simulator.service.ts:334-338 | sells every lot from the last to the first and clears the list once |
| `SimulatorLoop.SellAll` | backend/src/trading/backtest-dca-simulator.service.ts:334-346 | sells the whole basket and leaves recovery mode |
| `SimulatorLoop.SellParentAtTarget` | backend/src/trading/backtest-dca-simulator.service.ts:414-442 | the parent's own take profit |
| `SimulatorLoop.SellLotsAtTarget` | backend/src/trading/backtest-dca-simulator.service.ts:444-470 | the scan that sells lots at their own targets while removing them |
| `SimulatorLoop.RecordEquity` | backend/src/trading/backtest-dca-simulator.service.ts:484-505 | peak, drawdown and equity point |
| `SimulatorTrades.RunIsItsLog` | backend/src/trading/backtest-dca-simulator.service.ts:189-530 | after any number of candles cash is the capital plus what the trade log brought in, and the coins held are those it bought and has not sold |
| `SimulatorTrades.TradesAreAtTheirCandles` | backend/src/trading/backtest-dca-simulator.service.ts:236-259 | every trade is at its candle's close moved by the slippage against the account, with its fee, and a buy's coins cost what the fee leaves |
| `SimulatorTrades.EquityIsCashAndCoins` | backend/src/trading/backtest-dca-simulator.service.ts:484-505 | each candle adds one equity point: the cash after it and every coin held at its close |
| `SimulatorEntries.LadderBuysExactly` | backend/src/trading/backtest-dca-simulator.service.ts:211-266 | the ladder loop buys exactly while its next level is due - the dip or a close at the cycle's price first, then the fall and its confirmation, with cash and budget left - each with the least of its allocation and what may be spent |
| `SimulatorEntries.RecoveryBuysExactly` | backend/src/trading/backtest-dca-simulator.service.ts:275-313 | the recovery loop buys exactly while its next leg is due, each with the least of its multiple of the first allocation and what may be spent |
| `SimulatorEntries.AnchorIs` | backend/src/trading/backtest-dca-simulator.service.ts:268-273 | the anchor is the average of the first independent level while that is held outside recovery, and otherwise stays |
| `SimulatorEntries.RunEntersExactly` | backend/src/trading/backtest-dca-simulator.service.ts:196-313 | what each candle of every run buys, by these conditions |
| `SimulatorEntries.LevelsShareTheCapital` | backend/src/trading/backtest-dca-simulator.service.ts:224-226 | without a base order the levels share out the whole capital, each the multiplier times the one before |
| `SimulatorCycles.CyclesCounted` | backend/src/trading/backtest-dca-simulator.service.ts:474-482 | a cycle ends, and is counted, exactly with a candle after which, in continuous mode, levels had been bought and nothing is held |
| `SimulatorCycles.NewCycleStarts` | backend/src/trading/backtest-dca-simulator.service.ts:201-209 | the candle after trades if and only if it may enter, and its first trade is then the first level |
| `SimulatorExits.ExitsExactly` | backend/src/trading/backtest-dca-simulator.service.ts:315-472 | what the exits of a candle do with what is held: all of it at or below the stop; in recovery all of it once the basket's target is reached; otherwise the parent and exactly the lots at their targets, the others kept in order |
| `SimulatorExits.ScanKeeps` | backend/src/trading/backtest-dca-simulator.service.ts:444-470 | the shrinking scan sells exactly the lots at their target |
| `SimulatorExits.LimitsLieAroundTheAverage` | backend/src/trading/backtest-dca-simulator.service.ts:315-365 | a stop lies below the average, at a price that can be reached, and the targets of the basket and of the parent lie above it |
| `SimulatorExits.ParentExitLevel` | backend/src/trading/backtest-dca-simulator.service.ts:340-340 | the parent's exit is reported at the highest level the parent may have bought, a recovery basket's at its last leg's |
| `SimulatorExits.RunExitsExactly` | backend/src/trading/backtest-dca-simulator.service.ts:315-472 | on every candle of every run |
| `SimulatorExits.StopLossFiresExactly` | backend/src/trading/backtest-dca-simulator.service.ts:315-351 | a candle's exits count a stop-loss and leave nothing held if and only if a stop is set and the close is at or below it, cross-multiplied; otherwise no stop-loss is counted |
| `SimulatorExits.StoppedCandleEndsFlat` | backend/src/trading/backtest-dca-simulator.service.ts:315-351 | so a candle that closes at or below the stop of what it holds ends flat |
| `SimulatorExits.StopLossesCounted` | backend/src/trading/backtest-dca-simulator.service.ts:347-347 | and over a run the stop-losses counted are exactly those candles |
| `SimulatorRun.RunSound` | backend/src/trading/backtest-dca-simulator.service.ts:191-530 | every reachable state keeps the account invariant, the drawdown definition, ladder spacing and the plan |
| `SimulatorRun.DrawdownIsLargestDrop` | backend/src/trading/backtest-dca-simulator.service.ts:491-499 | the running-peak drawdown is the maximum over all pairs i <= j of the equity curve, in [0, 100) |
| `SimulatorRun.LadderSpendsThePlan` | backend/src/trading/backtest-dca-simulator.service.ts:224-231 | until the first exit or recovery buy, a funded run spends exactly the unrounded planned amounts |
| `SimulatorResults.AccountStaysWithinLimits` | backend/src/trading/backtest-dca-simulator.service.ts:191-313 | cash never negative, exposure within the risk budget, cash + open cost = initial capital + realised results, distinct live lot levels |
| `SimulatorResults.ReportedProfit` | backend/src/trading/backtest-dca-simulator.service.ts:508-517 | the reported profit is the sum of the exits' results plus the unrealised gain at the last price |
| `SimulatorResults.DeployedIsPeakExposure` | backend/src/trading/backtest-run.service.ts:320-338 | replaying the trade log reproduces the simulator's exposure, so the reported maximum is its true peak |
| `SimulatorResults.ParentExitFloor` | backend/src/trading/backtest-dca-simulator.service.ts:414-441 | a parent take profit realises at least cost * ((1+tp)(1-slip)(1-fee) - 1) |
| `SimulatorResults.LotExitFloor` | backend/src/trading/backtest-dca-simulator.service.ts:444-468 | so does one lot's own take profit |
| `SimulatorFloors.ScanMeetsFloors` | backend/src/trading/backtest-dca-simulator.service.ts:444-470 | so does every lot that the shrinking scan sells |
| `SimulatorFloors.TakeProfitMeetsFloors` | backend/src/trading/backtest-dca-simulator.service.ts:414-470 | outside recovery every take-profit exit of a candle meets its floor |
| `SimulatorFloors.RunExitsPay` | backend/src/trading/backtest-dca-simulator.service.ts:353-472 | for all settings: what a candle of a run sells other than by the stop-loss meets its floor, exit by exit outside recovery, in sum over the basket in recovery |
| `SimulatorFloors.RunMeetsFloors` | backend/src/trading/backtest-dca-simulator.service.ts:353-472 | with neither a stop-loss nor recovery, every exit of a run meets its floor |
| `SimulatorResults.RecoveryExitFloor` | backend/src/trading/backtest-dca-simulator.service.ts:354-412 | a recovery close meets the same floor for the sum over all legs |
| `SimulatorResults.RecoveryClosePays` | backend/src/trading/backtest-dca-simulator.service.ts:359-365 | with a positive net floor a recovery close is a gain |
| `SimulatorResults.SellBasketRealized` | backend/src/trading/backtest-dca-simulator.service.ts:366-408 | the results of a basket sale add up to its proceeds less its cost |
| `SimulatorLaws.LadderInv` | backend/src/trading/backtest-dca-simulator.service.ts:211-266 | the ladder loop keeps the account invariant |
| `SimulatorLaws.RecoveryBuysInv` | backend/src/trading/backtest-dca-simulator.service.ts:275-313 | so does the recovery loop |
| `SimulatorLaws.ExitsInv` | backend/src/trading/backtest-dca-simulator.service.ts:315-472 | so do all exits |
| `SimulatorLaws.TradingInv` | backend/src/trading/backtest-dca-simulator.service.ts:196-482 | so does everything a candle trades |
| `SimulatorLaws.LogAppend` | backend/src/trading/backtest-run.service.ts:323-338 | a new trade extends the replay to the simulator's new holdings |
| `SimulatorLaws.EquityPositive` | backend/src/trading/backtest-dca-simulator.service.ts:484-491 | equity stays positive, so the drawdown never divides by zero |
| `SimulatorLadder.OneLadderBuyPerCandle` | backend/src/trading/backtest-dca-simulator.service.ts:216-221 | with positive triggers a candle makes at most one ladder buy |
| `SimulatorLadder.BuyIsDiscounted` | backend/src/trading/backtest-dca-simulator.service.ts:217-221 | the k-th ladder buy of a cycle is no higher than the first times the product of (1 - trigger/100) |
| `SimulatorLadder.TradingScheduled` | backend/src/trading/backtest-dca-simulator.service.ts:196-482 | spacing and plan survive everything a candle does |
| `Analytics.MaximumCapitalDeployed` | backend/src/trading/backtest-run.service.ts:320-338 | the loop computes the peak of the deployed capital over the log |
| `Drawdown.Extend` | backend/src/trading/backtest-dca-simulator.service.ts:491-499 | comparing a new point with the running peak is comparing it with every earlier point |
| `PaperLaws.RunInv` | backend/src/trading/paper-trading.service.ts:41-743 | after any ticks and requests: realised = sells - buys + open basket cost, basket within budget, both counters within their limits |
| `PaperCoins.RunHoldsItsCoins` | backend/src/trading/paper-trading.service.ts:41-743 | after any ticks and requests the coins of the parent and the open legs are those of the buy orders less those of the sell orders |
| `PaperCoins.OrdersAreAtTheirPrices` | backend/src/trading/paper-trading.service.ts:271-331 | every order is for its quantity at the price of the request that made it, and none ever changes |
| `PaperDecisions.NormalTickSellsExactly` | backend/src/trading/paper-trading.service.ts:170-189 | a tick outside recovery sells exactly the open legs at their targets, and then the parent if and only if its target, as it then stands, is reached |
| `PaperDecisions.NormalTickBuysExactly` | backend/src/trading/paper-trading.service.ts:191-211 | when the parent is not sold it buys the first recovery order once the price is its step below the anchor, and otherwise the next level once its trigger is reached |
| `PaperDecisions.RecoveryTickSellsExactly` | backend/src/trading/paper-trading.service.ts:385-395 | in recovery it sells the whole basket, if it holds anything, exactly when the basket's target is reached |
| `PaperDecisions.RecoveryTickBuysExactly` | backend/src/trading/paper-trading.service.ts:397-410 | otherwise it buys the next recovery order exactly when that is due and passes the budget's guard |
| `PaperDecisions.AddDcaExactly` | backend/src/trading/paper-trading.service.ts:110-119 | a level is bought by hand if and only if the position is open, the price positive and at or below the trigger, and the plan has a next level that fits the budget |
| `PaperDecisions.CloseExactly` | backend/src/trading/paper-trading.service.ts:121-126 | the parent is closed by hand if and only if the position is open, the price positive and the parent holds anything |
| `PaperDecisions.NothingWithoutAPrice` | backend/src/trading/paper-trading.service.ts:110-175 | at no positive price nothing is served |
| `PaperRows.RowsSay` | backend/src/trading/paper-trading.service.ts:41-743 | after any ticks and requests an open position holds something, every open leg is for its cost at its own price with its target above that, and outside recovery the parent's target is its average and the take profit more |
| `PaperRows.TargetIsAboveCost` | backend/src/trading/paper-trading.service.ts:297-298 | so the parent's target is above its cost |
| `PaperRows.LadderBuysSetTheTrigger` | backend/src/trading/paper-trading.service.ts:293-296 | every ladder buy takes the next level and sets the trigger of the one after it, below the price just paid by its own percentage, or none after the last |
| `PaperRows.OpeningSetsTheTrigger` | backend/src/trading/paper-trading.service.ts:54-60 | so does the opening |
| `PaperRows.ParentSaleClearsTheRow` | backend/src/trading/paper-trading.service.ts:709-720 | selling the parent takes both its prices off the row, and leaves the position open exactly while a leg is |
| `PaperRows.BasketIsOpenLegs` | backend/src/trading/recovery-strategy.service.ts:92-105 | the basket totals of the recovery service count the open legs as the position does |
| `PaperRows.ClosedIsFinal` | backend/src/trading/paper-trading.service.ts:233-245 | a closed position is served nothing any more |
| `PaperRecovery.RecoveryBuysSetTheRow` | backend/src/trading/paper-trading.service.ts:419-490 | a recovery buy counts one leg, keeps the anchor or takes the first leg's entry for it, clears the parent's target, and stores the basket's target and the next leg's trigger |
| `PaperRecovery.RecoverySaleEmpties` | backend/src/trading/paper-trading.service.ts:538-568 | the sale of the basket closes the position, takes every price off the row and empties the legs that were open, each with its own result |
| `PaperRecovery.TargetFollowsExactly` | backend/src/trading/paper-trading.service.ts:443-449 | over every run the stored target of recovery stays that of the basket throughout if and only if no request by hand leaves a basket of another average |
| `PaperRecovery.TargetKeptExactly` | backend/src/trading/paper-trading.service.ts:110-126 | request by request |
| `PaperRecovery.ByHandStrandsTheTarget` | backend/src/trading/paper-trading.service.ts:121-126 | a run from the opening after which closing the parent by hand in recovery leaves a leg whose stored target lies below its cost |
| `PaperLaws.ServeInv` | backend/src/trading/paper-trading.service.ts:110-219 | each request keeps it |
| `PaperLaws.OpenInv` | backend/src/trading/paper-trading.service.ts:41-108 | opening establishes it |
| `PaperLaws.ExecuteDcaInv` | backend/src/trading/paper-trading.service.ts:271-368 | a planned buy keeps it |
| `PaperLaws.ExecuteRecoveryDcaInv` | backend/src/trading/paper-trading.service.ts:419-512 | a recovery buy keeps it |
| `PaperLaws.CloseEligibleInv` | backend/src/trading/paper-trading.service.ts:589-680 | closing independent legs keeps it |
| `PaperLaws.RecoveryCloseInv` | backend/src/trading/paper-trading.service.ts:514-587 | closing the basket keeps it |
| `PaperLaws.ExecuteCloseInv` | backend/src/trading/paper-trading.service.ts:682-743 | closing the parent keeps it |
| `PaperLaws.SalesBalance` | backend/src/trading/paper-trading.service.ts:597-634 | what eligible legs are sold for is their profit plus the cost that leaves the basket |
| `PaperExits.TickBuysIntoClosedExactly` | backend/src/trading/paper-trading.service.ts:182-211 | a tick buys into a position it has just closed if and only if it closes the last legs of a sold-out parent and a buying rule is due on the row that leaves |
| `PaperReopening.TickBuysIntoClosed` | backend/src/trading/paper-trading.service.ts:377-382 | a run from the opening after which that happens |
| `PaperExits.ClosingLeavesNothing` | backend/src/trading/paper-trading.service.ts:643-656 | in every other case a closed position holds at most dust and no open leg |
| `PaperLedger.SellEligible` | backend/src/trading/paper-trading.service.ts:597-634 | the loop over eligible legs: rows, orders and profit |
| `PaperLedger.EmptyOpen` | backend/src/trading/paper-trading.service.ts:538-553 | the loop that empties every open leg's row |
| `PaperLedger.PaperAccount.CloseEligibleSubPositions` | backend/src/trading/paper-trading.service.ts:589-680 | the transaction that closes eligible legs and perhaps the position |
| `PaperLedger.PaperAccount.Close` | backend/src/trading/paper-trading.service.ts:682-743 | the parent's exit transaction |
| `PaperLedger.PaperAccount.CloseBasket` | backend/src/trading/paper-trading.service.ts:514-587 | the recovery exit transaction |
| `PaperLedger.PaperAccount.AddLevel` | backend/src/trading/paper-trading.service.ts:271-368 | the planned buy transaction |
| `PaperLedger.PaperAccount.AddRecoveryLeg` | backend/src/trading/paper-trading.service.ts:419-512 | the recovery buy transaction |
| `PaperLedger.PaperAccount.Tick` | backend/src/trading/paper-trading.service.ts:170-219 | a whole tick |
| `PaperLedger.PaperAccount.TickInRecovery` | backend/src/trading/paper-trading.service.ts:385-417 | a tick in recovery mode |
| `BillingRuns.LedgerAgrees` | backend/src/billing/billing.service.ts:354-372 | after any operations every balance is the sum of its entries, every balanceAfter the prefix sum, keys are unique, no position paid two profit fees, and no fee paid more than half of itself, one user twice, or its own payer |
| `BillingRuns.PerformInv` | backend/src/billing/billing.service.ts:90-300 | each operation keeps all of it |
| `BillingLaws.PostedSound` | backend/src/billing/billing.service.ts:364-371 | posting an entry with a new key keeps the sums and the keys |
| `BillingLaws.ReplayChangesNothing` | backend/src/billing/billing.service.ts:359-363 | posting a reference again changes nothing |
| `BillingRuns.SettlementCharges` | backend/src/billing/billing.service.ts:191-221 | a settlement claims the position and always charges a positive fee to its owner |
| `BillingRuns.SettlementChargesTheShare` | backend/src/billing/billing.service.ts:191-221 | a first settlement of a liable position charges its owner the configured percentage of a positive profit, rounded down to a unit, and nothing otherwise |
| `BillingRuns.RewardsAreShares` | backend/src/billing/billing.service.ts:343-349 | every reward is the configured percentage of the fee at its level, rounded down |
| `BillingRuns.MembershipBuysItsDays` | backend/src/billing/billing.service.ts:161-181 | an activation adds the membership's days to the time left and charges its price, or changes nothing when the balance is too low |
| `BillingRuns.SettlementOnce` | backend/src/billing/billing.service.ts:194-202 | settling a position again changes nothing |
| `BillingRuns.TransferOnce` | backend/src/billing/billing.service.ts:234-248 | crediting a transfer again changes nothing |
| `BillingReferrals.WalkVisitsOnce` | backend/src/billing/billing.service.ts:334-352 | on any graph the walk visits each upline at most once and never the payer |
| `BillingReferrals.WalkGoesOn` | backend/src/billing/billing.service.ts:337-342 | and stops early only for want of a referrer, at a missing one, or at one met before |
| `BillingReferrals.DistributionPays` | backend/src/billing/billing.service.ts:334-352 | exactly the listed rewards are posted: active uplines only, each once, never the payer, in total at most half the fee |
| `BillingReferrals.PaysTheList` | backend/src/billing/billing.service.ts:343-349 | level by level, each active upline gets its share rounded down |
| `BillingReferrals.AtMostHalf` | backend/src/billing/billing.service.ts:55-61 | validated percentages keep the rewards within half the fee |
| `BillingAccounts.CreatedExactly` | backend/src/billing/billing.service.ts:90-106 | an account that is there stays as it is; a new one starts empty under the given referrer, never itself, and is refused when that has none |
| `BillingAccounts.ReferralsFormAForest` | backend/src/billing/billing.service.ts:90-106 | over every run the referrals form a forest: no account is its own referrer, however far up |
| `BillingAccounts.WalkIsTheClimb` | backend/src/billing/billing.service.ts:334-342 | so the walk is the plain climb, and what it remembers never stops it |
| `BillingAccounts.RewardReachesExactly` | backend/src/billing/billing.service.ts:334-352 | a fee pays at a level if and only if there is a referrer that many steps above the payer, a member at the time, whose share is at least a unit; then it pays that one |
| `BillingBook.Book.Apply` | backend/src/billing/billing.service.ts:354-372 | moves the balance and appends the entry unless the key is there |
| `BillingBook.Book.EnsureAccount` | backend/src/billing/billing.service.ts:90-106 | creates an account that never refers to itself, or refuses one whose referrer has no account |
| `BillingBook.Book.DistributeReferralRewards` | backend/src/billing/billing.service.ts:334-352 | the walk with its mutable current upline and seen set posts exactly the specified rewards |
| `BillingBook.Book.Settle` | backend/src/billing/billing.service.ts:191-221 | the settlement transaction |
| `BillingBook.Book.Activate` | backend/src/billing/billing.service.ts:161-181 | the membership transaction |
| `BillingBook.Book.Credit` | backend/src/billing/billing.service.ts:227-249 | the deposit transaction; true exactly when this call credited |
| `BillingBook.Book.Adjust` | backend/src/billing/billing.service.ts:288-295 | the manual adjustment |
| `BillingBook.AcceptSettings` | backend/src/billing/billing.service.ts:46-61 | accepts exactly the valid settings |
| `DepositLaws.ExactlyOnce` | backend/src/billing/bsc-deposit.scanner.ts:69-119 | after any sequence of complete and interrupted runs every due transfer in a saved range has exactly one entry, for its owner and amount |
| `DepositLaws.NeverTwice` | backend/src/billing/billing.service.ts:234-248 | no transfer is ever credited twice |
| `DepositLaws.RunInv` | backend/src/billing/bsc-deposit.scanner.ts:69-119 | the invariant over all runs: contiguous ranges within the safe head, everything due in them credited |
| `DepositLaws.ScanKeeps` | backend/src/billing/bsc-deposit.scanner.ts:84-117 | a run that dies after any number of writes keeps it, and progress never goes back |
| `DepositLaws.ChunksCover` | backend/src/billing/bsc-deposit.scanner.ts:86-109 | the address chunks together query every known address |
| `DepositLaws.EveryBlockScanned` | backend/src/billing/bsc-deposit.scanner.ts:84-117 | every block between the first and the last scanned one lies in a saved range |
| `DepositLaws.ScanningBeginsAtTheStart` | backend/src/billing/bsc-deposit.scanner.ts:74-75 | the first range ever saved begins at the configured start block, or, without one, at the safe head of its run |
| `DepositLaws.EverythingSinceTheStart` | backend/src/billing/bsc-deposit.scanner.ts:74-116 | so every block from the start block to the last scanned one lies in a saved range, and a due deposit in it is credited once |
| `DepositLaws.OperationsTakeEffect` | backend/src/billing/billing.service.ts:354-372 | between runs every other billing operation takes its effect on the same ledger |
| `DepositProgress.RangesSpan` | backend/src/billing/bsc-deposit.scanner.ts:84-116 | a run, complete or not, saves at most its number of ranges, each of the configured length or up to its safe head |
| `DepositProgress.CompleteRunGetsFar` | backend/src/billing/bsc-deposit.scanner.ts:72-117 | a complete run gets to its safe head, or as many blocks on from where it starts as its ranges hold |
| `DepositLaws.CreditMatches` | backend/src/billing/billing.service.ts:227-249 | one credit posts one entry for a new transfer and nothing otherwise |
| `DepositScanner.Scanner.CreditLogs` | backend/src/billing/bsc-deposit.scanner.ts:93-108 | credits the logs of one query |
| `DepositScanner.Scanner.ScanRange` | backend/src/billing/bsc-deposit.scanner.ts:86-109 | all chunks of one block range |
| `DepositScanner.Scanner.CompleteRange` | backend/src/billing/bsc-deposit.scanner.ts:85-116 | a range, then its progress |
| `DepositScanner.Scanner.Scan` | backend/src/billing/bsc-deposit.scanner.ts:69-119 | an uninterrupted run performs exactly the listed writes |
| `EntrySignal.SignalIsLocal` | backend/src/trading/entry-signal.ts:92-123 | without an RSI filter the last requiredCandles candles give the decision, and the reason, of the whole history |
| `EntrySignal.BacktestDecidesOnWholeHistory` | backend/src/trading/backtest-dca-simulator.service.ts:148-152 | so the backtest's window decides as the whole history would |
| `EntrySignal.LiveCandlesAre` | backend/src/trading/entry-signal.service.ts:43-66 | the live rule reads the closed ones of the latest count + 1 klines: count candles while the newest forms, one more when it has just closed |
| `EntrySignal.LiveAgreesWithBacktest` | backend/src/trading/entry-signal.service.ts:35-39 | live and backtest decide alike without an RSI filter, while the newest kline forms, and while the history is no longer than the backtest's window |
| `EntrySignal.LiveReadsOneMore` | backend/src/trading/entry-signal.service.ts:51-56 | for every validated configuration with an RSI filter, a chart whose newest kline has just closed on which live buys and the backtest waits |
| `EntrySignal.AgreementIsWithoutRsi` | backend/src/trading/backtest-dca-simulator.service.ts:148-152 | for a validated configuration live and backtest decide alike on every chart if and only if it has no RSI filter |
| `EntrySignal.CapNeverShortensTheWindow` | backend/src/trading/strategy.service.ts:329-334 | the cap of 950 candles never shortens a validated configuration's window |
| `EntrySignal.LastIsSlice` | backend/src/trading/backtest-dca-simulator.service.ts:150-152 | the window is the slice that ends at the candle |
| `EntrySignal.RsiNeedsWholeHistory` | backend/src/trading/entry-signal.ts:113-120 | with an RSI filter no window suffices: for every validated configuration and every window length one early fall decides differently |
| `EntrySignal.RsiSeries` | backend/src/trading/entry-signal.ts:55-74 | the loops fill the series with Wilder's RSI |
| `EntrySignal.RsiBounds` | backend/src/trading/entry-signal.ts:65-65 | every RSI value lies in [0, 100] |
| `EntrySignal.IndexIsShareOfGains` | backend/src/trading/entry-signal.ts:65-65 | it is the percentage of gains in all movement, and 100 exactly when nothing was lost |
| `EntrySignal.RsiMirror` | backend/src/trading/entry-signal.ts:60-72 | mirroring the prices mirrors the RSI |
| `EntrySignal.DropMeansSomePairDropped` | backend/src/trading/entry-signal.ts:101-108 | the drop reaches the threshold exactly when some candle of the bounce lies that far below some candle of the look-back |
| `EntryRules.ConfirmedExactly` | backend/src/trading/entry-signal.ts:92-123 | the rule says yes if and only if there are candles enough, some candle of the bounce lies the wanted percentage below one of the look-back when the dip is asked for, some recent RSI is low enough when one is set, and the last candles are green, the last above the previous high where asked; otherwise it names the first of these that fails |
| `EntryRules.LookbackCovers` | backend/src/trading/entry-signal.ts:44-46 | the look-back is the fewest candles that cover its minutes |
| `EntryRules.SmoothMoves` | backend/src/trading/entry-signal.ts:67-72 | smoothing moves an average one period-th of the way to the new sample |
| `Base32.Encode` | backend/src/auth/totp.ts:8-22 | the loop over an unmasked 32-bit word spells the bit string in groups of five, as section 6 of RFC 4648 without padding |
| `Base32.DecodeClean` | backend/src/auth/totp.ts:26-39 | the loop reads the bit string back or refuses a foreign character |
| `Base32.Decode` | backend/src/auth/totp.ts:24-40 | the same after upper-casing and dropping blanks, `=` and `-` |
| `Base32.DecodeInvertsEncode` | backend/src/auth/totp.ts:8-40 | decoding what encoding wrote gives every byte sequence back |
| `Base32.RoundTrip` | backend/src/auth/totp.ts:8-40 | running both loops gives the input back |
| `Base32.PushBits` | backend/src/auth/totp.ts:13-13 | what the 32-bit shift drops is never needed |
| `Base32.AlphabetOrder` | backend/src/auth/totp.ts:4-4 | symbol k of the alphabet decodes to k |
| `Base32.EncodedTextIsClean` | backend/src/auth/totp.ts:25-25 | encoded text is not touched by the decoder's cleaning |
| `Base32.CharacterReadsAs` | backend/src/auth/totp.ts:25-25 | blanks, `=` and `-` may stand anywhere in the text, and small letters for capitals; a character of the alphabet counts as it is |

## Left out

- Exchange, chain, mail, messaging and database adapters: their effects are the steps and parameters of the models.
- `averageEntryPrice`, `nextDcaPrice` and `takeProfitPrice` of live positions: a parent sold out while independent legs are open divides 0 by 0 for its average (`testnet-strategy-execution.service.ts:1008`), and no property above depends on these columns.
- An independent entry without a level, which the submit books at level 1 while the order row records another: the model takes the level as given.
- ActionCancel.CancellationIsSafeExactly: the queries are those about the slot, while the source asks about the whole position or strategy, so another slot may hold a harmful run back for longer; and a tick's query and its count of attempts are one step, as are a claim's query and its insert.
- ActionCancel.UncoveredCancelFillsTwice: the same.
- ActionStore.ActionTable.Claim: whether another slot of the position is unresolved is an input. `ActionSafety` and `ActionSlots` need neither query, so their theorems cover more interleavings than the source allows.
- The manual retry of `ActionProtocol` does not look at the linked order, so it allows more than the source; `ActionStore.ActionTable.ManualRetry` does. The harmful runs of `ActionCancel` use it only where no order is linked.
- The testnet order-sync scheduler's own recovery of unresolved actions.
- Classification of failures: whether one is retryable is an input.
- Reports whose trades are read later than their totals: a snapshot's trades and totals belong together.
- PaperRows.RowsSay: the request that sets a take-profit price by hand is not modelled, so the targets are the computed ones.
- PaperRecovery.TargetFollowsExactly: the same.
- Take-profit prices set by hand, and stopping or emergency exits that race an order in flight.
- Formatting (`toFixed`), the precision of stored decimals and floating-point rounding, except the explicit rounding of the plan, the flooring of ledger amounts and `Number.EPSILON` in the budget guard.
- The simulator's variables are held as one value that its methods pass along; the source keeps them as local variables, with a list of lots updated in place.
- Replay of stored trades in the order of `executedAt` when several share it: the model replays in the order they were emitted, with unrounded amounts.
- Win rates, fees, equity durations and CSV export of the backtest report.
- Referral codes, deposit address derivation, the trading gate and summaries of the billing service; the number of deposits a scan reports.
- Base32.Decode: upper-casing and blanks are those of ASCII, not of Unicode. The one-time codes themselves are not part of this model.
- How long a lock lives: its expiry is a step that can come at any time.
- The 15 seconds for which the live service reuses the candles it has read; the clock of `EntrySignal.LiveSignal` is that of the request.
- SimulatorLoop.Simulate: the verdicts of the entry rule are inputs candle by candle, so the refusals for missing rule settings or candle fields are absent.
