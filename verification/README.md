# Decision logic, modelled and proved

This project models the decision logic between the feeds and the broker: how evidence is split in
time, how orders are planned, sized and bounded, how work is resumed, how scopes are promoted, and
how the books that carry state between runs are kept. Each file is one component; loops and objects
of the program are methods and classes proved against a specification, and what the program promises
is proved about that specification, over every input, run or history.

The modules named `...Figures` state a component's answers in numbers read off its inputs: which score is whose, what is
granted, what a trade pays, what is tried.

`dafny verify dfyconfig.toml` checks everything.

| file | component |
|---|---|
| `TakerLiquidity.dfy`, `Fees.dfy` | the depth-aware taker planner is optimal; its re-checks |
| `TimeBlocks.dfy`, `TemporalFolds.dfy`, `RecalPartition.dfy` | cluster-atomic chronological splitting |
| `WorkCursor.dfy` | the fair, resumable work cursor and its two-query form |
| `CandidateAllocation.dfy`, `AllocationFigures.dfy`, `MarketScan.dfy`, `OrderLoop.dfy` | the shared pot, the slice of markets a cycle decides on, and the cycle's exposure |
| `PromotionLadder.dfy` | the rate-limited promotion ladder over any runs |
| `BlendCalibration.dfy`, `ThresholdWalk.dfy`, `ThresholdFigures.dfy` | walk-forward code without look-ahead |
| `Percentiles.dfy`, `FamilyInterval.dfy`, `RecalReceipt.dfy`, `RecalFigures.dfy` | bootstrap intervals; the recalibration receipt and its validator |
| `Genomes.dfy`, `GenomePopulation.dfy`, `GenomeFigures.dfy`, `GenomeArchive.dfy` | the evolution lab's population and archive |
| `Candles.dfy`, `BookTape.dfy`, `Scarcity.dfy`, `AlertEdges.dfy` | candle roll-up, the book tape, A-row scarcity, edge-triggered alerts |
| `Options.dfy`, `TextOrder.dfy`, `StableSorting.dfy`, `Rounding.dfy`, `Extrema.dfy` | None or a value, string order, `sorted`, `int` and `round`, `min` and `max` |

## How values are read

Timestamps are integers. Prices and money in cents are integers. Probabilities, weights, edges and
volumes are exact reals; `int`, `floor` and `round` are written out, halves to even. Strings are
sequences of characters compared code point by code point. A dictionary whose order matters is a
sequence, `sorted` is a stable insertion sort, and a value that may be None is an `Option`.

Whatever the modelled code does not decide is an arbitrary parameter: the fee of a price and count
(the program's own is in `Fees`), the risk brain's budgets, the executor's answers, the weights, the
evidence gates of a scope, the random stream of a bootstrap, the Brier score of a market, and the digest
that names a genome. Where a result needs something of one, its `requires` says so: an executor that
submits no more than its decision, weights that are not negative, digests that do not collide on the genomes tried.

## Where the code and its words disagree

The model follows the code.

- `autonomy/candidate_allocation.py:16-22` states two bounds for every input. A negative pot grants
  zero, which is more than the pot, and a negative ask is granted zero, which is more than the ask;
  each bound holds exactly for a value that is not negative (`PotIsCeiling`, `GrantWithinAsk`).
- `README.md:347-351` promises a full grant to every ask when all fit the pot. The default policy keeps
  that for positive weights (`KellyInFull`, `FittingAsksInFull`). The proportional one grants in full exactly
  where the weighted share covers the ask (`ProportionalInFull`, `ProportionalCutsFittingAsks`), and top-k exactly
  the asks ranked below k (`TopKInFull`, `TopKFittingInFull`).
- A scope on the sticky demotion list is not active, so the engine may promote it again: the promotion is
  recorded, counts against the day's cap, and has no effect (`PromotionTakesEffectUnlessDemoted`,
  `DemotedScopeCanSpendTheCap`).
- The threshold choice reads an ROI of exactly zero as missing, so a loss too small to show in four decimals
  ranks behind a larger relative loss: exactly when its ROI rounds to zero (`ZeroRoiRanksLast`,
  `SmallLossIsBeaten`).
- The marker of the error-streak alert is never reset, so an episode can skip its third error or, if three
  errors long, stay silent (`ErrorEpisodeAlerts`, `SecondEpisodeIsSilent`).

## Model

| member | source | states |
|---|---|---|
| `TakerLiquidity.WholeContractLevels` | autonomy/executable_liquidity.py:139-169 | the loop builds the ask ladder of whole contracts, one level per price, cheapest first; malformed, off-grid and sub-contract entries are dropped, and the top quote stands in for an absent ladder |
| `TakerLiquidity.LadderBelow` | autonomy/executable_liquidity.py:139-169 | each level of that ladder holds exactly the whole contracts offered at its price; prices rise strictly and counts are positive |
| `TakerLiquidity.CountsWholeContracts` | autonomy/executable_liquidity.py:139-169 | the count at a price in cents never exceeds what is displayed there, loses at most one contract per entry to rounding, and is zero exactly where nothing is offered; off the grid it is zero |
| `TakerLiquidity.SweepLadder` | autonomy/executable_liquidity.py:226-253 | the level loop selects the best attainable count over the accepted levels, with fills, limit and depth seen as specified, on every ladder and every limit |
| `TakerLiquidity.AssessTakerLiquidity` | autonomy/executable_liquidity.py:172-313 | the whole assessment, refusals included, in the order the code tries them |
| `TakerLiquidity.SweepBuysMost` | autonomy/executable_liquidity.py:230-253 | no other choice of contracts from the accepted levels, within request, depth and cap at its own limit price, buys more than the sweep |
| `TakerLiquidity.EarlierLevelsExhausted` | autonomy/executable_liquidity.py:241-253 | every level before the last one used is taken to its full usable depth |
| `TakerLiquidity.SweepIsCheapest` | autonomy/executable_liquidity.py:230-253 | no choice of as many contracts costs less |
| `TakerLiquidity.SweepHasLowestLimit` | autonomy/executable_liquidity.py:275 | no choice of as many contracts ends on a lower limit price |
| `TakerLiquidity.SweepIsFeasible` | autonomy/executable_liquidity.py:241-253 | what the sweep takes is itself within request, depth and cap |
| `TakerLiquidity.OnlyAveragePriceCanRefuse` | autonomy/executable_liquidity.py:270-292 | after a non-empty sweep the notional and gross-edge re-checks never fire, nor does the net-EV one under any subadditive fee: then only the average-price cap decides |
| `TakerLiquidity.ProgramFeesLeaveOneRefusal` | autonomy/executable_liquidity.py:270-292 | under the program's own fees, with nothing assumed of them: once the sweep selects anything, the plan is allowed exactly when the average-price cap holds, and otherwise refused for it |
| `TakerLiquidity.PlanIsOptimal` | autonomy/executable_liquidity.py:172-313 | an allowed plan is a purchase the book permits, and none such gets more contracts, costs less for as many, or reaches a lower limit; permitted means: per level no more than the safety fraction of its displayed count, only at levels with the edge, EV and slippage asked for, within request and cap at the highest price bought |
| `TakerLiquidity.SweepIsPermitted` | autonomy/executable_liquidity.py:226-253 | the sweep itself is such a purchase |
| `TakerLiquidity.SweepIsOptimal` | autonomy/executable_liquidity.py:226-253 | no permitted purchase gets more contracts than the sweep, costs less for as many, or ends lower |
| `TakerLiquidity.OpensExactlyWhen` | autonomy/executable_liquidity.py:190-225 | the checks before the sweep let a request through exactly when it is well formed, the quote is whole and uncrossed, the spread is within its bound, and the ladder is there |
| `TakerLiquidity.AllowedExactlyWhen` | autonomy/executable_liquidity.py:172-313 | under the program's fees a plan is allowed exactly when the book opens and some best purchase gets a contract at an average price within the slippage cap |
| `TakerLiquidity.RefusalIsTrue` | autonomy/executable_liquidity.py:172-313 | every refusal names a defect that the request, the book or the ladder has |
| `TakerLiquidity.AllowedPlan` | autonomy/executable_liquidity.py:270-313 | what an allowed plan reports: count, limit, cost and fee of the optimal fills, within all caps |
| `TakerLiquidity.FillsWithinBook` | autonomy/executable_liquidity.py:241 | every fill takes no more than the safety fraction of the whole contracts displayed at its price, on the YES side for "yes" and the NO side otherwise |
| `TakerLiquidity.FillsWorthwhile` | autonomy/executable_liquidity.py:230-240 | every fill is within the slippage of the top ask and has the least edge and the least EV after its fee |
| `TakerLiquidity.PlanTotals` | autonomy/executable_liquidity.py:253-313 | the counts, limit, cost, fee and notional reported are the totals of the fills, at rising prices |
| `TakerLiquidity.PlanRates` | autonomy/executable_liquidity.py:257-313 | the average price, gross edge, EV, slippage and fill fraction reported are those ratios, and meet their limits |
| `TakerLiquidity.PlanDepths` | autonomy/executable_liquidity.py:226-253 | the visible depth is all that is displayed within the slippage bound; the usable depth covers the plan within the safety fraction |
| `Fees.TakerFeeSubadditive` | autonomy/fees.py:145-161 | the program's taker fee for n contracts never exceeds n single fees |
| `Fees.TakerFeeIs` | autonomy/fees.py:145-161 | the fee is seven percent of count times price times the other side's price, rounded up to whole cents, so the guard never takes a cent off; nothing off the price range or in a fee-free series |
| `TimeBlocks.GroupByCluster` | autonomy/evolution_lab.py:352-354 | the grouping loop: cluster keys in order of first appearance, each with exactly its rows in order |
| `TimeBlocks.BuildBlocks` | autonomy/evolution_lab.py:356-376 | the merge loop over sorted cluster intervals produces the specified blocks |
| `TimeBlocks.BlocksPartition` | autonomy/evolution_lab.py:342-348 | blocks are strictly ordered in time, share no cluster, and hold exactly the given rows as a multiset |
| `TimeBlocks.BlocksIndivisible` | autonomy/backtest.py:1466-1482 | no strict chronological cut that keeps clusters whole can divide a block: merging gives away nothing |
| `TemporalFolds.TemporalFolds` | autonomy/evolution_lab.py:339-385 | the fold-building loops on an array of folds produce the specified folds for every row list and requested count |
| `TemporalFolds.FoldsConserveRows` | autonomy/evolution_lab.py:378-385 | the folds together hold exactly the rows, as a multiset |
| `TemporalFolds.ClusterInOneFold` | autonomy/evolution_lab.py:342-348 | all rows of a cluster are in one fold |
| `TemporalFolds.FoldsInOrder` | autonomy/evolution_lab.py:342-348 | every row of a fold was created strictly before every row of a later fold |
| `TemporalFolds.FoldsNonempty` | autonomy/evolution_lab.py:378-382 | no fold is empty |
| `TemporalFolds.FoldsAsAsked` | autonomy/evolution_lab.py:378-385 | there are folds exactly for a positive request on some rows, and never more than asked for |
| `TemporalFolds.FoldsCannotBeMore` | autonomy/evolution_lab.py:378-385 | where there are fewer than asked for, no strict chronological cut that keeps clusters whole divides any fold: there could not be more |
| `TemporalFolds.FoldInOrder` | autonomy/evolution_lab.py:383-385 | within a fold rows are in order of decision and then of ticker |
| `TemporalFolds.FoldIsRun` | autonomy/evolution_lab.py:380-382 | the fold index formula deals the blocks out in consecutive runs |
| `TemporalFolds.FoldsBalanced` | autonomy/evolution_lab.py:380-382 | those runs differ in length by at most one block |
| `TemporalFolds.LabWindows` | autonomy/evolution_lab.py:749-754 | the lab's fold loop: history, training settled before the first test decision, and the purged test rows |
| `TemporalFolds.WindowRows` | autonomy/evolution_lab.py:749-754 | a window trains on exactly the earlier rows settled before every decision of its fold, and tests on exactly the rows of clusters it does not train on |
| `TemporalFolds.PurgeRemovesNothing` | autonomy/evolution_lab.py:749-754 | on these folds the cluster purge keeps every test row, and every training row was decided and settled before the first test decision |
| `RecalPartition.ClusterAtomicPartition` | autonomy/backtest.py:1360-1551 | the whole split with all its exits, in the code's order |
| `RecalPartition.SplitRows` | autonomy/backtest.py:1434-1551 | the loop that takes latest blocks until both holdout thresholds are met |
| `RecalPartition.SuffixIsCut` | autonomy/backtest.py:1484-1512 | every proper run of latest blocks is a strict chronological cut that keeps clusters whole and leaves something to train on |
| `RecalPartition.LegalIsSuffix` | autonomy/backtest.py:1466-1482 | and every such cut is a run of latest blocks |
| `RecalPartition.SplitOutcome` | autonomy/backtest.py:1440-1551 | when the split succeeds its holdout is legal and its cluster sets are those of the held rows; the two closing failures are never returned |
| `RecalPartition.SplitExactlyWhenPossible` | autonomy/backtest.py:1434-1551 | the split succeeds exactly when some legal split exists, and then its holdout is contained in every legal one |
| `RecalPartition.PartitionExactlyWhenPossible` | autonomy/backtest.py:1360-1551 | the same for the whole function on valid markets with target at least the minimum; the exits for an insufficient atomic holdout and a failed chronology check are unreachable |
| `RecalPartition.PartitionOutcomes` | autonomy/backtest.py:1360-1551 | each outcome of the whole split by a condition on the ledger: too few markets for the share held out, invalid rows, too few clusters, no legal cut of at least that share, or else a cut |
| `WorkCursor.FairBatch` | autonomy/crypto_horizon_evidence.py:676-717 | the batch, its counts, cursor and wrapped flag for every value list, cursor and limit, duplicates included |
| `WorkCursor.BatchIs` | autonomy/crypto_horizon_evidence.py:691-717 | a batch takes as many keys as the limit allows, defers the rest, moves the cursor to the last key taken, and has wrapped exactly when that key is not beyond the old cursor |
| `WorkCursor.BatchInOrder` | autonomy/crypto_horizon_evidence.py:706-711 | it takes the keys beyond the cursor first, each side in order, and passes none over |
| `WorkCursor.TwoQueriesAgree` | autonomy/crypto_horizon_evidence.py:963-1031 | the two range queries give the same keys, order, total, deferred count, cursor and wrapped flag as the simple batch, for every cursor (even of a deleted key) and limit |
| `WorkCursor.DueTickers` | autonomy/crypto_horizon_evidence.py:984-992 | a ticker is due exactly when it has an emitted row, not settled, closed by the cutoff |
| `WorkCursor.NothingJumped` | autonomy/crypto_horizon_evidence.py:685-689 | a run that moves the cursor attempts exactly the eligible keys in the cyclic interval from the old to the new cursor, wherever the deadline cut it |
| `WorkCursor.RunAttempts` | autonomy/crypto_horizon_evidence.py:2351-2385 | a run attempts as many keys as there are, as its limit allows, or as its deadline lets through, whichever is least, and leaves the cursor at the last |
| `WorkCursor.RunApproaches` | autonomy/crypto_horizon_evidence.py:706-717 | a run that misses a key brings the cursor nearer to it by as many keys as it attempted |
| `WorkCursor.NoStarvation` | autonomy/crypto_horizon_evidence.py:685-689 | under any insertions, deletions, limits and deadlines, a key eligible throughout is attempted once the attempts reach the number of keys ahead of it |
| `WorkCursor.ShrinkingSetSwept` | autonomy/crypto_horizon_evidence.py:685-689 | on a set that only shrinks, attempts equal to its first size reach every survivor |
| `WorkCursor.EvidenceStore.ReconcileFallback` | autonomy/crypto_horizon_evidence.py:2351-2385 | the fallback loop attempts a prefix of the batch up to the deadline, leaves the cursor at the last attempted key, and settles exactly the tickers with a result |
| `WorkCursor.SettledRows` | autonomy/crypto_horizon_evidence.py:2351-2385 | asking for some tickers settles exactly their emitted unsettled rows that have a result, with that result, and touches no other |
| `CandidateAllocation.PayLoop` | autonomy/candidate_allocation.py:126-176 | the payment loop with its running pot |
| `CandidateAllocation.AllocatePot` | autonomy/candidate_allocation.py:58-95 | the dispatch over the three policies, sorted by candidate id |
| `CandidateAllocation.PotIsCeiling` | autonomy/candidate_allocation.py:16-20 | for every input the grants total at most the pot exactly when the pot is not negative, and a pot of zero or less grants nothing |
| `CandidateAllocation.OneGrantPerAsk` | autonomy/candidate_allocation.py:58-95 | every candidate id gets exactly as many grants as it has asks, under every policy and input |
| `CandidateAllocation.GrantIsAmount` | autonomy/candidate_allocation.py:98-204 | every grant equals a closed form of totals alone, with no running pot and no order of processing, and carries its ask's weight and the reason for the amount |
| `AllocationFigures.ProportionalGrants` | autonomy/candidate_allocation.py:153-177 | the proportional policy grants a positive ask the greatest number of cents within the ask and within its weight's share of the pot among all positive asks; nothing under a total weight of zero |
| `AllocationFigures.KellyGrants` | autonomy/candidate_allocation.py:98-150 | the default policy grants nothing without a positive weight, everything while the asks with one fit, and otherwise the greatest number of cents within the ask and its weighted share |
| `AllocationFigures.TopKGrants` | autonomy/candidate_allocation.py:180-204 | top-k grants nothing to an ask with k others ahead of it by weight and then by id, and to the rest what those ahead leave, up to the ask |
| `AllocationFigures.NothingGranted` | autonomy/candidate_allocation.py:76-95 | no pot grants nothing, and neither does an ask for nothing |
| `CandidateAllocation.KellyUnclamped` | autonomy/candidate_allocation.py:137-149 | the running remainder never binds in an oversubscribed kelly split |
| `CandidateAllocation.ProportionalUnclamped` | autonomy/candidate_allocation.py:168-176 | nor in a proportional one |
| `CandidateAllocation.GrantWithinAsk` | autonomy/candidate_allocation.py:21-22 | under every weight a grant stays within its ask exactly when the ask is not negative; weights that are not negative grant nothing negative |
| `CandidateAllocation.AskForGrant` | autonomy/candidate_allocation.py:16-22 | for every input, repeated ids and negative weights included, each grant has an ask of its id that it stays within exactly when that ask is not negative |
| `CandidateAllocation.GrantForAsk` | autonomy/candidate_allocation.py:58-95 | every ask has a grant of its id, worth the closed form |
| `CandidateAllocation.OrderDoesNotMatter` | autonomy/candidate_allocation.py:74-75 | the same asks in any order give the same grants |
| `CandidateAllocation.AddingNeverRaises` | README.md:356-358 | adding a candidate never raises an existing grant, under all three policies |
| `CandidateAllocation.KellyInFull` | autonomy/candidate_allocation.py:107-150 | for every pot, the default policy grants a positive ask in full exactly when its weight is positive and either the fundable asks fit or the weight times the pot covers the weighted demand |
| `CandidateAllocation.FittingAsksInFull` | README.md:347-351 | when the fundable asks fit the pot, the default policy grants a positive ask in full exactly when its weight is positive |
| `CandidateAllocation.ProportionalInFull` | README.md:347-351 | the proportional policy grants a positive ask in full exactly when its weighted share of the pot covers it |
| `CandidateAllocation.TopKInFull` | README.md:347-351 | top-k grants a positive ask in full exactly when it ranks below k and the asks above it leave room for it |
| `CandidateAllocation.TopKFittingInFull` | README.md:347-351 | so when all asks fit the pot, top-k grants in full exactly the asks ranked below k |
| `CandidateAllocation.ProportionalCutsFittingAsks` | README.md:347-351 | a list on which the proportional policy makes a grant of half an ask although both asks fit the pot |
| `MarketScan.Scan` | autonomy/scanner.py:213-240 | the sweep over the watchlist pages with its set of seen tickers, failed fetches skipped |
| `MarketScan.ScanDistinct` | autonomy/scanner.py:220-239 | no ticker is found twice, whatever the pages repeat |
| `MarketScan.ScanFinds` | autonomy/scanner.py:220-239 | a ticker is found exactly when some fetched page lists it open, in a traded vertical and not quarantined |
| `MarketScan.BuildSlice` | autonomy/brain.py:865-1160 | the sweep, the filters, the scoring loop, the ranking and its repeat after calibration, and the cut to 100 candidates |
| `MarketScan.SliceDistinct` | autonomy/brain.py:865-1160 | a cycle decides on each ticker at most once and on at most 100, whatever the venue lists and the gates let through |
| `MarketScan.SliceIsFastest` | autonomy/brain.py:865-1160 | a trading cycle decides on the hundred fastest views that pass its gates, fastest first, or on all of them; one that does not trade, on none |
| `OrderLoop.RiskState.PlaceOrders` | autonomy/brain.py:1226-1324 | the order loop on exposure and open markets, with its order cap, early stop and failed risk save, for arbitrary risk budgets and executor answers |
| `OrderLoop.DecisionBuysMost` | autonomy/allocator.py:263-307 | a decision buys exactly when one contract fits the risk budget and the grant, and then at the budget's price the most contracts that fit both |
| `OrderLoop.RiskState.RunCycle` | autonomy/brain.py:865-1324 | a whole cycle from the venue's pages: slice, pool, pot, allocation and loop; exposure stays within the larger of its start and the stage's share of the bankroll, and open markets within the larger of their start and the stage's limit |
| `OrderLoop.LoopWithinPot` | autonomy/brain.py:1190-1324 | over distinct tickers, an executor that submits no more than the decision's notional keeps the total submitted within the pot |
| `OrderLoop.LoopSpends` | autonomy/brain.py:1226-1324 | up to the first candidate that stops it, the loop spends for each order what the executor reports or else the greatest multiple of the price within budget and grant, and nothing after it |
| `OrderLoop.PotIsStageShare` | autonomy/brain.py:1182-1189 | the pot is the throttled room that exposure leaves below the stage's share of the bankroll, to the cent, and never negative |
| `OrderLoop.OnlyFreeSlotsAreGranted` | autonomy/brain.py:1177-1181 | a market of the slice gets a grant exactly when it is among the first that the stage has room for |
| `OrderLoop.OpenMarketsBound` | autonomy/brain.py:1177-1324 | whatever the risk brain and the executor answer, a cycle leaves no more markets open than it found, or than the stage allows |
| `OrderLoop.ExposureBound` | autonomy/brain.py:1182-1189 | for any pages, gates, budgets and any executor that submits no more than the decision's notional, the cycle submits at most the pot, and exposure ends at most at the larger of its start and the bankroll's share for the stage |
| `OrderLoop.TakerObeys` | autonomy/executor.py:812-870 | an order repriced by the taker planner submits no more than its decision's notional, so the bound applies to it |
| `PromotionLadder.EvaluateRails` | autonomy/auto_promotion.py:919-948 | the rails that trip, in the order they are examined |
| `PromotionLadder.RailsHoldExactlyWhen` | autonomy/auto_promotion.py:919-948 | no rail trips exactly on a live, healthy system with fresh evidence whose last cycle, if it failed, failed on contention within two hours of a good one |
| `PromotionLadder.ReviewPromoted` | autonomy/auto_promotion.py:1046-1078 | the demotion and escalation loops over promoted scopes |
| `PromotionLadder.ReviewNewScopes` | autonomy/auto_promotion.py:1080-1144 | the loop over new scopes, each promoted as a candidate, withheld for review, declined, set aside as a replacement, or skipped |
| `PromotionLadder.ApplyCap` | autonomy/auto_promotion.py:1149-1161 | the loop that accepts within the day's budget and defers the rest |
| `PromotionLadder.Decide` | autonomy/auto_promotion.py:1035-1162 | one decision run |
| `PromotionLadder.AcceptedRankAhead` | autonomy/auto_promotion.py:1146-1161 | an accepted action has a higher rank than any deferred one, or the same rank and no later a name |
| `PromotionLadder.CapIsSpent` | autonomy/auto_promotion.py:1149-1161 | something is deferred only when what is left of the day's cap is accepted to the last action |
| `PromotionLadder.EveryScopeIsDecided` | autonomy/auto_promotion.py:1046-1144 | each list of a run holds exactly the scopes its evidence calls for: breached, passing the escalation test below stage 2, and eligible new ones by their verdict |
| `PromotionLadder.OneDecisionPerScope` | autonomy/auto_promotion.py:1046-1162 | a scope gets at most one decision in a run |
| `PromotionLadder.RunKeepsCap` | autonomy/auto_promotion_runner.py:780-783 | a run records at most what is left of its day's cap and touches no other day |
| `PromotionLadder.RunRecords` | autonomy/auto_promotion_runner.py:641-711 | a run adds to its day one counting record for each accepted escalation and each accepted promotion of a well-formed scope, and none to another day |
| `PromotionLadder.CapHoldsForever` | autonomy/auto_promotion_runner.py:776-783 | over any sequence of runs on one ledger, the promotion and escalation records of a day never exceed the cap |
| `PromotionLadder.DemotionIsSticky` | autonomy/auto_promotion_runner.py:894-912 | a demoted scope stays demoted through any later runs |
| `PromotionLadder.BreachDeactivates` | autonomy/auto_promotion.py:1046-1058 | a breached promoted scope is inactive after the run, whatever the cap has left |
| `PromotionLadder.RailsStopEverything` | autonomy/auto_promotion.py:1035-1036 | a tripped rail yields no decision and leaves one abort record |
| `PromotionLadder.ChangesNeedHealthyRails` | autonomy/auto_promotion_runner.py:776-814 | a run that changes the registry found its ledger intact, its database there, and each rail holding |
| `PromotionLadder.OneRungAtATime` | autonomy/auto_promotion_runner.py:655-699 | a run raises a scope by at most one stage |
| `PromotionLadder.PromotionTakesEffectUnlessDemoted` | autonomy/promotion.py:91-132 | an accepted promotion makes its scope active exactly when the scope is not on the sticky demotion list |
| `PromotionLadder.EscalationTakesEffect` | autonomy/auto_promotion_runner.py:655-699 | an accepted escalation is recorded and leaves its scope active at stage 2 |
| `PromotionLadder.DemotedScopeCanSpendTheCap` | autonomy/auto_promotion_runner.py:655-679 | a run in which a demoted scope with a well-formed name is promoted again, spends the day's cap, and stays inactive |
| `PromotionLadder.PromotionRunner.Apply` | autonomy/auto_promotion_runner.py:641-711 | the ledger and registry after applying a result |
| `PromotionLadder.PromotionRunner.CountUsed` | autonomy/auto_promotion_runner.py:780-783 | the day's promotions and escalations, counted in the ledger |
| `PromotionLadder.PromotionRunner.Run` | autonomy/auto_promotion_runner.py:776-912 | a whole run on the stored books |
| `BlendCalibration.TimestampValid` | autonomy/crypto_horizon_evidence.py:1263-1307 | the rows with usable, causal timestamps in decision order, and how many were excluded for which reason |
| `BlendCalibration.SettledRows` | autonomy/crypto_horizon_evidence.py:1263-1307 | the rows used are exactly the complete ones settled after their decision, by decision and then by id |
| `BlendCalibration.ExclusionsCount` | autonomy/crypto_horizon_evidence.py:1263-1307 | every other row is counted under exactly one reason |
| `BlendCalibration.FitMarketBlend` | autonomy/crypto_horizon_evidence.py:1237-1260 | the loop over the candidate shares |
| `BlendCalibration.FitIsBest` | autonomy/crypto_horizon_evidence.py:1247-1260 | no candidate share has a smaller mean squared error; of equal ones the smallest is taken |
| `BlendCalibration.FitIsNearest` | autonomy/crypto_horizon_evidence.py:1237-1260 | the fitted share is the point of the grid 0, 0.05, ..., 1 nearest to the least-squares share, the lower of two equally near, and zero where model and market never differ |
| `BlendCalibration.ExpandingWindow` | autonomy/crypto_horizon_evidence.py:1325-1366 | the loop over the tests with its training windows, skips and withheld counts |
| `BlendCalibration.TrainingRows` | autonomy/crypto_horizon_evidence.py:1337-1343 | what trains for a decision is exactly the usable rows decided and settled strictly before it |
| `BlendCalibration.CalibratedMoves` | autonomy/crypto_horizon_evidence.py:1350-1357 | the calibrated probability moves from the market toward the model by the fitted share, within 0.005 and 0.995 |
| `BlendCalibration.ReportIs` | autonomy/crypto_horizon_evidence.py:1337-1366 | the report scores exactly the rows with enough training rows, in decision order, gives each training size, and counts the rows withheld as unsettled |
| `BlendCalibration.NoLookAhead` | autonomy/crypto_horizon_evidence.py:1316-1325 | changing, adding or removing outcomes not settled strictly before a decision changes neither the share fitted for it nor its calibrated probability |
| `BlendCalibration.ReportIsCalibrated` | autonomy/crypto_horizon_evidence.py:1337-1366 | every scored row carries exactly that calibrated probability, and the squared misses of it and of the market |
| `BlendCalibration.ReportCoversAll` | autonomy/crypto_horizon_evidence.py:1337-1353 | every usable row is scored or skipped, and each scored one had the required training rows |
| `ThresholdWalk.ThresholdTrades` | autonomy/backtest.py:474-497 | the trades a threshold takes, in row order |
| `ThresholdFigures.TradeSettles` | autonomy/backtest.py:474-497 | a trade buys the side the forecast thinks too cheap, at the cent nearest that side's market price plus the fee, and pays a hundred cents when that side wins |
| `ThresholdFigures.MirrorTrade` | autonomy/backtest.py:474-497 | a market quoted from its other side gives the same trades |
| `ThresholdFigures.TradesAreWide` | autonomy/backtest.py:474-497 | a threshold trades exactly the rows whose forecast and market are at least that many cents apart |
| `ThresholdWalk.Summarize` | autonomy/backtest.py:442-471 | count, profit, cost and ROI of the trades, and a drawdown that is the worst fall between any two points of the profit curve |
| `ThresholdFigures.RoiIsRatio` | autonomy/backtest.py:464 | the ROI is profit over cost to four decimals, and missing exactly where nothing was paid |
| `ThresholdWalk.SelectThreshold` | autonomy/backtest.py:533-549 | the choice among the ten thresholds |
| `ThresholdWalk.SelectedIsBest` | autonomy/backtest.py:538-549 | no threshold of the pool beats the chosen one |
| `ThresholdFigures.ChoiceInNumbers` | autonomy/backtest.py:533-549 | the chosen threshold may be chosen and none such made more; of equals it has the best ROI of those neither missing nor zero, then it is the largest; none is chosen exactly where nothing is traded |
| `ThresholdWalk.WalkForward` | autonomy/backtest.py:513-571 | the loop over folds with its history, reports and out-of-sample trades |
| `ThresholdFigures.TrainsOnSettled` | autonomy/backtest.py:521-528 | a fold trains on exactly the rows of earlier folds settled before every decision of its own |
| `ThresholdFigures.ScoresTheRest` | autonomy/backtest.py:527-562 | and scores exactly its rows of clusters it did not train on, at the threshold chosen from the training rows, with the counts and start reported |
| `ThresholdFigures.ReportsAre` | autonomy/backtest.py:519-564 | exactly the folds after the first that have a threshold to choose are reported |
| `ThresholdFigures.ReportsInOrder` | autonomy/backtest.py:519-564 | in the order of the folds |
| `ThresholdWalk.ThresholdHasNoLookAhead` | autonomy/backtest.py:522-549 | changing results not settled before a fold's first decision changes neither its training rows nor its threshold |
| `ThresholdWalk.ScoredAreUnseen` | autonomy/backtest.py:521-530 | every trade scored in a fold was decided after every training row settled and shares no cluster with the training rows |
| `ThresholdWalk.ZeroRoiRanksLast` | autonomy/backtest.py:542-549 | of two thresholds with the same net loss, the one with the better ROI is beaten exactly when that ROI rounds to zero |
| `ThresholdWalk.SmallLossIsBeaten` | autonomy/backtest.py:533-549 | training rows of 410 markets, under the program's fees, on which the threshold with the worse ROI is selected for that reason |
| `ThresholdWalk.ChronologicalFolds` | autonomy/backtest.py:500-510 | rows sorted by creation and ticker and dealt into folds by index |
| `ThresholdWalk.RowFold` | autonomy/backtest.py:507-509 | the index formula puts a row in the run that contains it |
| `ThresholdWalk.RunsAreConsecutive` | autonomy/backtest.py:500-510 | the folds are consecutive, cover all rows, and none is empty |
| `ThresholdWalk.FoldsConserveRows` | autonomy/backtest.py:500-510 | the folds put together are the sorted rows, so none is lost, repeated or out of order, and no fold is empty |
| `ThresholdFigures.FoldsInTime` | autonomy/backtest.py:500-510 | no row was created before one of an earlier fold, or at the same time with an earlier ticker |
| `ThresholdFigures.FoldsAreEven` | autonomy/backtest.py:500-510 | the folds are as many as asked for, or as there are rows, and differ in size by at most one |
| `Percentiles.PercentileMonotone` | autonomy/auto_promotion.py:272-280 | the interpolated percentile never falls as the quantile rises |
| `Percentiles.PercentileInterpolates` | autonomy/auto_promotion.py:272-280 | a percentile lies on the straight line between the two ordered values around position (n - 1) * q |
| `Percentiles.PercentileRank` | autonomy/auto_promotion.py:272-280 | fewer than one more value than the position says lies strictly below it, and the same from above |
| `Percentiles.PercentileInSample` | autonomy/auto_promotion.py:272-280 | it lies between two values of the sample |
| `Percentiles.PercentileIgnoresOrder` | autonomy/auto_promotion.py:272-280 | it depends on the sample as a multiset only |
| `FamilyInterval.ClusterBootstrapCi` | autonomy/auto_promotion.py:283-332 | the aggregation and the nested resampling loops, for every random stream |
| `FamilyInterval.EndsCutTheTails` | autonomy/auto_promotion.py:283-332 | on two or more clusters the ends are the six-decimal roundings of the ordered resample means read at positions 999 * t and 999 * (1 - t), with t 0.025 over the family size; fewer than 999 * t + 1 of the thousand lie outside either |
| `FamilyInterval.ResamplesArePlain` | autonomy/auto_promotion.py:299-320 | the pairs of a total and a count that are resampled stand for the plain means of all values of the clusters drawn |
| `FamilyInterval.FamilyWidens` | autonomy/auto_promotion.py:292-296 | a larger family only widens the interval, around the same mean, and its ends never cross |
| `FamilyInterval.ClearsZeroInSmallerFamilies` | autonomy/auto_promotion.py:292-296 | a lower bound above zero at one family size is above zero at every smaller one |
| `FamilyInterval.IntervalWithinMeans` | autonomy/auto_promotion.py:283-332 | whatever the draws, mean and bounds stay within the rounded range of the cluster means |
| `RecalReceipt.PairedImprovementCi` | autonomy/backtest.py:1554-1601 | the paired bootstrap with its resample budget |
| `RecalFigures.BudgetHolds` | autonomy/backtest.py:1554-1580 | the resamples are as many as two million draws afford, between 200 and 1000 |
| `RecalFigures.EndsCutTheTails` | autonomy/backtest.py:1580-1601 | the ends are read off the ordered resamples at tails of 0.025, each leaving only its share outside |
| `RecalReceipt.ScoreHoldout` | autonomy/backtest.py:1852-1869 | the loop over holdout tickers: per-cluster scores and improvements, and the cohort mismatches |
| `RecalReceipt.RecalGate` | autonomy/backtest.py:1737-2000 | the gate with all its exits, in the code's order |
| `RecalFigures.ReceiptFigures` | autonomy/backtest.py:1852-1944 | the two scores of a receipt are the equal-cluster means over the held markets of the weights trained on the rest and of the incumbent ones, to ten decimals; it adopts exactly when the trained ones score lower and the interval's lower end is positive |
| `RecalFigures.NeverAdoptsWorse` | autonomy/backtest.py:1737-2000 | weights that score no held market better than the incumbent ones are never adopted |
| `RecalFigures.AdoptsWhenEveryClusterImproves` | autonomy/backtest.py:1737-2000 | weights that improve every held cluster by 1e-9 are adopted, whatever the draws, once the split stands, both score the same markets, and the thresholds and the size bound hold |
| `RecalFigures.RefusalIsTrue` | autonomy/backtest.py:1737-1925 | a receipt without evidence names an obstacle that is there |
| `RecalReceipt.MeansLinear` | autonomy/backtest.py:1927-1942 | the equal-cluster mean of paired improvements is the difference of the two equal-cluster means |
| `RecalReceipt.FiguresAgree` | autonomy/backtest.py:1937-1944 | after ten-decimal rounding the interval's mean and the reported improvement differ by at most 1.5e-10 |
| `RecalReceipt.PartitionSound` | autonomy/backtest.py:1513-1551 | a successful split leaves training markets and clusters, and its holdout clusters are those of the held rows |
| `RecalReceipt.AdoptedExactlyWhenValid` | autonomy/backtest.py:1627-1734 | every receipt of the gate passes the independent validator exactly when it says adopted |
| `RecalFigures.ValidReceiptMeans` | autonomy/backtest.py:1627-1734 | a receipt the validator passes, whoever wrote it, claims an improvement and a lower end above zero, figures that agree, thresholds met, a whole split, the resample budget kept, and no authority beyond the weights |
| `GenomePopulation.AlwaysBounded` | autonomy/evolution_lab.py:139-150 | whatever genes go in, a bounded genome comes out, and reading it back from a saved report gives it again |
| `GenomeFigures.GenesSettle` | autonomy/evolution_lab.py:139-150 | each gene goes to the nearer end of its range, or stays, to four decimals |
| `GenomeFigures.ChildrenMix` | autonomy/evolution_lab.py:153-185 | the children of two readable parents are their two complementary swaps and their midpoint |
| `GenomePopulation.CandidatePopulation` | autonomy/evolution_lab.py:188-262 | the population is the first distinct bounded genomes of everything that could be tried; leaving the lattice early loses nothing |
| `GenomePopulation.PopulationIsSound` | autonomy/evolution_lab.py:188-262 | at most max(8, limit) members, all bounded, no two with one name |
| `GenomeFigures.TriedPlaces` | autonomy/evolution_lab.py:188-262 | incumbent, parent, elites, probes, crosses with the parent, crosses of neighbours, mutations and lattice are tried in that order, and only the first eight elites are bred from |
| `GenomeFigures.ProbeAt` | autonomy/evolution_lab.py:212-219 | each of them is probed one step down in every gene and one step up |
| `GenomeFigures.CrossAt` | autonomy/evolution_lab.py:225-228 | each is crossed with the parent |
| `GenomeFigures.NeighbourAt` | autonomy/evolution_lab.py:229-231 | each is crossed with the next |
| `GenomeFigures.MutationAt` | autonomy/evolution_lab.py:232-243 | the parent is mutated by the product of the four step lists, in order |
| `GenomeFigures.LatticeIs` | autonomy/evolution_lab.py:245-257 | the lattice is every combination of the four lists and nothing else, ordered by digest |
| `GenomeFigures.PopulationFigures` | autonomy/evolution_lab.py:188-262 | the population was tried, is within the ranges of the genes and within max(8, limit), and is short only when every bounded genome tried is in it by name |
| `GenomePopulation.IncumbentLeads` | autonomy/evolution_lab.py:204 | the incumbent is always the first member |
| `GenomePopulation.ElitesReappear` | autonomy/evolution_lab.py:205-208 | with room for two more than the elites, every bounded elite is a member, if no two tried genomes share a name |
| `GenomePopulation.CollectParents` | autonomy/evolution_lab.py:713-719 | the distinct readable genomes of the saved archive, in order |
| `GenomePopulation.PopulationReadable` | autonomy/evolution_lab.py:188-262 | every member of a population bred from readable genomes reads back from a report as itself |
| `GenomePopulation.ParentsReadable` | autonomy/evolution_lab.py:713-719 | what is read from an archive as a parent reads back as itself |
| `GenomePopulation.GenerationsReadable` | autonomy/evolution_lab.py:713-849 | from a readable archive, the archive of every later generation is readable |
| `GenomePopulation.EverySurvivorIsRetried` | autonomy/evolution_lab.py:713-731 | over any run of the lab from a readable archive, every elite that survives a merge is in the next population of 96 |
| `GenomeArchive.MergeArchive` | autonomy/evolution_lab.py:507-525 | the archive and the count of improvements |
| `GenomeArchive.ChallengedIsBest` | autonomy/evolution_lab.py:517-523 | whatever order candidates come in, each cell ends with one entry, taken from the old cells or the candidates, that none of them outranks |
| `GenomeArchive.KeptAreBest` | autonomy/evolution_lab.py:524-525 | at most 48 entries, best first, each the best of its cell |
| `GenomeArchive.RanksByKey` | autonomy/evolution_lab.py:443-454 | one entry outranks another by its key read from the left, missing bounds lowest, and then by name |
| `GenomeArchive.ElitesNeverWorsen` | autonomy/evolution_lab.py:517-523 | a cell that stays never gets a worse elite |
| `GenomeArchive.DroppedOnlyWhenFull` | autonomy/evolution_lab.py:524-525 | a cell is dropped only when 48 retained entries rank at least as high as everything in it |
| `GenomeArchive.LoadSaved` | autonomy/evolution_lab.py:512-516 | saving and loading an archive gives it back |
| `GenomeArchive.LoadedIsLast` | autonomy/evolution_lab.py:512-516 | of every cell the last usable row saved is loaded |
| `GenomeArchive.BestNeverDecreases` | autonomy/evolution_lab.py:507-525 | over any run of generations the head of the archive ranks at least as high as every entry it ever held |
| `GenomeArchive.NoImprovement` | autonomy/evolution_lab.py:517-523 | the count of improvements is zero exactly when no candidate improves on the loaded cells, and then they stay as they are |
| `Candles.AggregateCandles` | autonomy/crypto_chartist.py:229-243 | the roll-up loop, factors below two included |
| `Candles.Highest` | autonomy/crypto_chartist.py:236-241 | the high of a group is attained in it and exceeded by none |
| `Candles.Lowest` | autonomy/crypto_chartist.py:236-241 | the low of a group is attained in it and undercut by none |
| `Candles.RolledLength` | autonomy/crypto_chartist.py:230-234 | one bar for each full group, the partial one dropped |
| `Candles.AggregateComposes` | autonomy/crypto_chartist.py:229-243 | rolling up by a and then by b is rolling up by a times b, dropped partial groups included |
| `Candles.BarsNeverRepaint` | autonomy/crypto_chartist.py:230 | later candles never change a closed bar |
| `Candles.RolledSane` | autonomy/crypto_chartist.py:194-197 | bars of sane candles are sane |
| `Candles.SaneExactlyWhen` | autonomy/crypto_chartist.py:194-197 | a candle is sane exactly when its prices are positive, open and close lie between low and high, and its volume is not negative |
| `Candles.BarOfGroup` | autonomy/crypto_chartist.py:234-242 | a bar opens with its group's first candle, closes with its last, spans their extremes exactly and adds up their volume |
| `Candles.DedupLoop` | autonomy/crypto_chartist.py:214-225 | the duplicate-collapsing loop over time-sorted rows |
| `Candles.TimelineKeepsRows` | autonomy/crypto_chartist.py:214-225 | a timed stream is refused exactly when two of its rows disagree about one time, and otherwise holds each row once in strict time order |
| `Candles.TimelineIgnoresOrder` | autonomy/crypto_chartist.py:214-225 | neither the order of the rows nor repeating them changes the stream |
| `Candles.TimedStream` | autonomy/crypto_chartist.py:127-226 | where every counting row carries a time, the stream is refused exactly when two give one time different candles, and otherwise lists the candles by rising time, each once |
| `Candles.UntimedStream` | autonomy/crypto_chartist.py:127-226 | where some carry none, it lists them as they come |
| `Candles.StreamSane` | autonomy/crypto_chartist.py:127-226 | every candle of a stream is sane, whatever the raw rows |
| `Candles.FallbackIsDirect` | autonomy/crypto_chartist.py:451-468 | without a native five-minute stream the fifteen-minute view equals the direct fifteen-bar roll-up; with one, the minutes are not read |
| `Candles.ViewSane` | autonomy/crypto_chartist.py:451-468 | every bar of that view is a sane candle |
| `BookTape.Tape.LoadLastByTicker` | autonomy/clv.py:87-109 | the last row of every ticker in the file, blank and malformed lines skipped |
| `BookTape.Tape.AppendRows` | autonomy/clv.py:112-152 | the file after an append, and the index carried on |
| `BookTape.CarriedIsRebuilt` | autonomy/clv.py:118-126 | the carried index equals the one rebuilt from the file |
| `BookTape.RestartsDoNotMatter` | autonomy/clv.py:118-126 | however observations are cut into passes and wherever the process restarts, the file is the one an uninterrupted pass leaves |
| `BookTape.TapeIsCollapsed` | autonomy/clv.py:82-84 | ticker by ticker the tape is the observed stream with repeated quotes removed |
| `BookTape.IndexIsCurrent` | autonomy/clv.py:127-143 | a ticker's last stored quote is its last observed one |
| `BookTape.CollapseAlternates` | autonomy/clv.py:82-84 | consecutive rows of a ticker differ, the first from what was stored before |
| `BookTape.EveryQuoteIsStored` | autonomy/clv.py:112-143 | every observed quote is on the tape |
| `Scarcity.EnforceScarcity` | autonomy/bet_board.py:401-431 | the walk over the ranked A rows rewrites the board in place as specified |
| `Scarcity.CapsHold` | autonomy/tier_policy.py:38-39 | after enforcement no event has more than one A row and no scope more than five, whatever the board was |
| `Scarcity.BoardWithinCaps` | autonomy/bet_board.py:401-431 | on the rows themselves: no two A rows of one event, and at most five of a scope |
| `Scarcity.DemotedWereBlocked` | autonomy/bet_board.py:414-428 | every demoted row was blocked by a cap filled, at the end, with A rows ranked at least as high |
| `Scarcity.DemotedByStronger` | autonomy/bet_board.py:401-431 | an A row is demoted only where a stronger row of its event stays A, or five rows of its scope do, all stronger |
| `Scarcity.NoneCanBeRestored` | autonomy/bet_board.py:414-428 | no demoted row could be restored without breaking a cap |
| `Scarcity.OnlySeatlessDemoted` | autonomy/bet_board.py:401-431 | the demoted rows are exactly the A rows without a seat in the final ranking, and every other row is left as it was |
| `Scarcity.EnforcingTwice` | autonomy/bet_board.py:401-431 | enforcing an enforced board again changes nothing |
| `Scarcity.UnchangedExactlyWithinCaps` | autonomy/bet_board.py:401-431 | enforcement leaves a board alone exactly when its A rows are within the caps |
| `Scarcity.CapsFromRows` | autonomy/bet_board.py:414-431 | the caps hold exactly when no event has more than one A row on the board and no scope more than five |
| `Scarcity.SubBoardUnchanged` | autonomy/bet_board.py:1168-1178 | any board made of rows of one enforced board keeps all its A rows |
| `Scarcity.MergeDemotesAcross` | autonomy/bet_board.py:1168-1178 | when two boards within the caps are merged, every row the merge demotes is blocked by an A row of the other board, of its event or scope, ranked at least as high |
| `AlertEdges.AlertState.Evaluate` | autonomy/alerts.py:245-413 | the alerts of one cycle, in order, and the new flags |
| `AlertEdges.AlertsAreEdges` | autonomy/alerts.py:263-384 | over a history, an intake, ledger, watchdog or backtest alert is raised exactly where its condition is reported and the latest report before was clear, and a drawdown alert exactly where the rung is deeper than the latest one |
| `AlertEdges.RungMeans` | autonomy/alerts.py:264-274 | a rung is reached exactly when the loss from the peak is that many tenths of it, within a billionth, and none without a peak |
| `AlertEdges.GateAlternates` | autonomy/alerts.py:278-294 | from the empty state gate alerts alternate, GREEN first, and the flag is set exactly after an odd number |
| `AlertEdges.StopAlertsAtStarts` | autonomy/alerts.py:256-262 | a stop alert is raised exactly at the first cycle of a stop episode |
| `AlertEdges.OneStopPerEpisode` | autonomy/alerts.py:256-262 | an episode of any length raises one stop alert |
| `AlertEdges.StopsAreEpisodes` | autonomy/alerts.py:256-262 | over a history there are as many stop alerts as stop episodes |
| `AlertEdges.CohortAlertsOnce` | autonomy/alerts.py:385-410 | a cohort is announced exactly once if it is ever gated, and otherwise never |
| `AlertEdges.MarkerIsLastLongRun` | autonomy/alerts.py:296-305 | the never-reset marker is the length of the latest run of at least three errors |
| `AlertEdges.ErrorEpisodeAlerts` | autonomy/alerts.py:296-305 | an episode of n >= 3 errors raises n-2 alerts, or n-3 when the latest long episode before it was exactly three long |
| `AlertEdges.SecondEpisodeIsSilent` | autonomy/alerts.py:296-305 | of two three-error episodes one quiet cycle apart the second raises nothing |

## Left out

- Floating-point round-off other than the explicit `round` and `int` calls: sums, products and quotients are exact.
- SQLite, JSON files, HTTP, environment variables, atomic writes and clocks: tables, ledgers, tapes and registries are sequences, maps and sets, and reads succeed. Stickiness of demotions is not claimed through a corrupt file, which the program loads as empty.
- The promotion ledger's hash chain: an intact chain is an input of a run.
- The text of reasons, notes, dossiers, alert messages and labels, and figures that are only reported (weight fractions, market-weighted Brier scores, profit factors).
- The risk brain, the executor's own checks, the tier snapshots of the order loop and the group exposures: the loop is proved for any budget and any answer. Forecasts, velocities and the gates in front of the slice are arbitrary functions of a market.
- The evidence gates behind a promotion, a demotion or an escalation, and the scoring formulas built on `exp`, `log` and `sqrt`: they are arbitrary functions of the scope.
- The ensemble score of a holdout market (`autonomy/backtest.py:1817-1850`): any function of the ticker.
- The batch phase of settlement reconciliation that precedes the fallback loop (`autonomy/crypto_horizon_evidence.py:2169-2349`).
- The mutation pressure, lineage and forward epoch of the evolution lab, and how archive entries are scored: entries carry any rank.
- The tier labels and clocks that decide which board rows are A before scarcity is enforced.
- Which cohorts of a tournament count as gated, and whether the watchdog file is stale: inputs of a cycle.
- The closing-line selection that reads the tape: dropping unchanged quotes does not preserve it.
- The pattern, trend and divergence heuristics computed from candles.
- GenomePopulation.ElitesReappear: assumes that no two of the genomes tried have the same twelve-digit digest, because the program identifies genomes by it.
- GenomePopulation.EverySurvivorIsRetried: the same assumption, and an archive to start from whose genomes read back as themselves; the empty one does, an archive edited by hand may not.
- The order of clusters in a bootstrap: the draws index into the clusters as given, and the interval for another order of the same clusters is another resample.
- Aliasing: rows, entries and candles are values, so one dictionary held in two lists is not modelled; what is updated in place is the array, class or sequence that holds them.
