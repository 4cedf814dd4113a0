# Verified model of TradeForge

TradeForge turns broker fills into trades, tax lots, P&L and statistics.  This project models the parts where several
accounts of the same facts have to agree, and proves that they do.

- **Reconstruction.**  `Engine` is the reconstruction engine over mutable trade, fill and lot tables.  One run fetches the
  unprocessed fills of a processing unit (user, account, instrument, product) and takes each through FLAT, OPEN, PARTIAL
  and CLOSED.  A ghost history per unit records the fills processed so far and where runs began.  The invariant
  `TablesOk` says the tables are exactly what the history dictates: cut the history at the zeros of its signed prefix
  sum; every piece is one trade, whose row, fill assignments and lot are functions of that piece.
- **Resumption.**  A run that resumes an open trade rebuilds its entry value from the stored, rounded average.  Everything
  but the entry average (and the lot cost that copies it) is independent of how fills are cut into runs; the average
  drifts by at most half a tick for each run that adds entries.
- **P&L.**  The charge calculator, and the bound it and the engine together give between stored gross P&L and cash flow.
- **Analytics.**  Drawdown, streaks, Monte Carlo, expectancy and Kelly, each loop against a declarative reading.
- **Import.**  The tradebook adapter and its symbol formats, the ingestion loop, and the import as a whole.

Prices and quantities are integers in ticks of 10^-4, rates in units of 10^-8.  `quantize(*PRICE)` is division rounded
half away from zero; quantities have four decimals, so `quantize(*QUANTITY)` is the identity.  Analytics use exact
real arithmetic.  Repository queries that leave an order or a choice open (tied rows, the oldest of several lots) are
methods that may return any permitted answer.  Clocks, broker readers of dates and numbers, account lookups and the
resampled draws are arguments.  A raised error is a `Failure`; the `...InTransaction` methods add the caller's rollback.

Modules, in order of use: `Sequences`, `FixedPoint`, `TradeTypes`, `Ledger` (histories and segments), `Batching`,
`EntryAverage`, `FillOrder`, `Store` (the invariant), `RowSteps`, `Queries`, `LotSteps`, `RunSpec`, `Reconstruction`,
`EngineTheorems`, `RunChain`, `RunOutcome`; `Pnl`, `CashFlow`; `Drawdown`, `Streaks`, `MonteCarlo`, `Expectancy`,
`StoredResults`; `Calendar`, `FoSymbol`, `ZerodhaAdapter`, `Ingest`, `Import`, `FirstImport`.

## Where the code does not do what is written

- The reconstruction specification (section 9) computes the entry average from all ENTRY fills of the trade.  The code does so
  within one run (`EntryAverage.SingleRunMeetsRule`); a resumed run starts from the rounded average.
  `ResumedAverageDiffers` names fills for which the two differ, `ResumedRuleHoldsIff` gives the exact condition for a
  resume of any trade to keep the rule whatever is bought next, and `AverageEntryDrift` bounds the difference.
- An F&O fill in the closing window of its expiry day, or in that day's auction, is stored as a square-off whatever it does
  to the position.  The schema lets such a fill play EXIT only, so a run in which it opens or adds to a trade fails:
  `RunOutcome.SquareoffOpensNothing`, and `Ingest.PrintedSquareoffOpensNothing` from a printed row on; `RunSucceedsIff` has
  the condition.
- "Stamp duty - buy side only" is charged on the entry leg, and STT likewise by leg; `Pnl.StampDutyOnBuySideIff` and
  `Pnl.SttOnTradedSidesIff` give the trades for which this is the same, `Pnl.ShortTradeExample` one for which it is not.
- The exit lot is looked up by user and instrument.  `LotSteps.CloseIsAcceptedIff` gives the exact condition for a close to be
  accepted, `EngineTheorems.TwoAccountsCollide` two accounts that miss it; within one account the engine keeps it.
- Duplicates are recognised per account, and the index of migration 0008 is per account, but the older unique index on
  (broker, fill id) was never dropped.  A file imported into one account passes every check of another one and then fails
  with an IntegrityError that `import_fills` does not catch, here `BrokerIdHeld`: `Import.ImportService.ImportIntoTwoAccounts`,
  `Ingest.SecondAccountCollides`; `IngestFills` has the exact condition.
- `max_drawdown_inr` is the drop at the worst percentage, not the largest rupee drop: `Drawdown.WorstPctIsNotLargestDrop`.
  `StoredDropIsLargestIff` says exactly when it is; no new peak after the worst point is enough.
- A weekly option symbol whose day does not exist raises a bare `ValueError` out of `parse`, which stops the file:
  `FoSymbol.WeeklyBadDateIff`, `NoSuchDayExample`, outcome `BareValueError`.
- A weekly option whose base ends in digits that look like a date can be read as another contract:
  `FoSymbol.WeeklyRoundTripIff`, `FoSymbol.ShadowedExample`.
- The adapter looks for a product column in any case but reads it under its lower-case name, so a file with the column
  `Product` has every row refused: `ZerodhaAdapter.ProductColumnInOtherCase`.
- The import reports EMPTY for a file without usable rows; with this adapter an empty file is refused earlier, so the status
  never occurs (`ImportFills`).

## Model

| member | source | states |
|---|---|---|
| FixedPoint.RoundDiv | backend/src/tradeforge/domain/decimal_config.py:28-40 | a quantized quotient is a nearest tick, and the one farther from zero on a tie |
| FixedPoint.RoundDivUnique | backend/src/tradeforge/domain/decimal_config.py:28-40 | the two promises of ROUND_HALF_UP determine the result |
| FixedPoint.RoundDivMonotone | backend/src/tradeforge/domain/decimal_config.py:28-40 | rounding never reverses an order |
| FixedPoint.RoundDivBetween | backend/src/tradeforge/domain/decimal_config.py:28-40 | a quotient between two ticks stays between them after rounding |
| FixedPoint.RoundDivNegate | backend/src/tradeforge/domain/decimal_config.py:28-40 | half-up rounding is symmetric about zero |
| Ledger.PositionIsBoughtLessSold | backend/src/tradeforge/application/trade/reconstruction.py:172-174 | the signed running position is what was bought less what was sold |
| Ledger.SegmentsCutAtZeros | backend/src/tradeforge/application/trade/reconstruction.py:162-383 | the trades the loop forms are the fill list cut at every zero of its signed prefix sum, and nowhere else |
| Ledger.SegmentsUnique | backend/src/tradeforge/application/trade/reconstruction.py:162-383 | that cut is the only one: any segmentation at the zeros equals the one the engine makes |
| Ledger.TradesAreZeros | backend/src/tradeforge/application/trade/reconstruction.py:313-344 | the number of trades is the number of zeros, plus one for a non-zero tail |
| Ledger.CleanIsEveryStep | backend/src/tradeforge/application/trade/reconstruction.py:176-180 | a history is accepted exactly when no single fill takes the prefix sum strictly across zero |
| Ledger.CleanTrades | backend/src/tradeforge/application/trade/reconstruction.py:185-378 | an accepted history is cut into trades that never exit more than they entered, all but the last closed |
| Ledger.CleanSnoc | backend/src/tradeforge/application/trade/reconstruction.py:176-180 | the exact condition for one more fill: the unit is flat, or it adds, or it takes out no more than the net position |
| Ledger.ExitTypesAreRoles | backend/src/tradeforge/infrastructure/models/trade_domain.py:225-228 | the exit types of a history are in order exactly when no fill that carries one plays ENTRY in its trade |
| Batching.BatchingIndependence | backend/src/tradeforge/application/trade/reconstruction.py:129-159 | two histories that list the same fills, cut into runs in any two ways, are accepted together and give the same trades, roles, exit averages, lots and statuses; only the entry average and lot cost may differ |
| Batching.RunsEraseToOneRun | backend/src/tradeforge/application/trade/reconstruction.py:129-159 | any number of runs and one run over the concatenated fills differ only in where runs start |
| Batching.ManyRunsOrOne | backend/src/tradeforge/application/trade/reconstruction.py:129-159 | on top of any earlier history, k consecutive runs and one run over all their fills are accepted together and leave the same trades |
| EntryAverage.AverageEntryDrift | backend/src/tradeforge/application/trade/reconstruction.py:142-144 | after the opening run and k resumed runs that add entries, the stored average is within (k + 1)/2 ticks of the exact weighted mean of all ENTRY fills; k = 0 gives half a tick |
| EntryAverage.EntryRunsCounts | backend/src/tradeforge/application/trade/reconstruction.py:142-144 | the runs that bound counts are those that processed an ENTRY fill of the trade, each by its first one |
| EntryAverage.AverageEntryBetween | backend/src/tradeforge/application/trade/reconstruction.py:258-262 | under any batching the stored entry average lies between the lowest and the highest ENTRY price |
| EntryAverage.SingleRunMeetsRule | backend/src/tradeforge/application/trade/reconstruction.py:258-262 | within one run the stored entry average is the rounded mean of all ENTRY fills, ties included |
| EntryAverage.RuleHoldsWithoutLoss | backend/src/tradeforge/application/trade/reconstruction.py:142-144 | a trade resumed only where its quantity divides its value stores the rounded mean of all ENTRY fills |
| EntryAverage.ResumedRuleHoldsIff | backend/src/tradeforge/application/trade/reconstruction.py:142-144 | a resumed trade, whatever runs built it, stores the rounded mean of all ENTRY fills whatever the next one is exactly when its stored average times its quantity is the money paid so far |
| EntryAverage.LosslessResumeHoldsIff | backend/src/tradeforge/application/trade/reconstruction.py:142-144 | for a trade that no earlier resume has put off its money, that is when the quantity so far divides the value so far |
| EntryAverage.ResumeAgreesIff | backend/src/tradeforge/application/trade/reconstruction.py:142-144 | the same of the two roundings themselves, for every next quantity and price |
| EntryAverage.ResumedAverageDiffers | backend/src/tradeforge/application/trade/reconstruction.py:142-144 | three concrete fills for which resuming stores another average than one run, so the written rule fails on resume |
| FillOrder.OrderBy | backend/src/tradeforge/infrastructure/repositories/fill_repo.py:62-66 | a fetched list holds each fill of the pool once and is sorted by the query order |
| FillOrder.LexLeIsTextOrder | backend/src/tradeforge/infrastructure/repositories/fill_repo.py:62-66 | one text comes before another when it is a proper prefix of it or has the smaller character where they part |
| FillOrder.FetchLeIsInOrder | backend/src/tradeforge/infrastructure/repositories/fill_repo.py:62-66 | the ORDER BY puts one row before another exactly when time does not go back and, at one time, rows without broker id come last, broker ids rise and equal ones keep their order of creation |
| FillOrder.AdjacentCheckIsComplete | backend/src/tradeforge/application/trade/reconstruction.py:498-515 | comparing neighbours of a fetched list finds every ambiguous pair, adjacent or not |
| FillOrder.StrictOrderUnique | backend/src/tradeforge/infrastructure/repositories/fill_repo.py:62-66 | a strictly ordered set of fills can be listed in one sorted order only |
| FillOrder.AmbiguityCheckIsExact | backend/src/tradeforge/application/trade/reconstruction.py:498-515 | the ambiguity check passes exactly when the fetched fills have a single sorted order |
| Store.OpeningKeepsTables | backend/src/tradeforge/application/trade/reconstruction.py:185-246 | opening a trade on a flat position keeps every trade row, assignment and unit consistent with its history |
| Store.ContinuingKeepsTables | backend/src/tradeforge/application/trade/reconstruction.py:248-383 | a fill that joins the open trade keeps every trade row, assignment and unit consistent with its history |
| Store.InsertKeepsTables | backend/src/tradeforge/infrastructure/repositories/fill_repo.py:113-148 | a new unassigned fill row disturbs no trade |
| RowSteps.RowScaledIn | backend/src/tradeforge/application/trade/reconstruction.py:258-297 | the columns written on an ENTRY fill are exactly the row of the grown segment, PARTIAL exactly when something was exited |
| RowSteps.RowPartlyExited | backend/src/tradeforge/application/trade/reconstruction.py:355-378 | the columns written on a partial exit are exactly the row of the grown segment |
| RowSteps.RowClosed | backend/src/tradeforge/application/trade/reconstruction.py:313-332 | the columns written on a close are exactly the row of the finished segment, with the exit average over all its exits |
| RowSteps.LotScaledIn | backend/src/tradeforge/application/trade/reconstruction.py:398-427 | the lot columns written on a scale-in are exactly the lot of the grown segment |
| RowSteps.LotExited | backend/src/tradeforge/application/trade/reconstruction.py:446-460 | the lot columns written on an exit are exactly the lot of the grown segment |
| RowSteps.SumsPermute | backend/src/tradeforge/application/trade/reconstruction.py:486-496 | exit quantity and value do not depend on the order the exit fills are listed in |
| Queries.OpenTradeQuery | backend/src/tradeforge/infrastructure/repositories/trade_repo.py:54-78 | the open-trade query finds no row exactly when the unit is flat, and otherwise only the unit's last trade |
| Queries.OpenTradeIsLast | backend/src/tradeforge/infrastructure/repositories/trade_repo.py:54-78 | a trade that is not closed is the last trade of its unit |
| Queries.FetchMeans | backend/src/tradeforge/infrastructure/repositories/fill_repo.py:24-69 | a list is a possible result of the unprocessed-fills query exactly when it holds the unit's unassigned, unexcluded rows once each with no two of them out of that order |
| Queries.ExitFillsSums | backend/src/tradeforge/infrastructure/repositories/fill_repo.py:71-90 | the exit fills read back for a resumed trade add up to the quantity and value the earlier runs accumulated |
| Queries.LookupFindsOwnLotIff | backend/src/tradeforge/infrastructure/repositories/tax_lot_repo.py:69-100 | the lot lookup is certain to return a trade's own lot exactly when every other open lot of the user and instrument was bought strictly later |
| LotSteps.OpenTradeOwnsItsLot | backend/src/tradeforge/infrastructure/repositories/tax_lot_repo.py:69-100 | with no open lot of another account, the open trade's lot is the only open lot the exit lookup can find |
| LotSteps.LotsOpen | backend/src/tradeforge/application/trade/reconstruction.py:209-222 | opening a delivery trade keeps lots in step with trades |
| LotSteps.LotsGrow | backend/src/tradeforge/application/trade/reconstruction.py:280-311 | a fill on an open delivery trade keeps lots in step with trades |
| LotSteps.CloseIsAcceptedIff | backend/src/tradeforge/application/trade/reconstruction.py:429-484 | for any lots of any accounts, a close passes both lot checks whichever oldest lot is returned exactly when its own open lot holds what is sold and every other open lot of the user and instrument was bought strictly later, or its own lot is already settled and every oldest open lot holds enough |
| Reconstruction.Engine.constructor | backend/src/tradeforge/application/trade/reconstruction.py:63-75 | empty tables satisfy the invariant and have their lots in order in every account |
| Reconstruction.Engine.GetOpenTrade | backend/src/tradeforge/infrastructure/repositories/trade_repo.py:27-78 | returns the snapshot of the unit's last trade exactly when the unit is not flat |
| Reconstruction.Engine.GetUnprocessedFills | backend/src/tradeforge/infrastructure/repositories/fill_repo.py:24-69 | a possible result of that query: forward in time, ties as the order says |
| Reconstruction.Engine.GetExitFills | backend/src/tradeforge/infrastructure/repositories/fill_repo.py:71-90 | returns each EXIT fill assigned to the trade once, in time order |
| Reconstruction.Engine.GetOpenLot | backend/src/tradeforge/infrastructure/repositories/tax_lot_repo.py:69-100 | returns some open lot of the oldest purchase date of the user and instrument, or none exactly when there is none |
| Reconstruction.Engine.CheckAmbiguousOrdering | backend/src/tradeforge/application/trade/reconstruction.py:498-515 | reports an adjacent ambiguous pair exactly when there is one |
| Reconstruction.Engine.UpdateLotOnScaleIn | backend/src/tradeforge/application/trade/reconstruction.py:398-427 | the trade's own lot grows by the quantity and takes the new cost; it fails exactly without a lot |
| Reconstruction.Engine.DecrementLotOnExit | backend/src/tradeforge/application/trade/reconstruction.py:429-461 | the oldest open lot of the user and instrument, whichever trade owns it, loses the quantity; it fails only without one or on a shortfall |
| Reconstruction.Engine.OpenTrade | backend/src/tradeforge/application/trade/reconstruction.py:185-241 | the new trade row and lot are those of a one-fill segment; it fails exactly when no trade type can be derived |
| Reconstruction.Engine.ScaleIn | backend/src/tradeforge/application/trade/reconstruction.py:258-297 | the trade row becomes the row of the grown segment, and the lot grows with it; it fails exactly without a lot |
| Reconstruction.Engine.UpdateTradeOnExit | backend/src/tradeforge/application/trade/reconstruction.py:299-378 | the trade row becomes the row of the grown segment; the run's state is reset exactly on a close |
| Reconstruction.Engine.ApplyExit | backend/src/tradeforge/application/trade/reconstruction.py:299-378 | an exit moves the trade row and decrements one of the oldest open lots, whichever trade it belongs to, or is refused for one of the E4 causes; with only its own open lot to find it succeeds on that lot |
| Reconstruction.Engine.Resume | backend/src/tradeforge/application/trade/reconstruction.py:129-159 | the state a run starts from agrees with the stored trade: position, accumulators and exit fills |
| Reconstruction.Engine.ProcessFill | backend/src/tradeforge/application/trade/reconstruction.py:162-383 | one fill extends its unit's history by itself and keeps all four accounts in agreement; every refusal has its cause, a lot refusal the fault it met |
| Reconstruction.Engine.ProcessFills | backend/src/tradeforge/application/trade/reconstruction.py:161-392 | the loop appends exactly the fetched fills to the unit's history and counts zeros, openings and lot updates |
| Reconstruction.Engine.Run | backend/src/tradeforge/application/trade/reconstruction.py:77-392 | a successful run leaves tables that are the segmentation of the extended history, assigns each fetched fill once and no other, and counts openings and zeros; a failed run was given an unknown product, fills that cannot be ordered, a first fill across zero, a first ENTRY fill with an exit type, a trade without a type, or lots out of order that refuse a fill it reached |
| Reconstruction.Engine.RunInTransaction | backend/src/tradeforge/application/trade/reconstruction.py:99-107 | a failed run, rolled back by its caller, leaves the tables as they were, so the invariant holds after any sequence of runs |
| Reconstruction.Engine.RunAgain | backend/src/tradeforge/application/trade/reconstruction.py:117-123 | an immediate second run changes nothing |
| Reconstruction.DecrementFindsOwnLot | backend/src/tradeforge/application/trade/reconstruction.py:429-461 | in a ready state no E4 error can be raised: the lookup returns the trade's own lot and it holds enough |
| RunSpec.NothingLeft | backend/src/tradeforge/infrastructure/repositories/fill_repo.py:52-61 | after a successful run no fill of the unit that is not excluded is unassigned |
| RunSpec.NextIsUnassigned | backend/src/tradeforge/infrastructure/repositories/fill_repo.py:150-168 | each fill is still unassigned when the loop reaches it, so it is assigned exactly once |
| EngineTheorems.RowsInvariant | backend/src/tradeforge/infrastructure/models/trade_domain.py:150-163 | in every reachable state each trade row meets the CHECK constraints, its status means what its totals say, and a unit has at most one open trade |
| EngineTheorems.FillChecks | backend/src/tradeforge/infrastructure/models/trade_domain.py:225-228 | in every reachable state a role needs a trade, and a fill that carries an exit type plays EXIT or nothing |
| EngineTheorems.PositionIsOpenNet | backend/src/tradeforge/application/trade/reconstruction.py:129-136 | the running position of a unit is plus or minus its open trade's net position, zero exactly when all its trades are closed |
| EngineTheorems.TotalsAreAssignedSums | backend/src/tradeforge/application/trade/reconstruction.py:258-305 | a row's entry and exit totals are the sums over the fills assigned to it in each role, in any order, and a closed row's exit average is the rounded mean of exactly its EXIT fills |
| EngineTheorems.SameFillsSameTables | backend/src/tradeforge/application/trade/reconstruction.py:129-159 | two databases that processed the same fills in any two batchings hold the same trades and roles, but for the entry average |
| EngineTheorems.AffectedIsLastFillsTrade | backend/src/tradeforge/application/trade/reconstruction.py:138-140 | the affected trade a run reports is the trade of the last fill it took |
| Ledger.TradesOpenedAfter | backend/src/tradeforge/application/trade/reconstruction.py:162-383 | the trades opened after a history hold, in order, the last of the fills that follow it |
| EngineTheorems.RunOpensInTime | backend/src/tradeforge/application/trade/reconstruction.py:136-383 | a trade that a run opens starts at its earliest fill, which is an ENTRY on its side, closes at its latest, has a type that fits product and instrument, and ends before the next one starts |
| RunChain.ChainAppendsRuns | backend/src/tradeforge/application/trade/reconstruction.py:129-159 | k successive runs of a unit, with fills arriving and other units running in between, append exactly their batches to its history |
| RunChain.ManyRunsOneRun | backend/src/tradeforge/application/trade/reconstruction.py:129-159 | k successive runs and one run over all their fills leave the same trades in the same order: rows but for the entry average, roles, and lots but for their cost |
| EngineTheorems.FetchIsDetermined | backend/src/tradeforge/infrastructure/repositories/fill_repo.py:62-66 | when the ambiguity check passes and broker ids are unique the query can return one list only |
| EngineTheorems.RunKeepsAccountLots | backend/src/tradeforge/application/trade/reconstruction.py:209-222 | any run keeps every delivery unit of the account in lockstep with its lots |
| EngineTheorems.LotsInLockstep | backend/src/tradeforge/infrastructure/models/trade_domain.py:311-322 | a delivery trade's lot has original = total entry, remaining = net, cost = average entry and the matching status, and meets the lot CHECK constraints |
| EngineTheorems.TwoAccountsCollide | backend/src/tradeforge/infrastructure/repositories/tax_lot_repo.py:69-100 | the engine opens a trade in each of two accounts of one user, lots in step, and the one bought no earlier cannot be closed in one exit |
| RunOutcome.RunSucceedsIff | backend/src/tradeforge/application/trade/reconstruction.py:99-107 | a run that succeeds had fills that can be ordered, none crossing zero, none with an exit type playing ENTRY, and a type for any trade it opened; one that fails lacked some of it, or met lots out of order; with lots in order the condition is exact |
| RunOutcome.SquareoffOpensNothing | backend/src/tradeforge/infrastructure/models/trade_domain.py:225-228 | any fill with an exit type that is alone in the fetch of a flat unit can be ordered and crosses nothing, and its run fails |
| RunOutcome.FetchUnaffected | backend/src/tradeforge/infrastructure/repositories/fill_repo.py:52-61 | runs of other units do not change what a unit's own run will find |
| RunOutcome.OrderOfJobsIsIrrelevant | backend/src/tradeforge/application/import_service.py:185-193 | running the same units in any two orders leaves every unit with the same trades, averages included, and the same lots |
| RunOutcome.FailedJobCannotRun | backend/src/tradeforge/application/import_service.py:185-193 | a unit that fails after others have run, for any reason but its lots, could not have run before them either |
| Pnl.ChargesNonNegative | backend/src/tradeforge/domain/pnl/calculator.py:44-103 | with non-negative rates every charge component is non-negative and net never exceeds gross |
| Pnl.TotalChargesMonotone | backend/src/tradeforge/domain/pnl/calculator.py:21-103 | total charges never fall when quantity or either average price rises, through the cap and the rounding |
| Pnl.GrossIsSoldLessBought | backend/src/tradeforge/domain/pnl/calculator.py:32-41 | stored gross P&L is the nearest tick to what was sold for less what was bought for |
| Pnl.ChargesAreLevied | backend/src/tradeforge/domain/pnl/calculator.py:44-103 | each component is the nearest tick to its own rate on its own base, GST on the unrounded brokerage, exchange and SEBI, and the total is their sum; brokerage is what the schedule asks for each order |
| Pnl.BrokerageCharged | backend/src/tradeforge/domain/pnl/calculator.py:21-29 | no brokerage is 0, a flat one twice the amount, a percentage with a cap never above twice the cap, exactly that when both legs reach it, and otherwise each leg pays the lesser |
| Pnl.TotalChargesError | backend/src/tradeforge/domain/pnl/calculator.py:80-124 | the gap between gross and net is the total of the rounded components and is within seven half ticks of the unrounded total |
| Pnl.StampDutyOnBuySideIff | backend/src/tradeforge/domain/pnl/calculator.py:71-72 | the entry-leg base is the buy-side base exactly for LONG trades or equal averages |
| Pnl.SttOnTradedSidesIff | backend/src/tradeforge/domain/pnl/calculator.py:58-59 | buy and sell STT rates fall on what was bought and sold exactly for LONG trades, equal averages or equal rates |
| Pnl.ShortTradeExample | backend/src/tradeforge/domain/pnl/calculator.py:58-72 | a short trade whose stamp duty and STT are not on what it bought and sold |
| Pnl.RMultipleSign | backend/src/tradeforge/domain/pnl/calculator.py:106-110 | absent exactly without a usable risk; otherwise the nearest stored multiple, never against the sign of net P&L for a positive risk |
| CashFlow.StoredGrossNearCash | backend/src/tradeforge/domain/pnl/calculator.py:32-41 | with k resumed runs that add entries, stored gross P&L is within (k/2 + 1) price ticks per unit of quantity plus half a tick of the cash its fills moved |
| CashFlow.ClosedRowNearCash | backend/src/tradeforge/domain/pnl/calculator.py:113-124 | the same bound for every closed trade row of every reachable state, against the cash of exactly the fill rows assigned to it |
| Drawdown.PeakIsPrefixMaximum | backend/src/tradeforge/domain/analytics/calculators.py:145-148 | the running peak is the maximum of the points so far |
| Drawdown.DropPctIsShareOfPeak | backend/src/tradeforge/domain/analytics/calculators.py:149-150 | a percentage drop is the share of the peak given back, and zero without a positive peak |
| Drawdown.ComputeDrawdownStats | backend/src/tradeforge/domain/analytics/calculators.py:124-177 | the maximum percentage is attained first at a point whose rupee drop is the stored one, the average is over the points below a positive peak, and all are absent exactly when there is no such point |
| Drawdown.AverageAndCurrentWithinMaximum | backend/src/tradeforge/domain/analytics/calculators.py:145-169 | average and current drawdown never exceed the maximum |
| Drawdown.StoredDropIsLargestIff | backend/src/tradeforge/domain/analytics/calculators.py:152-154 | the stored rupee figure is the largest drop exactly when nothing falls further from a later, higher peak |
| Drawdown.NoLaterPeakSuffices | backend/src/tradeforge/domain/analytics/calculators.py:145-154 | without a new peak after the worst point the stored rupee figure is the largest drop |
| Drawdown.WorstPctIsNotLargestDrop | backend/src/tradeforge/domain/analytics/calculators.py:152-154 | a concrete curve whose stored rupee figure is not its largest rupee drop |
| Streaks.CurrentIsLongestSuffix | backend/src/tradeforge/domain/analytics/calculators.py:237-238 | the current streak is the longest suffix of its kind |
| Streaks.LongestIsLongestBlock | backend/src/tradeforge/domain/analytics/calculators.py:239-240 | the maximum streak is the longest contiguous block of its kind |
| Streaks.ComputeStreakStats | backend/src/tradeforge/domain/analytics/calculators.py:185-252 | the one pass returns current, longest and average streak lengths of both kinds |
| Streaks.AverageTimesBlocks | backend/src/tradeforge/domain/analytics/calculators.py:242-243 | average streak length times the number of streaks is the number of wins, or of losses |
| Streaks.NegationSwaps | backend/src/tradeforge/domain/analytics/calculators.py:211-235 | negating every P&L swaps the win and loss results |
| MonteCarlo.Simulate | backend/src/tradeforge/domain/analytics/calculators.py:488-520 | one simulation reports what its draws up to the first ruin amount to |
| MonteCarlo.StopIsFirstRuin | backend/src/tradeforge/domain/analytics/calculators.py:511-513 | a simulation stops at the first trade that reaches the threshold, or at its end |
| MonteCarlo.RuinedIffFinal | backend/src/tradeforge/domain/analytics/calculators.py:511-518 | ruined exactly when some prefix reaches the threshold, and exactly when the recorded final R is at or below it |
| MonteCarlo.MaxDrawdownIsMaximum | backend/src/tradeforge/domain/analytics/calculators.py:499-502 | the recorded drawdown is the largest of the simulation |
| MonteCarlo.PeakRIsMaximum | backend/src/tradeforge/domain/analytics/calculators.py:496-498 | the running peak is the largest of zero and all sums so far |
| MonteCarlo.DrawdownIsShareOfPeak | backend/src/tradeforge/domain/analytics/calculators.py:499-500 | a drawdown is the share of that peak given back, in percent |
| MonteCarlo.PercentileAtRank | backend/src/tradeforge/domain/analytics/calculators.py:526-529 | a percentile is the smallest entry that more than pct percent of all entries do not exceed |
| MonteCarlo.FullPercentile | backend/src/tradeforge/domain/analytics/calculators.py:526-529 | from 100 percent on it is the largest entry |
| MonteCarlo.RunSimulations | backend/src/tradeforge/domain/analytics/calculators.py:485-520 | the lists and the ruin count are those of the simulations |
| MonteCarlo.ComputeMonteCarlo | backend/src/tradeforge/domain/analytics/calculators.py:447-542 | for every possible set of draws: each figure has its rank, p5 <= median <= p95, p5 <= p1 <= worst drawdown, and p5 final R is at or below the threshold exactly when more than floor(5n/100) simulations were ruined; no simulations is an error |
| Expectancy.ExpectancyIsMeanIff | backend/src/tradeforge/domain/analytics/calculators.py:89-106 | the rate-weighted formula is the plain mean of all R values exactly when the losing R values do not sum above zero |
| Expectancy.AveragesShareTheSums | backend/src/tradeforge/domain/analytics/calculators.py:75-96 | the reported averages taken back over their counts give the sums of winning and losing R, and they are absent exactly without wins or losses |
| Expectancy.SharpeMeanIsExpectancy | backend/src/tradeforge/application/analytics_service.py:73-84 | the mean shared by Sharpe and Sortino is the expectancy, and is absent exactly when the sample is insufficient |
| Expectancy.ComputeRollingExpectancy | backend/src/tradeforge/domain/analytics/calculators.py:410-439 | one entry per full window, each with the mean P&L and the expectancy of exactly its trades |
| Expectancy.RollingIsMean | backend/src/tradeforge/domain/analytics/calculators.py:391-407 | with signed R multiples a window's figure is the mean R of its decided trades, absent exactly when there are none |
| Expectancy.KellyAtMostOne | backend/src/tradeforge/application/analytics_service.py:211-267 | with signed R multiples the Kelly fraction is mean R over mean positive R and never exceeds 1; it is withheld exactly under 30 trades or without a positive R |
| Expectancy.PositiveAreWins | backend/src/tradeforge/infrastructure/repositories/analytics_repo.py:802-841 | with signed R multiples the positive R values are exactly the non-zero R values of the wins, in order |
| Expectancy.RCountIsSample | backend/src/tradeforge/infrastructure/repositories/analytics_repo.py:813-813 | the sample of the Kelly guard is the trades that have an R multiple |
| StoredResults.StoredPointsAreSigned | backend/src/tradeforge/domain/pnl/calculator.py:106-125 | stored R multiples have the sign of stored net P&L for any trades and schedules, as no planned risk is negative |
| StoredResults.StoredPointIsMultiple | backend/src/tradeforge/domain/pnl/calculator.py:106-110 | a stored R multiple times the planned risk is the net P&L to within half of its sixth decimal |
| StoredResults.StatisticsOfStoredTrades | backend/src/tradeforge/application/analytics_service.py:211-267 | over any stored trades each rolling figure is the plain mean R, and Kelly is mean R over mean positive R and at most 1 |
| Calendar.PreviousDayOrdinal | backend/src/tradeforge/infrastructure/adapters/zerodha_adapter.py:113-121 | stepping back one day lowers the ordinal by one across month and year ends |
| Calendar.WeekdaysAreFixed | backend/src/tradeforge/infrastructure/adapters/zerodha_adapter.py:119-121 | weekdays follow one another from one known date, which fixes them all |
| Calendar.LastThursdayIsLast | backend/src/tradeforge/infrastructure/adapters/zerodha_adapter.py:113-121 | the computed expiry is a Thursday of the month, and the last one |
| FoSymbol.FutureRoundTrip | backend/src/tradeforge/infrastructure/adapters/zerodha_adapter.py:96-159 | printing a future and parsing it back recovers base and month-end expiry, for any base of letters and digits |
| FoSymbol.MonthlyRoundTrip | backend/src/tradeforge/infrastructure/adapters/zerodha_adapter.py:97-174 | printing a monthly option and parsing it back recovers base, type, strike and expiry, for any base of letters and digits |
| FoSymbol.WeeklyRoundTripIff | backend/src/tradeforge/infrastructure/adapters/zerodha_adapter.py:98-194 | a weekly option with a valid date reads back exactly when its base is not shadowed by an earlier split |
| FoSymbol.WeeklyBadDateIff | backend/src/tradeforge/infrastructure/adapters/zerodha_adapter.py:177-194 | an unshadowed weekly symbol raises the bare ValueError exactly when its day does not exist |
| FoSymbol.NoSuchDayExample | backend/src/tradeforge/infrastructure/adapters/zerodha_adapter.py:177-194 | a printed weekly option for the 30th of February raises the bare ValueError |
| FoSymbol.LettersAreNeverShadowed | backend/src/tradeforge/infrastructure/adapters/zerodha_adapter.py:96-98 | a base of letters only is never shadowed |
| FoSymbol.LettersRoundTrip | backend/src/tradeforge/infrastructure/adapters/zerodha_adapter.py:144-196 | for a letters-only base the three printed formats never collide |
| FoSymbol.ParsedContractIsComplete | backend/src/tradeforge/infrastructure/adapters/zerodha_adapter.py:144-196 | every parsed contract has a non-empty base, a real expiry date, and a strike exactly when it is an option |
| FoSymbol.ReadsWhatIsWritten | backend/src/tradeforge/infrastructure/adapters/zerodha_adapter.py:144-196 | whatever is read was written in one of the three formats, digit for digit, with the expiry of that format |
| FoSymbol.UnreadIffUnwritten | backend/src/tradeforge/infrastructure/adapters/zerodha_adapter.py:196-196 | a symbol is not read exactly when it is written in none of the formats |
| FoSymbol.CaseDoesNotMatter | backend/src/tradeforge/infrastructure/adapters/zerodha_adapter.py:151-196 | symbols that differ in the case of letters only are read alike |
| FoSymbol.ShadowedExample | backend/src/tradeforge/infrastructure/adapters/zerodha_adapter.py:166-194 | two contracts with one printed symbol: a weekly option that is read as the monthly option of a shorter base |
| ZerodhaAdapter.PreScanIsExact | backend/src/tradeforge/infrastructure/adapters/zerodha_adapter.py:199-205 | the pre-scan stops at exactly the rows of a known segment whose product nothing settles |
| ZerodhaAdapter.BranchesNeverReached | backend/src/tradeforge/infrastructure/adapters/zerodha_adapter.py:384-425 | the segment and instrument fallbacks are reached by no row, and the missing-product branch only by a row the pre-scan stops at |
| ZerodhaAdapter.RowIsRefusedIff | backend/src/tradeforge/infrastructure/adapters/zerodha_adapter.py:291-425 | a row is refused exactly when it fails one of fourteen checks, and for the first one it fails; otherwise it is accepted unless its symbol names a day that does not exist |
| ZerodhaAdapter.AcceptedRowReads | backend/src/tradeforge/infrastructure/adapters/zerodha_adapter.py:291-463 | every field of an accepted row is what its cell reads as, whatever case it is written in |
| ZerodhaAdapter.AcceptedRowDerives | backend/src/tradeforge/infrastructure/adapters/zerodha_adapter.py:350-441 | session and square-off flag of an accepted row follow from its time, date and contract |
| ZerodhaAdapter.SessionByClock | backend/src/tradeforge/infrastructure/adapters/zerodha_adapter.py:131-141 | pre-open from 9:00 to the end of 9:14, post-close from 15:40 to 16:00 sharp |
| ZerodhaAdapter.SquareoffByClock | backend/src/tradeforge/infrastructure/adapters/zerodha_adapter.py:432-441 | a square-off is dealt on the last day of its contract, in the auction or from 15:20 to 15:35 sharp |
| ZerodhaAdapter.AcceptedRowsAreStorable | backend/src/tradeforge/infrastructure/adapters/zerodha_adapter.py:384-463 | an accepted row has one of the three products and complete instrument fields; a BE row without the column is CNC |
| ZerodhaAdapter.RowRoundTrip | backend/src/tradeforge/infrastructure/adapters/zerodha_adapter.py:291-463 | a fill printed as an export row parses back to itself in every field |
| ZerodhaAdapter.DerivativeRowRoundTrip | backend/src/tradeforge/infrastructure/adapters/zerodha_adapter.py:291-463 | a derivative fill printed as an export row, its contract in any of the three formats, parses back to itself |
| ZerodhaAdapter.EquityRowRoundTrip | backend/src/tradeforge/infrastructure/adapters/zerodha_adapter.py:291-463 | so does an equity fill, printed under its own symbol |
| ZerodhaAdapter.RowWithoutProduct | backend/src/tradeforge/infrastructure/adapters/zerodha_adapter.py:384-402 | without its product cell a printed row parses back with the product the hint names, or CNC for an equity of series BE whatever the hint |
| ZerodhaAdapter.ProductColumnInOtherCase | backend/src/tradeforge/infrastructure/adapters/zerodha_adapter.py:385-389 | a product column is recognised in any case but read in lower case only: under another spelling no row is accepted |
| ZerodhaAdapter.RowsAreSplitInOrder | backend/src/tradeforge/infrastructure/adapters/zerodha_adapter.py:276-285 | fills and errors together number the rows, and each list keeps row order |
| ZerodhaAdapter.Parse | backend/src/tradeforge/infrastructure/adapters/zerodha_adapter.py:231-285 | which of the six outcomes a file has; an unknown hint is refused exactly when it is none of the three codes |
| ZerodhaAdapter.ParseRows | backend/src/tradeforge/infrastructure/adapters/zerodha_adapter.py:276-285 | the row loop collects the outcomes in order and ends early exactly when a row raises the bare ValueError |
| ZerodhaAdapter.PreScanIsSound | backend/src/tradeforge/infrastructure/adapters/zerodha_adapter.py:265-285 | past the pre-scan no row ends in the missing-product branch, and a parsed file accounts for each row once with increasing row numbers |
| ZerodhaAdapter.ExportedFileParses | backend/src/tradeforge/infrastructure/adapters/zerodha_adapter.py:231-285 | an exported file with its product column comes back as its fills in order, whatever the hint |
| ZerodhaAdapter.FileWithoutProductParses | backend/src/tradeforge/infrastructure/adapters/zerodha_adapter.py:231-285 | one without the column comes back with the product that hint or series settles for each row |
| Ingest.InsertKeepsIdsUnique | backend/alembic/versions/0008_trading_accounts.py:93-99 | a broker row satisfies this unique index and the earlier one on (broker, fill id) exactly when the account does not have its id and no account has it from that broker |
| Ingest.NextIsFirst | backend/src/tradeforge/application/import_service.py:164-167 | a fill is stored exactly when it is the first usable one of a broker id the account did not have, duplicates inside the file included |
| Ingest.NextCollides | backend/alembic/versions/0002_trade_domain_tables.py:321-328 | a fill that passes the duplicate check meets the (broker, fill id) index exactly when another account held its id before the import |
| Ingest.SecondAccountCollides | backend/alembic/versions/0002_trade_domain_tables.py:321-328 | a fill stored by one account passes the duplicate check of another one and is refused by the index |
| Ingest.PrintedSquareoffOpensNothing | backend/src/tradeforge/infrastructure/adapters/zerodha_adapter.py:432-441 | the printed row of any future dealt in the closing window of its expiry day parses and is stored, and alone in its unit it cannot be reconstructed |
| Ingest.KnownFillsAreNotTaken | backend/src/tradeforge/application/import_service.py:164-167 | fills whose broker ids are all known are not stored |
| Ingest.AddedRowsKeep | backend/src/tradeforge/infrastructure/repositories/fill_repo.py:128-148 | a stored row keeps side, quantity, price, time, date, product and ids of its fill, and two rows share an instrument exactly when they are of one contract |
| Ingest.KeyIsContract | backend/src/tradeforge/infrastructure/repositories/instrument_repo.py:39-125 | instruments are looked up by all that tells contracts of their kind apart |
| Ingest.JobsFitTheirFills | backend/src/tradeforge/application/import_service.py:178-181 | the instrument type a unit is reconstructed with is that of every fill stored in it |
| Import.ImportService.ResolveInstrument | backend/src/tradeforge/infrastructure/repositories/instrument_repo.py:127-178 | the instrument of a fill, created on first encounter; refused exactly when contract columns are missing |
| Import.ImportService.InsertNormalizedFill | backend/src/tradeforge/infrastructure/repositories/fill_repo.py:113-148 | adds one unassigned row, its exit type included, and keeps the tables valid; refused exactly when one of the two unique indexes holds the id |
| Import.ImportService.IngestFills | backend/src/tradeforge/application/import_service.py:144-181 | the loop stores exactly the first usable fill of each new broker id, counts every fill once, and collects each touched unit once; it fails exactly on an unsupported instrument or on a new id that another account holds |
| Import.ImportService.RunJobs | backend/src/tradeforge/application/import_service.py:185-193 | all units are reconstructed, or some unit could not run, or lots were out of order; the totals are the trades opened and the zeros reached |
| Import.ImportService.ImportFills | backend/src/tradeforge/application/import_service.py:96-245 | ingested + skipped + row errors = rows; the record and its status follow from that split; which error each refusal gives: a held id the first one in the file, a reconstruction failure its unit or its lots |
| Import.ImportService.ImportInTransaction | backend/src/tradeforge/application/import_service.py:108-108 | a failed import leaves everything as it was, so the tables stay valid over any sequence of imports |
| Import.ImportService.ImportTwice | backend/src/tradeforge/application/import_service.py:14-16 | the same rows imported again ingest nothing and change no table; the same file is refused |
| Import.ImportService.ImportIntoTwoAccounts | backend/src/tradeforge/application/import_service.py:132-176 | a file imported into one account is refused by another exactly when it has a usable row, the accounts holding only fills of this broker |
| Import.ImportedFillsAreAssigned | backend/src/tradeforge/application/import_service.py:185-193 | after success no stored fill and no fill of a touched unit that is not excluded is unassigned; earlier assignments stand |
| Import.ParsedFileIsUsable | backend/src/tradeforge/application/import_service.py:152-162 | no fill of this adapter fails to resolve, so row errors are the parse errors |
| FirstImport.ImportOneRow | backend/src/tradeforge/application/import_service.py:96-245 | importing one exported row into an empty database succeeds exactly when its fill is no square-off and no equity under NRML, and leaves one open trade with its side, quantity, price, time and type, and its lot |

## Left out

- Python's 28-digit Decimal context: quotients are exact before they are rounded to a column, so a double rounding at the 28th digit is not modelled.
- Overflow of Numeric(18,4) columns: integers are unbounded.
- Row locks, sessions, flushes and concurrent runs: a violated unique index is reported by the insert itself, a run is one atomic step, and two units of one account run one after the other.
- UUID keys: trade and fill ids come from counters; only their freshness is used.
- Tax lot keys: the table is keyed by its unique trade_id column.
- Soft-deleted trades (is_deleted): every trade row counts.
- Columns of execution_fills that reconstruction does not read: session, order id, import source, and which exit type a fill carries.
- Fills without an account, written before accounts existed.
- The per-fill product family check (E2): fills are fetched by product type, so it cannot fail after the fetch.
- The P&L call inside a run and the P&L backfill after an import: they write tables no run reads.
- Brokerage schedules with missing terms (the asserts in the brokerage helper) and the lookup of the schedule in force.
- Charge base aliases (TURNOVER or PREMIUM): both branches of the code compute the same base.
- Coverage percentages, and the square roots of the Sharpe and Sortino ratios: only their shared mean is used.
- The SQL behind the analytics: Kelly inputs and R series are the aggregates over the filtered trades.
- Floating-point percentile indices: the index is the floor of n * pct / 100.
- Ordering of tied strings by database collation: broker ids are ordered character by character.
- CSV decoding, header detection and ragged rows: a file is a list of stripped rows and whether it was detected.
- Letters and digits outside ASCII, and a line break at the end of a symbol, in the symbol patterns.
- Prices that are not finite or have more than four decimals, in the adapter's price reader.
- Instrument display names, log messages and the text of error messages.
- Reconstruction.Engine.Run: among open lots of one oldest purchase date the lookup may return any, so the lot fault a failed run is given (E4) is one it can meet after the fills it took, not one it must meet.
- ZerodhaAdapter.RowRoundTrip: takes it as given that the readers of dates, times and numbers undo the writers.
- ZerodhaAdapter.DerivativeRowRoundTrip: assumes the same of the readers; the contract text is proved to read back.
- ZerodhaAdapter.EquityRowRoundTrip: assumes the same of the readers.
- ZerodhaAdapter.RowWithoutProduct: assumes the same of the readers.
- ZerodhaAdapter.ExportedFileParses: assumes the same of the readers.
- ZerodhaAdapter.FileWithoutProductParses: assumes the same of the readers.
- FirstImport.ImportOneRow: assumes the same of the readers.
- Ingest.PrintedSquareoffOpensNothing: assumes the same of the readers.
- Accounts, authentication, stop and risk bookkeeping, journal, exclusions screens, and the web front end.
