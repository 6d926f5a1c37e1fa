# A-share quant platform: verified core

This project models the stateful core of the trading platform and proves what it
keeps over whole runs.

- **Strategy-driven backtest** (`Market`, `Ledger`, `Backtest`, `BacktestInvariant`, `BacktestRun`,
  `SellRules`, `BuyRules`, `DayRules`, `Valuation`, `Settlement`, `BacktestEngine`, `Metrics`). `Backtest` gives each operation of the day loop as a function on
  states that only scans bar lists. `BacktestEngine.Portfolio` is the object the engine updates in place; it
  finds bars through the binary-search date index and is proved to leave exactly the states of `Backtest`.
  `BacktestRun` holds the whole-run theorems; `SellRules`, `BuyRules`, `DayRules` and `Valuation` say from bars, cash and
  percentages alone what a check answers, what a buy or sale does and what equity is recorded; `Settlement` what the dates of orders and fills mean
  for released cash and holding times, `Ledger` and `Metrics` the FIFO reconstruction from the trade records alone.
- **K-line timestamp repair** (`KlineTable`, `RepairStatements`, `RepairCounts`, `RepairEngine`, `DuplicateCleanup`,
  `KlineCleanup`). A table is a map from (time, symbol, freq, adj_type) to a row of nullable columns. One
  reference, `KlineTable.Repaired`, says what repairing a set of shifted rows means; the snapshot statement, its
  three cheaper forms, the date batches and the five-statement day-by-day script are all proved equal to it, in
  the table they leave and in the numbers they report.
- **Staged stop-loss** (`StopLoss`): the stage evaluator, the daily mutator, what the stored stop is, and the exact
  condition, for every configuration, under which it never falls.
- **Smaller state machines**: the sliding-window limiter (`RateLimit`), condition orders (`ConditionOrders`), the
  order gateway (`RiskGateway`), minute ranges with the exit-condition evaluator (`MinuteExit`).

Money, prices and floats are exact reals; decimal `quantize` is modelled as rounding half to even. Dates are day
numbers, times are seconds in UTC. Insertion-ordered dictionaries are sequences with distinct keys.

Inputs taken as arbitrary: the screener's candidates of each day (any list with distinct symbols, as they are
built from a dictionary keyed by symbol, app/services/backtest_engine.py:1571; empty on a day of market danger),
the custom exit verdict of a position, indicator and threshold lookups, the clock, and the rows `LIMIT` picks.
Bars of a symbol come in nondecreasing trade-date order.

Findings, where the code and its documentation or name differ; the model follows the code:

- The stored stop of a position is that of the peak at which its stage was entered: it moves only when the stage
  rises, not with the peak inside a stage (app/services/operations_service.py:564-566). `StopFollowsPeakIff` says
  exactly when it still is the stop of today's peak, `StopLags` gives a run, with the default percentages, in which
  it is not.
- The percentages are taken unchecked (app/core/schemas.py:1039-1049). The stored stop can fall on entering a stage:
  when the trailing or the tight stop is too loose for its trigger, when the tight stop is looser than the trailing
  one, and when the tight trigger is not above the trailing one and the tight stop is too loose for it
  (`SwappedTriggersFall`). `StopNeverFallsIff` has the exact condition for every configuration.
- A trailing condition order registered without a peak never stores one. At positive prices it never submits with a
  positive percentage, and submits at the first tick with a missing, zero or negative one (`NoPeakSubmitsIff`).
- The gateway skips its stock and industry caps when total assets are not positive; every passed buy respects them
  exactly when there are assets (`CapsRespectedIffAssets`).
- The total limit is checked before the order is added, so the total may exceed the limit by one stock cap
  (`RunStaysWithinCaps`), and does (`LimitExceeded`); it never does exactly when every passed buy still fits
  (`TotalNeverExceedsIff`).
- The general repair script also takes rows at 16:xx other than 16:00:00, the day-by-day script does not; they
  agree exactly when no such row exists (`ScriptsAgreeIff`).
- Repeated daily dates shift the minute ranges against the daily bars (`AlignedIffNoDuplicates`).
- Frozen sale proceeds are released by the next iteration, not by the date of the fill
  (app/services/backtest_engine.py:2290-2292). The two agree exactly for the symbols that trade on the next trading
  day (`ReleasedOnFillDateIff`); otherwise a later buy can spend the proceeds of a sale that is not filled yet, and
  `UnfilledProceedsAreSpent` is such a run. For the same reason the holding limit counts from the fill exactly when
  the symbol traded on the day after the order (`CountsFromFillIff`).

## Model

| member | source | states |
|---|---|---|
| `Market.ScansCut` | app/services/backtest_engine.py:2032-2041 | On ordered bars the two list scans cut the list at one point: everything up to the date, everything after it |
| `Market.FillIsNextBar` | app/services/backtest_engine.py:2016-2043 | An order of day d fills on a bar of its symbol strictly after d with no bar between; the limit price is the close of the last bar up to d |
| `Market.BuildDateIndex` | app/services/backtest_engine.py:836-863 | The index maps each bar date to its last position and lists the dates strictly increasing, for bars in any order |
| `Market.GetBarsUpTo` | app/services/backtest_engine.py:866-882 | The binary-search lookup returns the end of the linear scan, duplicate dates included, and cuts the bars as both scans do |
| `Market.TradeDatesCorrect` | app/services/backtest_engine.py:2225-2233 | The calendar is the strictly increasing list of exactly the bar dates inside the configured range |
| `Market.FillAtCut` | app/services/backtest_engine.py:2016-2043 | Where a date cuts the bars, the first bar after the cut fills an order and the last one before it sets its price limits; without either there is no fill |
| `Market.LimitPrices` | app/services/backtest_engine.py:1243-1254 | Limit-up and limit-down are the previous close plus and less 20%, 30% or 10% by the prefix of the code before the first dot, rounded half-even to cents |
| `Market.CalendarIs` | app/services/backtest_engine.py:2225-2233 | A date is in the calendar exactly when it is in the range and some symbol has a bar on it |
| `Ledger.ReplayAlternates` | app/services/backtest_engine.py:2090-2100 | Records that replay alternate per symbol BUY, SELL, ..., each sale closing the buy before it in full and on a later date |
| `Ledger.FifoFindsOpeningBuy` | app/services/backtest_engine.py:2499-2507 | Queueing all buys first and popping one per sale pairs every sale with the buy that is open at that moment |
| `Ledger.FlowIsRealisedLessOpen` | app/services/backtest_engine.py:2491-2519 | Along every prefix of the records the cash flow is the FIFO profit minus what the still open buys cost |
| `Metrics.MatchTrades` | app/services/backtest_engine.py:2491-2519 | The two-pass queue loop computes trades, matches and wins, and total profit minus total loss is the realised FIFO profit |
| `Metrics.WinsCounted` | app/services/backtest_engine.py:2491-2519 | The wins are exactly the matched sales that brought more, after fees, than their shares had cost with theirs |
| `Metrics.MatchesCounted` | app/services/backtest_engine.py:2505-2511 | The matched trades are exactly the sales with a queued buy |
| `Metrics.AllMatched` | app/services/backtest_engine.py:2505-2511 | On the records of a run no sale is left unmatched |
| `Metrics.CalcMaxDrawdown` | app/services/backtest_engine.py:2543-2555 | For positive net values the one pass finds the maximum over all ordered pairs of the relative loss, and it lies in [0, 1) |
| `Metrics.GenerateDrawdownCurve` | app/services/backtest_engine.py:2562-2579 | Each curve point keeps its date and is the relative loss from the highest net value so far |
| `Metrics.MaxDrawdownTopsTheCurve` | app/services/backtest_engine.py:2543-2579 | The maximum drawdown is attained on the curve and no curve point exceeds it |
| `BacktestInvariant.RankFacts` | app/services/backtest_engine.py:1896-1921 | The slots go to the best candidates: in rank order, and none left out ranks strictly ahead of one chosen |
| `Basics.StableSortIsStable` | app/services/backtest_engine.py:1920 | Candidates and signals that compare equal keep their input order |
| `BacktestInvariant.PurchaseFacts` | app/services/backtest_engine.py:2043-2088 | A purchase is whole lots at a positive price below limit-up, within the single-stock share of equity at cost, paid from free cash, filled on the next bar |
| `BuyRules.SharesAreSized` | app/services/backtest_engine.py:1941-1971 | The shares are the largest multiple of 100 whose price is within the allotment (cash by score, or by free place) and within the single-stock share of cash plus positions at cost |
| `BuyRules.LargestLotsUnique` | app/services/backtest_engine.py:1964-1971 | That number of shares is unique |
| `BuyRules.BuyIs` | app/services/backtest_engine.py:2010-2102 | A candidate is bought exactly when its next bar exists and opens below limit-up and the shares it gets are positive and paid for with fees by the cash; the position, the record and the cash after it are given in full |
| `BuyRules.DayBuysAre` | app/services/backtest_engine.py:1991-2102 | The candidates of a day not held, the best one per free place in order of score, risk, signals and arrival, are bought in turn, each from what the ones before it left |
| `BuyRules.SaleBarAtCut` | app/services/backtest_engine.py:2136-2173 | A sale goes through at the next bar exactly when it exists, follows another, and opens above limit-down |
| `BuyRules.SellIs` | app/services/backtest_engine.py:2108-2198 | A sell order leaves the position pending, or removes it, freezes its amount less fees and records the trade, given in full |
| `BuyRules.EveryRecordPaysItsFees` | app/services/backtest_engine.py:1223-1236 | Every record of every run costs the commission of its side plus slippage on its amount, which is price times quantity |
| `DayRules.DaySalesAre` | app/services/backtest_engine.py:2290-2325 | Before the buys of a day the frozen cash is released, the pending sales are taken off and tried again in order, every position left is checked, and the signals are acted on by priority, each stage given in full |
| `BacktestInvariant.SharesAreMaximal` | app/services/backtest_engine.py:1941-1971 | One lot more than the computed shares would exceed the allotment or the single-stock cap |
| `BacktestInvariant.SellsAt` | app/services/backtest_engine.py:2125-2196 | A list of sell signals sells a held symbol exactly when one names it and its next bar allows; otherwise the holding stays, marked pending if named |
| `BacktestInvariant.SellsKeep` | app/services/backtest_engine.py:2125-2196 | Any list of sales of arrived positions keeps the books, solvency and arrival facts, and invents no holding |
| `BacktestInvariant.ExecuteBuysKeeps` | app/services/backtest_engine.py:1991-2102 | A day's buys keep the books, solvency and the holding maximum, and only append positions |
| `SellRules.SignalIffRuleBroken` | app/services/backtest_engine.py:1775-1880 | A signal fires exactly when the close breaks a price rule stated by multiplication, or the holding limit or custom rule applies, with the priority of the first broken rule |
| `SellRules.CheckIs` | app/services/backtest_engine.py:1743-1880 | A check leaves the position alone and fires nothing on a day without a bar; else it tracks the close and fires exactly the first broken rule, with its reason and priority |
| `SellRules.SignalIffTradesAndBroken` | app/services/backtest_engine.py:1755-1758 | A signal fires exactly when the symbol has a bar on that day and a rule is broken on the bars up to it |
| `SellRules.LaterBarsDoNotMatter` | app/services/backtest_engine.py:1743-1753 | Markets that agree up to a day give the same answer on it |
| `SellRules.SuspensionChangesNothing` | app/services/backtest_engine.py:1755-1758 | In every run a holding with nothing pending is unchanged by a day on which its symbol has no bar |
| `SellRules.SignalsByPriority` | app/services/backtest_engine.py:2318-2325 | The signals of a day are acted on in order of priority, equal ones in the order of the positions |
| `SellRules.HighestCloseIsMaximum` | app/services/backtest_engine.py:1755-1773 | In every run the tracked highest close is the maximum of the purchase price and the closes since, limit-up days and suspensions left out |
| `BacktestRun.RunIsSound` | app/services/backtest_engine.py:2286-2368 | Every reachable state: records replay to the open positions, cash accounts for every trade, cash and frozen cash are never negative, lots are whole, holdings within the maximum |
| `BacktestRun.TradesAlternate` | app/services/backtest_engine.py:1977-2198 | In every run each symbol alternates BUY, SELL with equal quantity and the sale strictly later (T+1), and is held exactly after a BUY |
| `BacktestRun.CashIsConserved` | app/services/backtest_engine.py:2071-2100 | In every run cash plus frozen cash is the initial capital plus the flows of all records, and neither part is negative |
| `BacktestRun.FifoReconstructsTheLedger` | app/services/backtest_engine.py:2491-2519 | In every run FIFO pairs each SELL with the BUY that opened its position, and realised profit is final money minus capital plus the cost of open positions |
| `BacktestRun.SnapshotsAreProfit` | app/services/backtest_engine.py:2346-2368 | Every equity snapshot of a run is capital plus realised profit plus the marked profit of open positions net of their full purchase cost |
| `Valuation.EquityIsMarkedAtLastClose` | app/services/backtest_engine.py:2346-2368 | In every run the equity of each day is all cash plus each held quantity times the close of the symbol's last bar up to that day, or times its cost when it has none |
| `BacktestRun.BuysSpendOnlyFreeCash` | app/services/backtest_engine.py:2290-2341 | On every day of a run sales only freeze their proceeds, buys spend only cash free before those sales, and each buy is within its share of equity at cost |
| `BacktestRun.DayAt` | app/services/backtest_engine.py:2294-2325 | A held symbol leaves on a day exactly when a sale is pending or fires and the next bar opens above limit-down; otherwise it stays, pending exactly when due |
| `BacktestRun.SignalSticks` | app/services/backtest_engine.py:2125-2173 | Once a signal fires on a holding, at the end of that and every later day the holding is gone or carries a pending sale |
| `BacktestRun.PendingUntilSellable` | app/services/backtest_engine.py:2294-2307 | Once pending, a sale of the same holding stays pending through any number of days on which it cannot be filled |
| `BacktestRun.SoldOnFirstChance` | app/services/backtest_engine.py:2294-2307 | A pending sale goes through on the first day whose next bar exists and opens above limit-down |
| `BacktestRun.NoneOverstays` | app/services/backtest_engine.py:1814-1822 | After any day a position past its holding limit either had no bar that day or could not be sold |
| `Settlement.FillDates` | app/services/backtest_engine.py:2032-2041 | An order of one trading day fills on the next trading day at the earliest, and on it exactly when the symbol trades that day |
| `Settlement.ReleasedOnFillDateIff` | app/services/backtest_engine.py:2290-2292 | In every run the proceeds of a day's sales are released on the next trading day, which is the date of the fill exactly for the symbols that trade on it and earlier for all others |
| `Settlement.UnfilledProceedsAreSpent` | app/services/backtest_engine.py:2290-2341 | A run whose buy of day 3 is paid entirely with a sale that is filled on day 4 |
| `Settlement.CountsFromFillIff` | app/services/backtest_engine.py:2077-2088 | In every run a position's holding days count from the date of its fill exactly when its symbol traded on the trading day after the order, else from earlier |
| `BacktestEngine.CheckSellConditions` | app/services/backtest_engine.py:1722-1890 | The indexed check answers as the scanning definition and as `SellRules.CheckedAs` spells out: nothing on a day without a bar, else the tracked closes and the first broken rule |
| `BacktestEngine.Portfolio.ExecuteSells` | app/services/backtest_engine.py:2108-2198 | In-place sales, through any valid index or none for a symbol, leave the state of the scanning definition |
| `BacktestEngine.Portfolio.ExecuteBuys` | app/services/backtest_engine.py:1977-2102 | In-place buys, through any valid index or none for a symbol, leave the state of the scanning definition |
| `BacktestEngine.Portfolio.TradeDay` | app/services/backtest_engine.py:2286-2368 | One iteration of the day loop, with or without an index entry for a symbol, leaves the state of `Backtest.Day` |
| `BacktestEngine.RunStrategyDriven` | app/services/backtest_engine.py:2204-2368 | The whole loop over the calendar, with the index built once for every symbol, ends in the state of the scanning `Backtest.Run` |
| `KlineTable.FillIffMergeChanges` | scripts/repair_tushare_timeseries_timezone.py:400-436 | The merge guard skips exactly the rows the merge would not change |
| `KlineTable.RepairRows` | scripts/repair_tushare_timeseries_timezone.py:400-463 | A conflicting target keeps its own columns or takes the source's, another source reappears eight hours later unchanged, all other rows are untouched |
| `KlineTable.RepairFillsColumns` | scripts/repair_tushare_timeseries_timezone.py:400-463 | Each of the ten columns of a conflicting target keeps its own value or else takes the source's value of that same column; other sources reappear whole, no repaired row is left, the rest is untouched |
| `KlineTable.RepairLeavesNone` | scripts/repair_tushare_timeseries_timezone.py:378-390 | No repaired row is left and no other row of hour 16 appears, disappears or changes |
| `KlineTable.RepairTwice` | scripts/repair_tushare_timeseries_timezone.py:754-799 | Repairing two disjoint sets of shifted rows in turn is repairing their union |
| `KlineTable.RepairCount` | scripts/repair_tushare_timeseries_timezone.py:437-445 | A repair loses exactly one row per conflict |
| `RepairStatements.EditsAreDisjoint` | scripts/repair_tushare_timeseries_timezone.py:391-463 | No row is touched by two of merge, delete and move, and no moved row lands on an existing key |
| `RepairStatements.EditOrderIsIrrelevant` | scripts/repair_tushare_timeseries_timezone.py:391-463 | The three sub-statements of one snapshot give the same table in all six orders |
| `RepairStatements.FullIsRepair` | scripts/repair_tushare_timeseries_timezone.py:373-470 | The full statement repairs exactly its candidates |
| `RepairStatements.MoveOnlyIsFull` | scripts/repair_tushare_timeseries_timezone.py:565-587 | Without conflicts the move-only statement gives the table of the full one |
| `RepairStatements.DeleteConflictsIsFull` | scripts/repair_tushare_timeseries_timezone.py:605-676 | When every candidate conflicts and none needs filling, deleting the conflicts gives the table of the full statement |
| `RepairCounts.StatsAddUp` | scripts/repair_kline_trade_date_duplicates.py:383-393 | Repairing two disjoint sets of shifted rows in turn reports, summed, the numbers of repairing both at once |
| `RepairEngine.SplitDateBatches` | scripts/repair_tushare_timeseries_timezone.py:39-52 | Fails exactly on a reversed range or a batch size below 1; otherwise the batches tile the range, all but the last of exactly the length asked and the last no longer |
| `RepairEngine.KlineStore.RepairBatch` | scripts/repair_tushare_timeseries_timezone.py:754-799 | Whichever branch the counts select, table and reported numbers are those of the full statement |
| `RepairEngine.KlineStore.ExecuteRepair` | scripts/repair_tushare_timeseries_timezone.py:747-799 | The loop over batches applies one repair per batch, in order, fills every column as stated, reports the numbers of each, and finds no candidate left after any |
| `RepairEngine.BatchesAreOneRepair` | scripts/repair_tushare_timeseries_timezone.py:39-76 | Repairing any tiling of a range batch by batch equals one repair over the whole range |
| `RepairEngine.BatchesFillColumns` | scripts/repair_tushare_timeseries_timezone.py:400-463 | The table the general script leaves, row by row and column by column |
| `RepairEngine.DaysFillColumns` | scripts/repair_kline_trade_date_duplicates.py:233-265 | The table the day-by-day script leaves, row by row and column by column |
| `RepairEngine.CandidatesAre` | scripts/repair_tushare_timeseries_timezone.py:378-390 | The rows taken are those of the frequencies in the hour from 16:00 UTC before a date of the range, or at its very start |
| `RepairEngine.TargetIs` | scripts/repair_tushare_timeseries_timezone.py:391-399 | A row stored eight hours early belongs at the same second of its date |
| `RepairEngine.TilesCoverOnce` | scripts/repair_tushare_timeseries_timezone.py:39-52 | Every date of the range and no other lies in exactly one batch |
| `RepairEngine.BatchesReportOneRepair` | scripts/repair_tushare_timeseries_timezone.py:747-799 | The numbers of all batches of a range add up to those of one repair over the range |
| `RepairEngine.RepairIsIdempotent` | scripts/repair_tushare_timeseries_timezone.py:797-799 | After a repair the window holds no candidate and repairing again changes nothing |
| `RepairEngine.DayIsRepair` | scripts/repair_kline_trade_date_duplicates.py:205-327 | The day's temporary table and four writing statements in sequence repair exactly the rows of its source slot |
| `RepairEngine.KlineStore.RepairDay` | scripts/repair_kline_trade_date_duplicates.py:186-338 | The day's table is the repair of its slot; candidates, conflicts, merged, moved and deleted rows are counted exactly; the row count drops by the deletions |
| `RepairEngine.KlineStore.RunDays` | scripts/repair_kline_trade_date_duplicates.py:341-397 | Fails exactly on a reversed range; otherwise the days are repaired in order, every column is filled as stated, all five totals are those of one repair of the exact candidates, and the deleted total is the loss of rows |
| `RepairEngine.DaysAreOneRepair` | scripts/repair_kline_trade_date_duplicates.py:63-66 | Day by day over a range equals one repair of its rows at exactly 16:00:00 |
| `RepairEngine.ScriptsAgreeIff` | scripts/repair_kline_trade_date_duplicates.py:4-10 | The two scripts leave the same table exactly when every candidate of the range is at 16:00:00 |
| `DuplicateCleanup.CleanedKeepsLowest` | scripts/repair_duplicate_data.py:84-100 | The cleaned table keeps, for every key, the lowest selected row, and every unselected row |
| `DuplicateCleanup.CleanedIsUnique` | scripts/repair_duplicate_data.py:84-100 | No two selected rows of the cleaned table share a key |
| `DuplicateCleanup.CountIsVictims` | scripts/repair_duplicate_data.py:36-49 | The announced number of extra rows is the number of rows a full cleanup deletes |
| `DuplicateCleanup.Relation.RepairDuplicates` | scripts/repair_duplicate_data.py:142-147 | With any positive batch size and any choice of victims the loop ends as one unlimited deletion, having deleted exactly the extra rows |
| `KlineCleanup.NoKeyCollision` | scripts/cleanup_duplicate_kline.py:313-335 | Re-keyed rows collide neither with each other nor with an existing row |
| `KlineCleanup.CleanedRows` | scripts/cleanup_duplicate_kline.py:259-347 | Nothing stale is left, other rows are untouched, each re-keyed row carries its values to midnight, no other row appears |
| `KlineCleanup.StaleAre` | scripts/cleanup_duplicate_kline.py:211-258 | The rows concerned are the daily ones at 16:00:00 of some date within the bounds |
| `KlineCleanup.CleanedIs` | scripts/cleanup_duplicate_kline.py:259-347 | Each of them is gone, and the row at its date's midnight is the one there was, or else it with all its values |
| `KlineCleanup.Store.CleanupDuplicates` | scripts/cleanup_duplicate_kline.py:211-349 | The delete and update loops equal the one-shot cleanup for any batches, and report exact totals |
| `StopLoss.EvaluatorFinds` | app/services/operations_service.py:456-515 | The evaluator finds a trend break exactly below the average, else a long hold exactly on enough days under the threshold, else the stage of the peak with its stop and signal, each with its own stop |
| `StopLoss.EvaluatedIs` | app/services/operations_service.py:541-572 | One evaluation of a held position, field by field: price, peak, days, trend, stage and stop raised only, signal and status |
| `StopLoss.SellReasons` | app/services/operations_service.py:475-489 | In every run an evaluation becomes a trend break at stage 5 exactly below that quote's average, a long hold at stage 4 exactly when it does not and the days and trend say so, else the stage is that of the peak |
| `StopLoss.StageFollowsPeak` | app/services/operations_service.py:456-571 | Over any quotes a position below stage 4 is in the stage of its peak and pending exactly when at or under its stop, the stage never falls, and stages 4 and 5 occur exactly with a pending sale for their own reason |
| `StopLoss.PeakIsMaximum` | app/services/operations_service.py:548-550 | Over any quotes the peak is the maximum of the purchase price and the prices quoted until the sale |
| `StopLoss.StopIsEntryStop` | app/services/operations_service.py:564-566 | Over any quotes, below stage 4, the stored stop is exactly the rounded stop of the stage at the peak it was entered with |
| `StopLoss.StopFollowsPeakIff` | app/services/operations_service.py:564-566 | It is the stop of today's peak exactly when both peaks round to one stop: always while no quote exceeded the entry peak, never once the stops are more than a tick apart |
| `StopLoss.StopLags` | app/core/schemas.py:1015-1024 | With the default percentages a rise inside stage 2 leaves the stop 2.85 below that of the peak |
| `StopLoss.PriceAboveStop` | app/services/operations_service.py:489-515 | With trailing and tight stops of at most 100% the price of a held position stays above the stored stop up to rounding |
| `StopLoss.StopNeverFalls` | app/services/operations_service.py:548-570 | With ratcheting percentages and triggers in order, equal ones included, the stored stop never falls while the stage is below 4, and the price of a held position stays above it up to rounding |
| `StopLoss.StopNeverFallsIff` | app/services/operations_service.py:490-515 | For every configuration: over all prices and quotes the stop never falls exactly when no stage's stop starts below the one it replaces at the peaks that lead there |
| `StopLoss.RatchetsNeeded` | app/services/operations_service.py:490-515 | With positive triggers that differ, the ratcheting percentages are also necessary |
| `StopLoss.SwappedTriggersFall` | app/core/schemas.py:1039-1049 | With the tight trigger below the trailing one, ratcheting percentages do not prevent a fall |
| `StopLoss.PlanPosition.constructor` | app/services/operations_service.py:367-404 | A buy opens a position at stage 1 with its price as cost, current price and peak, no days held, and the fixed stop rounded half-even to four decimals |
| `StopLoss.PlanPosition.Evaluate` | app/services/operations_service.py:543-572 | One in-place evaluation leaves the state `StopLoss.EvaluatesTo` spells out and fires exactly when it marks the position for sale |
| `StopLoss.NextOfPlanIs` | app/services/operations_service.py:541-577 | A held position of an active plan is evaluated with its symbol's quote or, without one, with no price, average or trend; every other position stays |
| `StopLoss.RunStopLossEvaluation` | app/services/operations_service.py:541-577 | Every position of every active plan ends as its own evaluation with its plan's percentages says, positions no longer held and inactive plans are left alone, and both totals are exact |
| `RateLimit.RateLimiter.Check` | app/core/security.py:298-320 | The pruning check returns and stores what the window rule says, for its key only |
| `RateLimit.AllowsIffRemaining` | app/core/security.py:326-337 | A check succeeds exactly when requests remain |
| `RateLimit.RemainingIsExact` | app/core/security.py:326-337 | What remains at any moment is the limit less the accepted calls in the window over the full history, at least 0 |
| `RateLimit.AcceptedIffWindowNotFull` | app/core/security.py:305-320 | In any time-ordered run a call is accepted exactly when fewer than the limit were accepted in its window over the full history |
| `RateLimit.NoWindowOverflows` | app/core/security.py:305-320 | In any time-ordered run no window anywhere in the history holds more accepted calls of a key than the limit |
| `ConditionOrders.Manager.CheckAndTrigger` | app/services/trade_executor.py:411-441 | Every registered order, even one registered twice, sees the tick once; exactly the firing ones are returned, without repetition |
| `ConditionOrders.Manager.Cancel` | app/services/trade_executor.py:399-405 | Cancelling succeeds exactly on an active order and deactivates only that order |
| `ConditionOrders.LifeTracks` | app/services/trade_executor.py:458-465 | While an order waits, a trailing peak is the maximum of the registered peak and all ticks |
| `ConditionOrders.SubmitsAtFirstHit` | app/services/trade_executor.py:431-465 | Over any events an order submits exactly at the first that meets its condition, unless cancelled before |
| `ConditionOrders.SubmitsAtMostOnce` | app/services/trade_executor.py:431-440 | An order submits at most once and never after being cancelled |
| `ConditionOrders.NoPeakSubmitsIff` | app/services/trade_executor.py:458-465 | A waiting trailing order without a registered peak submits at a positive price exactly when its percentage is missing, zero or negative |
| `ConditionOrders.BookIsLives` | app/services/trade_executor.py:388-441 | Over any registrations, cancellations and checks every order of the manager is where its own life has brought it |
| `ConditionOrders.ManagerSubmitsAtMostOnce` | app/services/trade_executor.py:388-441 | Over any calls the manager submits each order at most once and never after cancelling it |
| `RiskGateway.VerdictIs` | app/services/risk_controller.py:1477-1580 | Every verdict on every order: sales pass; else the first failed of blacklist, rise above 9%, 15% in the stock, 30% in the industry, and 80%, 60% or 30% in all |
| `RiskGateway.PassedBuy` | app/services/risk_controller.py:1532-1580 | With positive assets a passed buy leaves its stock and industry within their caps, with the total within the limit before it |
| `RiskGateway.RunStaysWithinCaps` | app/services/risk_controller.py:1477-1580 | Over any run of priced orders from any account within the caps, assets are conserved, stock and industry caps hold, and the total exceeds the limit by at most one stock cap |
| `RiskGateway.CashNeverNegative` | app/services/risk_controller.py:980-1001 | Over any such run cash keeps at least what the highest limit and one stock cap leave |
| `RiskGateway.FivePercentStays` | app/services/risk_controller.py:980-1001 | Whatever the levels along the run, an account that starts within the caps of the highest one keeps five percent in cash |
| `RiskGateway.TotalNeverExceedsIff` | app/services/risk_controller.py:1563-1580 | Over any run of priced orders the total never exceeds a limit exactly when every passed buy still fits below it |
| `RiskGateway.LimitExceeded` | app/services/risk_controller.py:1563-1580 | Three passed buys under the 30% limit reach 45%, the proved bound |
| `RiskGateway.NoAssetsNoCaps` | app/services/risk_controller.py:1533-1577 | Without positive assets a buy passes exactly when its stock is unlisted and has not risen too much, whatever its size and the level |
| `RiskGateway.CapsRespectedIffAssets` | app/services/risk_controller.py:1532-1580 | Every passed buy respects the stock and industry caps exactly when total assets are positive |
| `MinuteExit.BuildDayRanges` | app/services/backtest_engine.py:776-820 | One range per distinct daily date; with ordered minute bars each holds exactly the bars of its date, or the sentinel when there are none |
| `MinuteExit.RangesAreOrdered` | app/services/backtest_engine.py:794-820 | Ranges of different days are disjoint and ordered |
| `MinuteExit.AlignedIffNoDuplicates` | app/services/backtest_engine.py:776-784 | Ranges and daily bars share positions exactly when no daily date repeats |
| `MinuteExit.CrossIs` | app/services/exit_condition_evaluator.py:453-506 | A cross is a change of lead between two adjacent bars: from none or behind to ahead, or from none or ahead to behind |
| `MinuteExit.MeetsIs` | app/services/exit_condition_evaluator.py:177-262 | A comparison holds by the sign of value less threshold; an unknown operator or a missing value never does |
| `MinuteExit.HoldsIs` | app/services/exit_condition_evaluator.py:104-138 | The minutes of the day are asked for the five minute frequencies that have ranges, the daily bar otherwise |
| `MinuteExit.CacheIs` | app/services/exit_condition_evaluator.py:104-138 | A condition reads the cache of its frequency, or the daily one when that is missing |
| `MinuteExit.EvaluateSingleMinuteScanning` | app/services/exit_condition_evaluator.py:177-262 | The early-exit scan triggers exactly when some bar, or for crosses some adjacent pair, of the range satisfies the condition |
| `MinuteExit.Evaluate` | app/services/exit_condition_evaluator.py:85-170 | The verdict combines the conditions by AND or OR, skipped conditions counting as false |
| `MinuteExit.MinuteVerdictIsAboutTheDay` | app/services/exit_condition_evaluator.py:104-138 | A scanned condition holds at a daily bar exactly when minute bars of that very date satisfy it |

## Left out

- Screening and indicator mathematics: candidates are arbitrary input; the modules behind them are not part of this model.
- The sector cap of `_execute_buys`: candidates carry no sector, so the branch never applies.
- Market-risk classification: its effect, an empty candidate list, is part of the arbitrary input.
- The 28-digit precision of Decimal divisions and float rounding: arithmetic is exact except for `quantize`.
- Position objects as shared references: a position is reachable only through its dictionary, so it is a value replaced in place.
- The low of the tracked closes over a run: updated as in the code, used only by custom exit rules.
- The signal-driven backtest path, Sharpe, Calmar and annualised figures, average holding days, exports.
- `sector_kline` repair: the same statements over another key and column list would only repeat the kline members.
- Backup tables, dry-run reports and OHLCV difference counts of the scripts: they change no row of the table.
- KlineCleanup.Store.CleanupDuplicates: requires a positive batch size, because with size 0 the source loop never ends.
- StopLoss.RunStopLossEvaluation: does not model the per-position exception handler, because what it leaves behind depends on the failing statement.
- Manual `confirm_sell` and `adjust_stop`, which bypass the state machine.
- RiskGateway.RunStaysWithinCaps: orders without a price, which the gateway counts as amount zero, are excluded; fills are complete, at fixed prices and free of fees.
- ConditionOrders.Manager.Cancel: orders are named by position instead of a random identifier; the step on the whole book is stated for orders registered once, as a cancellation also reaches the other registrations of the same object.
- Submission of condition orders to the broker is the list the manager returns.
- MinuteExit.Evaluate: the reason text, and the cache keys of single indicators, which are an arbitrary lookup; an empty cross target is the missing one.
- Database transactions, async concurrency, logging and report text.
