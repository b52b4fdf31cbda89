# TradingApp paper-trading engine in Dafny

A Dafny model of the paper-trading engine of TradingApp. TradingApp is an Angular app that charts Kraken XBT/USD candles and trades them on paper.

The model covers three parts:

- **The support/resistance detector and the entry selectors** (`src/app/financial-chart/indicators.ts`).
  - Support pivots are computed on the lows and resistance pivots on the highs.
  - Support pivots are sorted ascending by low; resistance pivots descending by high.
  - Each list is thinned greedily by twice the window's mean bar height.
  - The long entry is the highest support line below a candle's low. The short entry is the lowest resistance line above its high.
- **The long-only position state machine of `FinancialChartComponent`.** `paperTrade` and `reset` are methods of a class whose fields are the component's order and PnL fields.
- **The candle series bookkeeping and the two candle normalisers.**
  - The upsert by timestamp in `renderGraph` and the `barCount` trim in `updateChart`.
  - `mapStream`, and `QuotesService.map` for the REST rows.
  - The backtest step and its replay over the historical candles.

Modules:

| module | file | contents |
|---|---|---|
| `Wrappers` | `wrappers.dfy` | `Option` |
| `Candles` | `candles.dfy` | the candle record, the sides and sort orders, `Cell` (a row cell, `undefined` past the end) |
| `StableSort` | `sorting.dfy` | a stable insertion sort standing for `Array.prototype.sort` |
| `Indicators` | `indicators.dfy` | pivots, mean bar height, greedy de-duplication, `findSupportAndResistance`, the entry selectors |
| `ChartSeries` | `chartseries.dfy` | `findIndex` by timestamp, upsert, trim |
| `PaperTrading` | `papertrading.dfy` | the book as a value, its next-state function and its properties |
| `QuotesService` | `quotes.dfy` | the Kraken REST response and `map` |
| `FinancialChart` | `financialchart.dfy` | `mapStream`, the component's `findEntryPoint`, the class `FinancialChartComponent`, the backtest step and replay |

Conventions:

- Prices and timestamps are `real`.
- A JavaScript `undefined` number is `None`. "Falsy" means `None` or `0.0` (`PaperTrading.Truthy`).
- `parseFloat` is a function parameter of type `string -> real`. A row cell past the end of the row is the string `"undefined"`, which is what JavaScript hands to `parseFloat`.
- The seedless `reduce` throws on an empty window. `findSupportAndResistance` therefore returns `None` on an empty window and `Some` otherwise.
- Each imperative operation is proved against a specification function:
  - `DedupLines` against `Unique`.
  - `FindSupportAndResistance` against `SupportAndResistance`.
  - `FindEntryPointLong` and `FindEntryPointShort` against `Sort` and `EntryLong`/`EntryShort`.
  - `PaperTrade` against `NextBook`, and `Reset` against `ResetBook`.
  - `RenderGraph` against `Trim(Upsert(..))`.
  - `BacktestStep` against `Step`, and `Backtest` against `Replay`.

  The properties are then proved as lemmas about those functions.

Behaviours of the code that the model keeps as written:

- **Upsert.** A new candle replaces the first stored candle with the same timestamp, wherever it stands. When that match is at index 0 the candle is appended instead, because the index 0 is falsy (`financial-chart.component.ts:181-189`).
- **Pivot positions.** The first two and the last three positions of a window are never pivots (`indicators.ts:8-9`), so a window of fewer than six candles has none.
- **Empty window.** The seedless `reduce` throws on an empty window (`indicators.ts:37-40`), modelled as `None`. Windows of one to five candles return two empty lists.
- **Malformed input.** The stream drops messages that are not JSON arrays ending in `'XBT/USD'` (`financial-chart.component.ts:131-142`); that filtering is left out with the transport. A REST row or stream message with a malformed numeric cell is not dropped: `parseFloat` gives NaN, which the model's reals cannot represent.

## Model

| member | source | states |
|---|---|---|
| Indicators.PivotsBeforeMembers | src/app/financial-chart/indicators.ts:6-18 | the filter keeps a candle exactly when it stands at a position i with 1 < i < n-3 whose two predecessors are at or beyond it and whose two successors are strictly short of it |
| Indicators.PivotsMembers | src/app/financial-chart/indicators.ts:22-34 | for either side, a candle is in the pivot list iff it stands at a pivot position of the window (the mirror rule on highs for resistance) |
| Indicators.ShortWindowHasNoPivots | src/app/financial-chart/indicators.ts:8-9 | a window of fewer than six candles has no pivot, since the last three positions never qualify |
| Indicators.PositiveTime | src/app/financial-chart/indicators.ts:5 | the support pass keeps exactly the candles with x > 0, each as often as in its input, in their input order (a subsequence), no more candles than it was given |
| StableSort.Sort | src/app/financial-chart/indicators.ts:35 | sorting only rearranges: same length and same multiset of candles |
| StableSort.SortIsStable | src/app/financial-chart/indicators.ts:19 | the sort is stable: for every key, the candles with that key appear in the output in their input order |
| StableSort.SortIsOrderedPermutation | src/app/financial-chart/indicators.ts:19 | the sorted list is ordered by the comparator's key and is a permutation of its input |
| Indicators.AverageBarHeightNonNegative | src/app/financial-chart/indicators.ts:37-40 | over bars whose low is at or below their high, the mean of h - l is not negative |
| Indicators.DedupLines | src/app/financial-chart/indicators.ts:44-60 | the forEach/push loop computes exactly the greedy pass Unique on the sorted pivots |
| Indicators.UniqueIsSubsequence | src/app/financial-chart/indicators.ts:64-81 | the kept lines are a subsequence of the sorted pivots (order kept, nothing invented) |
| Indicators.UniqueSeparated | src/app/financial-chart/indicators.ts:50-54 | any two kept lines differ in price by more than twice the average bar height |
| Indicators.UniqueCovers | src/app/financial-chart/indicators.ts:56-58 | every pivot is kept or lies within twice the average bar height of a kept line |
| Indicators.UniqueKeepsFirst | src/app/financial-chart/indicators.ts:45-47 | the first (most extreme) pivot is always kept, at the head of the result |
| Indicators.FindSupportAndResistance | src/app/financial-chart/indicators.ts:3-87 | the function returns None on an empty window (the reduce throws) and otherwise the two de-duplicated lists |
| Indicators.SupportLinesArePivots | src/app/financial-chart/indicators.ts:4-18 | every support line is a candle at a support pivot of the positive-time window |
| Indicators.SupportLinesAscending | src/app/financial-chart/indicators.ts:19 | the support lines are a subsequence of the support pivots sorted by low, hence ascending by low |
| Indicators.SupportLinesSeparatedAndCovering | src/app/financial-chart/indicators.ts:44-60 | support lines are pairwise more than 2 x mean bar height apart, and every support pivot is kept or within that distance of a kept line |
| Indicators.SupportLinesKeepLowest | src/app/financial-chart/indicators.ts:45-46 | when any support pivot exists, the lowest one is the first support line |
| Indicators.ResistanceLinesArePivots | src/app/financial-chart/indicators.ts:21-34 | every resistance line is a candle at a resistance pivot of the unfiltered window |
| Indicators.ResistanceLinesDescending | src/app/financial-chart/indicators.ts:35 | the resistance lines are a subsequence of the resistance pivots sorted by high descending, hence descending by high |
| Indicators.ResistanceLinesSeparatedAndCovering | src/app/financial-chart/indicators.ts:64-81 | resistance lines are pairwise more than 2 x mean bar height apart, and every resistance pivot is kept or within that distance of a kept line |
| Indicators.ResistanceLinesKeepHighest | src/app/financial-chart/indicators.ts:65-66 | when any resistance pivot exists, the highest one is the first resistance line |
| Indicators.ShortWindowHasNoLevels | src/app/financial-chart/indicators.ts:3-87 | a window of one to five candles yields two empty lists |
| Indicators.FirstAbove | src/app/financial-chart/indicators.ts:98-100 | a found element is in the list, passes the test (its key lies beyond the bound), and stands at an index before which no element passes: the first passing element |
| Indicators.FirstAboveNone | src/app/financial-chart/indicators.ts:98-100 | find returns undefined iff no element passes the test |
| Indicators.FirstAboveIsLeast | src/app/financial-chart/indicators.ts:114-116 | on an ordered list, the first element passing the test has the least key among all that pass |
| Indicators.NearestIsClosest | src/app/financial-chart/indicators.ts:96-100 | sort then find gives the passing line with the least key, and nothing when no line passes |
| Indicators.EntryLongIsHighestSupportBelow | src/app/financial-chart/indicators.ts:89-103 | the long entry is a support line strictly below the candle's low, no support line lies between it and that low, and there is none iff no support line is below the low |
| Indicators.EntryShortIsLowestResistanceAbove | src/app/financial-chart/indicators.ts:105-119 | the short entry is a resistance line strictly above the candle's high, no resistance line lies between, and there is none iff no resistance line is above the high |
| Indicators.FindEntryPointLong | src/app/financial-chart/indicators.ts:96-100 | the caller's support array is left sorted descending by low, and the result is the long entry of the original lines |
| Indicators.FindEntryPointShort | src/app/financial-chart/indicators.ts:112-116 | the caller's resistance array is left sorted ascending by high, and the result is the short entry of the original lines |
| ChartSeries.IndexOfTime | src/app/financial-chart/financial-chart.component.ts:181-183 | -1 iff no candle has the timestamp; otherwise the first index whose candle has it |
| ChartSeries.UpsertReplaces | src/app/financial-chart/financial-chart.component.ts:185-186 | a first match at index > 0 is overwritten in place: same length, all other candles unchanged |
| ChartSeries.UpsertAppends | src/app/financial-chart/financial-chart.component.ts:187-189 | a new timestamp, or one first matched at index 0, is appended, so a front match leaves the timestamp twice in the series |
| ChartSeries.Trim | src/app/financial-chart/financial-chart.component.ts:321-329 | the series is cut to a suffix of its last barCount candles, order kept; barCount 0 keeps everything |
| ChartSeries.UpsertThenTrim | src/app/financial-chart/financial-chart.component.ts:180-189 | from a series within barCount, upsert and trim give a non-empty series within barCount that shows the new candle |
| PaperTrading.ResetIsFlat | src/app/financial-chart/financial-chart.component.ts:538-543 | reset clears both targets, the buy order and the position flag, keeps entry point and all PnL fields, restores the invariant and is idempotent |
| PaperTrading.NextBookKeepsInvariant | src/app/financial-chart/financial-chart.component.ts:447-536 | paperTrade keeps "targets set exactly while holding, and a held position has a truthy buy order" |
| PaperTrading.MarkToMarket | src/app/financial-chart/financial-chart.component.ts:448-452 | holdPnl is last.c - first.c, or 0 without a first candle; currentPnl becomes close - openOrder only while holding with a truthy order |
| PaperTrading.NextBookKeepsEntry | src/app/financial-chart/financial-chart.component.ts:447-536 | paperTrade never changes the entry point |
| PaperTrading.TakeProfitCloses | src/app/financial-chart/financial-chart.component.ts:454-471 | a candle reaching the take-profit order adds takeProfit - openOrder to runningPnl and leaves the book reset, even when it also reaches the stop |
| PaperTrading.StopLossCloses | src/app/financial-chart/financial-chart.component.ts:473-490 | otherwise a candle reaching the stop-loss order adds stopLoss - openOrder to runningPnl and leaves the book reset |
| PaperTrading.RunningPnlOnlyOnClose | src/app/financial-chart/financial-chart.component.ts:466-485 | runningPnl is unchanged by every step that does not close a held position |
| PaperTrading.FillOpensPosition | src/app/financial-chart/financial-chart.component.ts:492-519 | flat with an entry point and a buy order the low reaches: position opens, targets at entry.l(1+pt) and entry.l(1-sl), buy order and PnL untouched |
| PaperTrading.QuoteFollowsEntry | src/app/financial-chart/financial-chart.component.ts:521-535 | flat with an entry point and no fill: the buy order becomes entry.l when unset or different, else stays; still flat |
| PaperTrading.NoEntryNoTrade | src/app/financial-chart/financial-chart.component.ts:492-535 | flat without an entry point, only holdPnl changes |
| PaperTrading.OpenOrderKeptWhileHolding | src/app/financial-chart/financial-chart.component.ts:523-526 | while a position is held the buy order stays as long as the position does, and is cleared only with the close |
| PaperTrading.TakeProfitExample | src/app/financial-chart/financial-chart.component.ts:498-500 | entry at 100 with 0.5% targets: order at 100, fill, targets 100.5 / 99.5, a high of 101 books +0.5 |
| QuotesService.Map | src/app/quotes.service.ts:42-52 | None iff the XXBTZUSD rows are missing, else exactly one candle per row |
| QuotesService.MapRows | src/app/quotes.service.ts:43 | one candle per row |
| QuotesService.MapRowsFields | src/app/quotes.service.ts:44-50 | candle i has time row[0] x 1000 and open/high/low/close from row[1..4] of row i |
| QuotesService.MapRowsAppend | src/app/quotes.service.ts:43 | mapping is row by row: the rows of two batches map to the candles of each, in order |
| FinancialChart.MapStreamIsShiftedRow | src/app/financial-chart/financial-chart.component.ts:334-342 | the stream's OHLC array maps like a REST row after dropping its leading field, the start time: x is field[1] (the end time) x 1000 and o/h/l/c come from fields 2-5, so the stream keys candles by the bar's end time and the REST rows by its start time |
| FinancialChart.FindEntryPointIsHighestBelowLast | src/app/financial-chart/financial-chart.component.ts:430-445 | the entry is the highest support line strictly below the last candle's low, none iff no line is below it |
| FinancialChart.Step | src/app/financial-chart/financial-chart.component.ts:109-125 | a step's series is non-empty and within barCount |
| FinancialChart.StepKeepsInvariant | src/app/financial-chart/financial-chart.component.ts:116-124 | a backtest step keeps the position invariant, keeps the entry point while holding, and shows the new candle in a series within barCount |
| FinancialChart.ReplayKeepsInvariant | src/app/financial-chart/financial-chart.component.ts:107-125 | the whole replay keeps the position invariant and the series bound |
| FinancialChart.StepHoldPnl | src/app/financial-chart/financial-chart.component.ts:123 | after a step, holdPnl is the candle's close minus the first historical close |
| FinancialChart.ReplayHoldPnl | src/app/financial-chart/financial-chart.component.ts:107-125 | after replaying at least one candle, holdPnl is the last replayed close minus the first historical close |
| FinancialChart.FirstPart | src/app/financial-chart/financial-chart.component.ts:97 | slice(0, barCount): the first min(n, barCount) candles |
| FinancialChart.LastPart | src/app/financial-chart/financial-chart.component.ts:98 | slice(barCount): what follows the first part, the two together being the whole history |
| FinancialChart.FinancialChartComponent.constructor | src/app/financial-chart/financial-chart.component.ts:30-40 | flat book, zero PnL, empty series, invariant holds |
| FinancialChart.FinancialChartComponent.Reset | src/app/financial-chart/financial-chart.component.ts:538-543 | the new book is ResetBook of the old, series untouched; the class invariant (position invariant, at most 120 candles) is kept |
| FinancialChart.FinancialChartComponent.PaperTrade | src/app/financial-chart/financial-chart.component.ts:447-536 | the new book is NextBook of the old with the component's 0.005 / 0.005 targets, series untouched; the class invariant is kept |
| FinancialChart.FinancialChartComponent.UpdateChart | src/app/financial-chart/financial-chart.component.ts:321-329 | the series becomes its trim to 120 candles, book untouched; with the position invariant holding, the class invariant holds afterwards |
| FinancialChart.FinancialChartComponent.RenderGraph | src/app/financial-chart/financial-chart.component.ts:180-189 | the series becomes Trim(Upsert(old series, candle), 120), book untouched; with the position invariant holding, the class invariant holds afterwards |
| FinancialChart.FinancialChartComponent.BacktestStep | src/app/financial-chart/financial-chart.component.ts:109-125 | book and series become Step of the old ones; the invariant is kept |
| FinancialChart.FinancialChartComponent.Backtest | src/app/financial-chart/financial-chart.component.ts:94-125 | book and series end as Replay of the first part over the last part against candles[0]; the invariant is kept |

## Left out

- Chart rendering: dataset construction, colours, support/resistance/entry/target line drawing, `Chart.register`, `chart.update()` and `renderHistoricalPrices`. The model keeps only the candle series of the first dataset, and assumes the chart exists. The `this.chart?` paths where it does not are not modelled.
- rxjs pacing (`delay`, `concatMap`), the `setInterval` clock, `Date`, `toLocaleTimeString` and `console.log`. The replay is a plain loop.
- The live-stream path of `ngOnInit`: `startStreamingQuotes`, `streamingQuotes$`, `JSON.parse`, the `'XBT/USD'` filter, and the subscriber that calls `paperTrade` without a first candle. Its parts (`MapStream`, `PaperTrade` with `None`, `RenderGraph`) are modelled; the transport is not.
- `QuotesService.getQuotes` (an HTTP request), `proxy/kraken.js` (a network pass-through) and `app.module.ts` (module wiring).
- IEEE-754 arithmetic, `NaN` and string parsing: prices are exact reals and `parseFloat` is a parameter.
- The levels computed from the first part at line 99 are never used. Their only effect is the throw on an empty history, which is the `candles != []` precondition of `Backtest`.
- `renderHistoricalPrices(candles)` at line 96 is undone by the dataset reset at lines 101-103. `Backtest` starts from the series `firstPart` directly.
- The component's `findEntryPoint` sorts the local `lines.supportLines` in place, which changes only the order in which lines are drawn. It is modelled as a function on values. The in-place sort is modelled for `findEntryPointLong`/`findEntryPointShort` (`FindEntryPointLong`, `FindEntryPointShort`).
- `BacktestStep` requires a non-empty series (`findSupportAndResistance` throws on an empty one). `Backtest`, `BacktestStep`, `PaperTrade` and `Reset` require the class invariant `Valid()`, which the constructor establishes and every method keeps; `UpdateChart` and `RenderGraph` require only its position half and re-establish the series bound.
- `findEntryPointShort` is never driven by the component, and no short-side position exists in the code. None is modelled beyond the selector.
- PaperTrading.NextBookKeepsInvariant: states that the two targets are defined while holding, not that they are truthy (non-zero). The truthy form would need positive entry prices and targets.
