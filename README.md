# Pairs trading: a verified model of the position logic

This project models the decision core of a small statistical-arbitrage
(pairs-trading) system in Dafny and proves properties of it. The system
screens a table of price series for cointegrated pairs, picks the pair with the
smallest p-value, turns the z-score of its spread into positions on the two
legs, backtests them and scores them, and runs the same rule live against a
trading bot.

The model follows the program's four parts, in four files; a fifth file,
`outcomes.dfy`, holds the shared types and is not one of the program's parts:

- `cointegration.dfy` (module `Cointegration`): `cointegration_test`. It fills
  the upper triangle of the n-by-n score and p-value matrices in nested loops
  and collects the candidate pairs with p < 0.05. The verified method is
  specified by the pure function `Test`. The module also has `find_best_pair`:
  the first minimal upper-triangular p-value in row-major order, the spread of
  the two columns and its rolling z-score.
- `backtest.dfy` (module `Backtest`): `backtest`. It covers the position loop
  (exit at the mean first, then entry beyond the threshold), percentage-change
  returns, the strategy return earned by the previous row's positions, and the
  compounded equity. The module also has the exact parts of
  `performance_metrics`: total return, the Sharpe ratio with its zero guard,
  and the drawdown.
- `live.dfy` (module `LiveStrategy`) covers four things:
  - the live loop of `main.py`, where each pair is an object whose four
    position flags one tick updates in place while it emits the webhook
    intents;
  - the z-score of the last `window` aligned candles;
  - the three configured pairs;
  - the ranking of the candidate pairs by p-value.
- `optimize.dfy` (module `Optimize`): the objective of the hyper-parameter
  search, meaning the sampling box and the -999 penalty for NaN, +inf or
  zero Sharpe ratios (-inf passes through).
- `outcomes.dfy` (module `Outcomes`): the shared `Option`, `Result` and error
  types.

Three relations tie the parts together:

- the batch loop is a fold of one `Step` function;
- one live tick is `Step` under the flag encoding (long S1 = +1, short S1 = -1,
  S2 opposite), and a whole stream of ticks is the batch fold;
- the live z-score at the last candle is the batch's rolling z-score at that
  candle.

External computations are function-typed parameters:

- the statistical test `coint` is an oracle returning (score, p-value);
- the standard deviation, `**` and `sqrt` are uninterpreted functions.

A missing (NaN) entry of a series is `None`.

## Model

| member | source | states |
|---|---|---|
| Cointegration.Test | cointegration.py:26-41 | the value of the test: it keeps the table and both matrices are n by n over its n tickers |
| Cointegration.CointegrationTest | cointegration.py:26-41 | the matrices and pair list built by the nested loops are exactly `Test(df, coint)` |
| Cointegration.TestRows | cointegration.py:33-39 | after the outer loop every upper cell is written and the pair list is the candidates over all upper cells |
| Cointegration.TestRow | cointegration.py:34-39 | one row of the inner loop writes the row's cells and extends the pair list to the cells before the next row |
| Cointegration.TestCells | cointegration.py:34-39 | the inner loop leaves the written prefix of the row filled from the oracle and the pairs of that prefix |
| Cointegration.TestCell | cointegration.py:35-39 | one cell is written from the oracle and its pair is appended exactly when its p-value is below 0.05 |
| Cointegration.Snapshot | cointegration.py:41 | the returned matrix has the array's shape and entries |
| Cointegration.FilledMatrices | cointegration.py:29-37 | once every upper cell is written, the arrays equal the reference score and p-value matrices |
| Cointegration.FilledRowStart | cointegration.py:34 | starting a row at column i+1 keeps the filled invariant |
| Cointegration.FilledRowEnd | cointegration.py:33-34 | finishing a row's last column is the same state as starting the next row |
| Cointegration.FilledCell | cointegration.py:36-37 | writing cell (i, j) advances the filled invariant by one cell |
| Cointegration.MatrixEntries | cointegration.py:29-37 | both matrices are n by n; cells i<j hold the oracle's score and p-value for columns i and j; the other cells keep 0 and 1 |
| Cointegration.TestEntries | cointegration.py:29-39 | the test result has the oracle's entries above the diagonal and 0 / 1 elsewhere, and lists the candidates over the upper cells |
| Cointegration.RowCellsAt | cointegration.py:34 | row i of the inner loop visits (i, i+1) .. (i, j-1) in order |
| Cointegration.CellsBeforeShape | cointegration.py:33-34 | the cells of the rows before i are upper cells of those rows, in row-major order |
| Cointegration.CellsBeforePrefix | cointegration.py:33-34 | the cells visited before row i are a prefix of those visited before any later row |
| Cointegration.UpperCellsSpec | cointegration.py:33-34 | the loop visits exactly the cells i<j<n, each once, in row-major order; none when n < 2 |
| Cointegration.UpperCellsMembers | cointegration.py:33-34 | a cell is visited if and only if it lies strictly above the diagonal |
| Cointegration.PairsSoFarCells | cointegration.py:34-39 | the pairs collected up to (i, j) are the candidates over the cells visited so far |
| Cointegration.CandidatePairsSnoc | cointegration.py:38-39 | visiting one more cell appends its pair exactly when its p-value is significant |
| Cointegration.CandidatesExact | cointegration.py:31-39 | the candidate cells are exactly the significant visited cells, in visiting order, and the k-th pair names the k-th candidate cell |
| Cointegration.CandidatePairsExact | cointegration.py:31-39 | `pairs` lists (tickers[i], tickers[j]) for exactly the cells i<j with p < 0.05, in row-major order; with distinct tickers it has no duplicates |
| Cointegration.UpperValues | cointegration.py:47-50 | the masked p-values have one entry per upper cell |
| Cointegration.ArgMin | cointegration.py:52 | the index of a minimum, strictly below every earlier entry (first occurrence) |
| Cointegration.BestCell | cointegration.py:47-54 | fails on fewer than two columns; otherwise an upper cell whose p-value is at most every upper p-value and strictly below that of every earlier cell |
| Cointegration.BestCellIsMinimal | cointegration.py:52-54 | the argmin entry bounds every upper p-value and beats every earlier cell |
| Cointegration.BestCellBeats | cointegration.py:52-54 | the argmin entry against one upper cell |
| Cointegration.Spread | cointegration.py:60 | the spread has the columns' length |
| Cointegration.SpreadRecoversFirstLeg | cointegration.py:60 | spread[t] + S2[t] = S1[t] at every index |
| Cointegration.Window | cointegration.py:61 | the rolling window at t has w entries and ends at spread[t] |
| Cointegration.ZAt | cointegration.py:61 | missing before a full window or at zero deviation; otherwise z times the deviation is spread[t] minus the window mean |
| Cointegration.RollingZ | cointegration.py:61-62 | one z-score slot per index of the spread, each the windowed z-score |
| Cointegration.FindBestPair | cointegration.py:44-71 | fails with the empty-triangle error exactly when there is no best cell; otherwise the names and data of its columns, their spread and its rolling z-score |
| Cointegration.BestPairAligned | cointegration.py:56-62 | the four series of the selected pair share the columns' length |
| Cointegration.SumShift | cointegration.py:61 | a shifted window sums to the sum plus its length times the shift |
| Cointegration.MeanShift | cointegration.py:61 | a shifted window's mean is the mean plus the shift |
| Cointegration.ZAtShift | cointegration.py:61 | the z-score at t does not change when a constant is added to the spread |
| Cointegration.ZScoreShiftInvariant | cointegration.py:61-62 | the rolling z-score does not change when a constant is added to the spread |
| Backtest.Step | backtest.py:26-46 | z above thr gives short spread; else z below -thr gives long spread; otherwise flat if the exit fired, else the previous position |
| Backtest.StepLegal | backtest.py:28-46 | a step keeps each leg in {-1,0,1} with S2 = -S1 |
| Backtest.StepSide | backtest.py:28-46 | with thr >= 0 a step never ends short with z <= 0 or long with z >= 0 |
| Backtest.RunLegal | backtest.py:23-49 | a fold of steps from a legal position stays legal |
| Backtest.Positions | backtest.py:16-49 | one recorded position per z-score |
| Backtest.PositionsLegal | backtest.py:16-49 | the start (0,0) and every recorded position are legal |
| Backtest.PositionLegal | backtest.py:23-49 | the position recorded at i is legal |
| Backtest.PositionSide | backtest.py:23-49 | with thr >= 0, a recorded short spread sits at z > 0 and a long spread at z < 0 |
| Backtest.PositionFirst | backtest.py:18-49 | the first recorded position is one step from flat |
| Backtest.PositionAt | backtest.py:23-49 | each later recorded position is one step from the previous one |
| Backtest.PositionsStep | backtest.py:23-49 | the recorded positions follow the loop's recurrence and the last is the fold over all z-scores |
| Backtest.NoLookAhead | backtest.py:23-49 | the positions of a prefix of the stream are the prefix of the positions |
| Backtest.ExampleTrace | backtest.py:23-49 | z = [0.5, 2.0, 0.3, -0.1, -2.5, 0.0] with thr 1.5 gives S1 = [0,-1,-1,0,1,0] and S2 its negation |
| Backtest.PositionLoop | backtest.py:16-52 | the loop fills pos_s1 and pos_s2 of length len(df) with the legs of the recorded positions |
| Backtest.AlignedRows | backtest.py:7-14 | dropping the rows with a missing entry never leaves more rows than there were |
| Backtest.AlignedRowsAll | backtest.py:7-14 | no row is dropped exactly when every z-score is defined |
| Backtest.AlignedRowsSpec | backtest.py:7-14 | the frame's rows carry their own index's data, in increasing index order, and every index whose z-score is defined has its row, after the rows of the defined z-scores before it |
| Backtest.AlignedRowsData | backtest.py:7-14 | each row holds the S1, S2, spread and z-score of its index |
| Backtest.AlignedRowsOrdered | backtest.py:7-14 | the rows keep the index order |
| Backtest.AlignedRowsComplete | backtest.py:7-14 | no index with a defined z-score is dropped: its row sits at the position that counts the defined z-scores before it |
| Backtest.AlignedRowsHas | backtest.py:7-14 | an index with a defined z-score has its row at that position |
| Backtest.PctChange | backtest.py:55-56 | missing at row 0; afterwards the previous price grown by the change is the current price |
| Backtest.Change | backtest.py:55-56 | prev * (1 + change) = cur |
| Backtest.RowsPriced | backtest.py:55-56 | nonzero input prices give nonzero frame prices |
| Backtest.StrategyReturns | backtest.py:58-62 | missing at row 0; at t the previous row's positions times the legs' returns at t |
| Backtest.Earned | backtest.py:59-62 | over one candle a long spread earns r1 - r2, a short spread r2 - r1, and a flat position nothing |
| Backtest.Equity | backtest.py:63 | one equity value per row |
| Backtest.EquityStep | backtest.py:63 | equity starts at 1 grown by the first (zero-filled) return and compounds row by row |
| Backtest.EquityFlat | backtest.py:63 | all-zero returns keep the equity at 1 |
| Backtest.BacktestOf | backtest.py:6-65 | the frame has one entry per row in every column, equity[0] = 1, and its positions are the loop's over the frame's z-scores |
| Backtest.BacktestColumns | backtest.py:51-63 | each frame column is the stated function of the earlier ones |
| Backtest.BacktestReturns | backtest.py:55-63 | at row t > 0 the returns are the changes from t-1, the strategy return is the legal t-1 positions' earnings, and the equity compounds it |
| Backtest.RunBacktest | backtest.py:6-65 | the imperative backtest returns exactly `BacktestOf` |
| Backtest.CumMax | backtest.py:86 | one running maximum per value; `CumMaxIsRunningMax` gives its value |
| Backtest.CumMaxIsRunningMax | backtest.py:86 | the running maximum at t is at least every value up to t and is one of them, so it is their maximum |
| Backtest.CumMaxBounds | backtest.py:86 | the running maximum starts at the first value and dominates the first and the current value |
| Backtest.CumMaxAtMost | backtest.py:86 | the running maximum stays below any bound on all values |
| Backtest.Drawdowns | backtest.py:86-87 | drawdown[0] = 0, every drawdown is at most 0, and each is the `Drawdown` of the equity below a positive running maximum that is at least the equity, so the running maximum grown by it gives back the equity |
| Backtest.Drawdown | backtest.py:87 | the relative fall d below the maximum m: m * (1 + d) = e, at most 0, and 0 at the maximum |
| Backtest.MinOf | backtest.py:88 | the minimum is at most every entry and is one of them |
| Backtest.MaxDrawdown | backtest.py:86-88 | the worst drawdown is at most 0, at most every drawdown, and attained |
| Backtest.Volatility | backtest.py:79-80 | zero deviation of the returns gives zero volatility |
| Backtest.AnnualReturn | backtest.py:75-76 | zero over an empty span; otherwise one plus the annual return is `(1 + total) ** (periods per year / periods)` |
| Backtest.Sharpe | backtest.py:83 | zero at zero volatility, otherwise Sharpe times volatility is the annual return |
| Backtest.PerformanceMetrics | backtest.py:68-99 | fails exactly on an empty frame; total return = last equity - 1; worst drawdown at most 0 and the worst of the drawdowns; Sharpe 0 at zero volatility (all as percentages but the Sharpe) |
| Backtest.PerformanceMetricsRates | backtest.py:72-83 | on a nonempty frame: the annualised return is the compounded annual return over the frame's rows, the volatility is the annualised one, and at nonzero volatility Sharpe times volatility is the annual return |
| Backtest.DrawdownsFlat | backtest.py:86-88 | a flat curve has no drawdown |
| Backtest.ZeroReturnsMetrics | backtest.py:63-88 | all-zero returns give total return 0, drawdown 0, and Sharpe 0 when their deviation is 0 |
| Backtest.ZeroReturnsTotal | backtest.py:72 | a final equity of 1 gives total return 0 |
| Backtest.ZeroReturnsDrawdown | backtest.py:86-88 | a flat equity curve gives drawdown 0 |
| Backtest.ZeroReturnsSharpe | backtest.py:79-83 | all-zero returns with zero deviation give Sharpe 0 |
| LiveStrategy.Encode | main.py:180-264 | the flags as a batch position: always legal, flat exactly when S1 holds neither side |
| LiveStrategy.PairConfig.constructor | main.py:85-120 | a pair starts with its symbols, window and threshold and every flag cleared |
| LiveStrategy.ConfiguredPairs | main.py:85-121 | the three watched pairs with their bot symbols, windows and thresholds, all flags cleared, thresholds positive |
| LiveStrategy.PairConfig.Tick | main.py:178-264 | the flags, the intents sent and `action_taken` after the decision block are those of `TickSpec` from the old flags |
| LiveStrategy.PairConfig.Round | main.py:161-264 | no candle: the window error with the flags untouched; otherwise the tick on the window's z-score |
| LiveStrategy.TickNaN | main.py:180-264 | a NaN z-score changes no flag, sends nothing and takes no action |
| LiveStrategy.TickConsistent | main.py:180-264 | with thr >= 0 a tick keeps S1 long = S2 short, S1 short = S2 long, and never both sides of S1 |
| LiveStrategy.TickIsStep | main.py:180-264 | with consistent flags and thr >= 0, one tick is one batch `Step` under the encoding |
| LiveStrategy.TickSpec | main.py:180-264 | one tick sends 0 or 2 closes, then 0 or 2 opens after them, and takes an action exactly when something was sent |
| LiveStrategy.TickIntentOrder | main.py:185-264 | intents alternate S1, S2 and all closes come before all opens |
| LiveStrategy.ExitPhase | main.py:180-217 | the exit checks send nothing or one close for S1 and then one for S2, and act exactly when they send |
| LiveStrategy.EntryPhase | main.py:219-264 | the entry checks keep what was sent and append nothing or one open for S1 and then one for S2, and act when they append |
| LiveStrategy.TickIntentDeals | main.py:185-264 | a close targets the long deal exactly on the long exit; an open targets the short deal exactly on the guarded short entry; each pair of intents uses both deals |
| LiveStrategy.TickReverses | main.py:180-264 | a long spread with z above a non-negative threshold closes both legs and opens the short spread in the same tick |
| LiveStrategy.NegativeThresholdBreaksFlags | main.py:219-264 | with a negative threshold one tick can leave S1 long and short at once |
| LiveStrategy.LiveRun | main.py:123-264 | successive rounds of one pair: with thr >= 0, consistent flags stay consistent |
| LiveStrategy.LiveAgreesWithBatch | main.py:123-264 | consecutive ticks of a pair keep the flags consistent and encode the batch fold over the same z-scores |
| LiveStrategy.LiveFromStart | main.py:85-264 | from cleared flags the live ticks encode the batch positions from flat |
| LiveStrategy.LastRows | main.py:161-162 | `iloc[-window:]` is the last `window` entries (all when there are fewer) |
| LiveStrategy.LiveZScore | main.py:161-171 | no candle is an error; otherwise NaN at zero deviation, else z times the deviation is the last S1 minus the last S2 minus the window mean |
| LiveStrategy.LiveZMatchesRolling | main.py:161-171 | with at least `window` candles the live z-score is the rolling z-score at the last candle |
| LiveStrategy.IndexOf | main.py:48 | `list.index`: the first position holding the name |
| LiveStrategy.WithPValues | main.py:47-50 | one entry per candidate pair carrying its two names |
| LiveStrategy.WithPValuesOfTest | main.py:47-50 | with distinct tickers the p-value attached to the k-th pair is that of its cell, below 0.05 |
| LiveStrategy.DistinctIndex | main.py:48 | with distinct names, the name at position i is found at i |
| LiveStrategy.InsertByP | main.py:51 | inserting one entry gives exactly the list plus that entry |
| LiveStrategy.InsertByPBound | main.py:51 | inserting keeps a common lower bound on the p-values |
| LiveStrategy.InsertByPSorted | main.py:51 | inserting into a sorted list keeps it sorted |
| LiveStrategy.SortByP | main.py:51 | the ranking is a permutation of the pairs in non-decreasing p-value order |
| LiveStrategy.InsertByPStable | main.py:51 | inserting places the entry after its ties |
| LiveStrategy.SortByPStable | main.py:51 | the ranking keeps the list order among equal p-values |
| Optimize.Penalize | optimize.py:23-26 | NaN, +inf and exactly 0 give -999; everything else, -inf included, is returned unchanged |
| Optimize.PenalizeTotal | optimize.py:23-26 | a returned score is never NaN, +inf or 0, and is either -999 or the ratio |
| Optimize.PenalizeIdempotent | optimize.py:23-26 | guarding a guarded score changes nothing |
| Optimize.Objective | optimize.py:12-26 | a trial fails only with the empty-triangle or the empty-backtest error; a score it returns is finite and nonzero |
| Optimize.SelectedPriced | optimize.py:16-18 | the selected pair is aligned and inherits the table's nonzero prices |
| Optimize.ObjectiveOutcome | optimize.py:12-26 | a trial fails with the selection or the metrics error; otherwise it scores the backtest's Sharpe, or -999 when it is 0 (in particular at zero volatility) |
| Optimize.BoxPositionsSided | optimize.py:13-18 | every threshold in the box is positive, so the backtest's positions are legal and on the side of the mean they bet on |

Helpers that carry no property of their own have no row: `Backtest.ZColumn`,
`Backtest.S1Column`, `Backtest.S2Column` and `Backtest.ZeroFilled` (column
projections), `Backtest.Reciprocal` (arithmetic), `Cointegration.Shift` (the
offset series behind the shift-invariance lemmas), and `LiveStrategy.WithP`,
`LiveStrategy.WithPAppend` and `LiveStrategy.WithPNone` (the per-p-value filter
behind the stability lemmas). `Backtest.Run`, the fold of `Step`, is described
by `RunLegal`, `PositionsStep` and `LiveAgreesWithBatch`.

## Left out

- Network and clock: fetching candles, the exchange symbols used only for
  fetching, the time range of window+2 candles, sleeping until the next
  quarter hour, and the HTTP webhook. Each send is an emitted `Intent`, since
  `send_webhook` swallows its errors. The loop over rounds is the sequence of
  z-scores handed to `LiveRun`. Candles are taken as already aligned by the
  inner join, sorted by time.
- Pandas index alignment. The live loop's `pd.concat(..., join="inner")` is
  not modelled: the live closes are taken as already aligned, so
  `PairConfig.Round` receives two series of equal length. Only the `dropna` of
  `backtest` is modelled, by `AlignedRows` over four equal-length series, with
  the z-score's leading NaNs kept in place rather than dropped first. This
  gives the same rows.
- Floating point. Prices and returns are exact reals. `coint`, the standard
  deviation, `**` and `sqrt` are uninterpreted parameters, so these are not
  modelled:
  - the NaN that pandas' ddof=1 deviation gives on a single row;
  - an infinite z-score from a zero deviation (it is treated as NaN);
  - the infinite return after a zero price (prices are required nonzero);
  - the NaN that `(1 + total_return) ** (1 / years)` gives when the final
    equity is negative, whose Sharpe ratio the objective penalizes to -999; the
    uninterpreted `pow` cannot produce it.
- NaN and infinity appear only in `Optimize.Float`. The Sharpe ratio of the
  real-valued metrics is always finite, so within `Objective` only the zero
  case of the penalty can fire.
- `Backtest.PerformanceMetrics`: the annualised return and volatility are
  stated through `AnnualReturn` and `Volatility` (in
  `PerformanceMetricsRates`), so their values rest on the
  uninterpreted `pow`, deviation and `sqrt`. Minute periods are a parameter
  (`MinutesPerYear` is the source's value), although the data are 15-minute
  bars.
- `LiveStrategy.WithPValuesOfTest` needs distinct tickers. With repeated
  column names, `list.index` finds the first column of that name, and the
  attached p-value can belong to another cell.
- The Optuna study, the number of trials and the best-parameter report: only
  the objective is modelled.
- Printing, the CSV and PNG exports, plotting, and the data-download scripts.

## Notes

- `ExampleTrace`: from flat with threshold 1.5, z = [0.5, 2.0, 0.3, -0.1,
  -2.5, 0.0] gives S1 = [0, -1, -1, 0, 1, 0], S2 its negation.
- The live flags match the batch positions only for a non-negative threshold.
  `NegativeThresholdBreaksFlags` shows why: with thr = -1 and z = -0.5, a
  long spread stays open and the short entry opens as well. Every configured
  and every searched threshold is positive.
