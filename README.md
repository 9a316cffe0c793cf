# Superfluid liquidation P&L simulator — a verified model of its accounting core

The simulator estimates, minute by minute over a historical market series
(median gas price, three-minute median gas price, ether price), what a
liquidator and the protocol's gas tank earn from Superfluid stream
liquidations. For one run it does the following:

1. It draws stream openings and, for each opened stream, the time it
   closes: the sooner of an accidental liquidation and a self-close.
2. It drops closings past the horizon.
3. It reclassifies self-closes as deliberate liquidations when closing by
   hand would cost the user more than the margin they would lose.
4. It bins all events into per-minute counts and sizes.
5. It computes per-minute P&L for the liquidator and the gas tank. The
   liquidator either executes at once (naive mode) or, with a gas-price
   lookahead of `n` minutes, at the best minute of its window.
6. It reduces a run to metrics: maximum drawdowns, total profit and its
   split, and the shares of opened streams that closed.

The model keeps this deterministic accounting and takes every random draw
as an input sequence. Table columns are parallel sequences of equal
length, and float64 quantities are exact `real`s.

Modules (one file each):

- `SeqUtil` (`seq_util.dfy`): stand-ins for the numpy primitives used.
  - Boolean-mask selection and `~mask`.
  - `astype(int)` as truncation toward zero.
  - `argmax` as the first maximal index, both as a recursive definition
    and as a scanning method proved equal to it.
  - `sum` and `cumsum`.
- `Units` (`units.dfy`): constants, the parameter record, unit
  conversions, closing hazards, and the opening count and times.
- `Events` (`events.dfy`):
  - the horizon filter;
  - the naive outcome partition under competing exponential waiting times;
  - the rational self-close test;
  - reclassification of deliberate liquidations;
  - their composition.
- `SimTable` (`table.dfy`): the market series and the simulation table.
- `Binning` (`binning.dfy`): scatter-binning of event minutes into
  zero-initialised count and size arrays, and the assembly of the table.
- `ProfitLoss` (`profit_loss.dfy`):
  - the naive liquidator formula;
  - the windowed-argmax predictive liquidator, as a loop over rows;
  - the gas tank columns, as a loop over rows;
  - the mode dispatch.
- `Metrics` (`metrics.dfy`): maximum drawdown and the run metrics.

Choices the model makes where the code is easy to misread:

- **Mode boundary.** The code selects naive mode exactly when
  `gas_prediction_ability < 3/60`, that is when the lookahead holds fewer
  than three whole minutes, so a lookahead of exactly three minutes is
  predictive. `ProfitLoss.IsNaive` states the whole-minute form and
  `ProfitLoss.ModeBoundary` proves that 3/60 is predictive with a
  three-minute window.
- **Predictive P&L.** In predictive mode a row's P&L is the best profit of a
  single liquidation, whatever the row's liquidation count. Naive mode
  multiplies by the count. The model keeps this difference as written.
- **Division by zero in the metrics.** The metric ratios divide numpy floats,
  so a zero denominator yields `inf` or `nan` rather than an error. These
  ratios are `Option<real>`, with `None` for that case. Divisions of plain
  parameter values, which Python would reject, are preconditions. So are
  the scales of the exponential draws: `1 / prob_liquidated` and
  `1 / prob_self_closed` fail on a zero hazard and numpy refuses a negative
  scale, so `Events.ProbabilitiesDefined` asks for a positive lifetime and a
  positive accidental-liquidation rate.

## Model

| member | source | states |
|---|---|---|
| Units.GweiToEth | simulation_functions.py:24-25 | the ether amount times 10^9 is the gwei amount |
| Units.MonthToHour | simulation_functions.py:28-29 | the hourly amount times 720 (30 days of 24 hours) is the monthly amount |
| Units.MonthToMinute | simulation_functions.py:32-33 | the per-minute amount times 43200 is the monthly amount, and times 60 it is the hourly amount |
| Units.MinuteToMonth | simulation_functions.py:36-37 | months times 43200 is the number of minutes |
| Units.PercentToDec | simulation_functions.py:40-41 | the fraction times 100 is the percentage |
| Units.StreamRateToMargin | simulation_functions.py:44-45 | margin times 720 is rate times margin hours; it is non-negative for non-negative inputs |
| Units.StreamRateToMarginMonotone | simulation_functions.py:44-45 | a larger stream posts at least as much margin for the same hours |
| Units.OpeningCount | simulation_functions.py:55-56 | the opening count is the expected number of openings over the horizon, rounded down, and is non-negative for a non-negative rate |
| Units.NewStreamTimes | simulation_functions.py:52-57 | there are as many opening minutes as the expected opening count; each minute is the whole part of its draw, and a draw in [0, n) opens at a minute in [0, n) |
| Units.LiquidationProbabilities | simulation_functions.py:60-66 | the self-close hazard is the reciprocal of the lifetime in minutes; the liquidation hazard is the monthly percentage per minute; the liquidation share times the total hazard is the liquidation hazard, and for a positive lifetime and a non-negative percentage the share is in [0, 1) |
| Events.BelowHorizon | simulation_functions.py:71 | the mask is true exactly at the times before the horizon |
| Events.RemoveInvalidTimes | simulation_functions.py:69-71 | the output is no longer than the input, and for non-negative times every output is a minute in [0, n) |
| Events.RemoveInvalidTimesAppend | simulation_functions.py:69-71 | the filter distributes over concatenation, so it keeps the order of the events it keeps |
| Events.RemoveInvalidTimesSingle | simulation_functions.py:69-71 | a single event is kept, truncated, exactly when it is before the horizon |
| Events.RemoveInvalidTimesSplit | simulation_functions.py:83-86 | splitting events by any mask before the filter keeps the number of events before the horizon |
| Events.ShiftedTimes | simulation_functions.py:79-80 | each closing time is the opening time plus the smaller of the two waiting times |
| Events.ShiftedTimesNotEarlier | simulation_functions.py:79-80 | with non-negative times and draws, no stream closes before it opens, and every closing time is non-negative |
| Events.LiquidationMask | simulation_functions.py:81 | a sample is a liquidation exactly when its uniform draw is below the liquidation share |
| Events.ProbabilitiesPositive | simulation_functions.py:74-81 | when the draws are defined, both hazards are positive and the chance that a closing is a liquidation lies strictly between 0 and 1 |
| Events.SimulateNaiveLiquidationTimes | simulation_functions.py:74-86 | the liquidations are the shifted closings whose uniform draw is below the liquidation share, and the self-closes the rest, each filtered to the horizon in sample order; there are at most as many closings as opened streams |
| Events.NaiveOutcomePartition | simulation_functions.py:76-86 | before the filter the two outcomes partition the samples, by count and by multiset; after it, their counts add up to the number of closings before the horizon; on non-negative inputs every closing minute lies in the horizon |
| Events.DeliberateLiquidations | simulation_functions.py:95-100 | entry i holds exactly when self-closing at the stream's minute (gas times 300000 gas at that minute's ether price, plus the minimum savings) costs more than its margin |
| Events.DeliberateLiquidationThreshold | simulation_functions.py:97-100 | with positive margin hours, a stream is let go exactly when its size is below 720 times the self-closing cost over the margin hours; a tie stays a self-close |
| Events.SmallerStreamsDefectFirst | simulation_functions.py:97-100 | at the same minute, when a stream is let go, every smaller stream is let go too |
| Events.FilterLiquidationsBySize | simulation_functions.py:103-118 | times and sizes stay paired in length, no stream is gained or lost; the old liquidations, with their sizes, form the prefix of the new liquidation columns, followed by the self-closes that prefer liquidation in their original order; the remaining self-closes keep their original order |
| Events.ReclassificationConservesStreams | simulation_functions.py:112-116 | the (minute, size) pairs after reclassification are, as a multiset, exactly those before it |
| Events.ReclassificationKeepsWillingSelfCloses | simulation_functions.py:115-116 | every remaining self-close is one whose user does not prefer liquidation |
| Events.ReclassificationMovesWillingDefaulters | simulation_functions.py:112-113 | every stream appended to the liquidations is one whose user prefers liquidation |
| Events.ReclassificationMovesEveryDefaulter | simulation_functions.py:112-113 | every self-close whose user prefers liquidation reappears, with its size, among the appended liquidations |
| Events.SimulateStreamEnds | simulation_functions.py:121-124 | the result is the reclassification of the naive closings; times and sizes are paired; the closings number exactly those before the horizon, at most the openings; every closing minute is in the horizon; every remaining self-close is one whose user does not prefer liquidation, and every stream appended to the liquidations is one whose user does |
| Binning.FirstIndex | simulation_functions.py:139 | the position returned is the first occurrence of the minute |
| Binning.CountsSum | simulation_functions.py:137-142 | when every event is in the horizon, the per-minute counts add up to the number of events |
| Binning.DistinctTimesBinToIndicators | simulation_functions.py:139-142 | events on distinct minutes bin to counts of one at their minutes and zero elsewhere |
| Binning.BinTimesAndSizes | simulation_functions.py:137-150 | the count array has one entry per minute, equal to the number of events at that minute, and the counts add up to the number of events; when sizes are given, each minute holds the size of its first event, or 0 if it has none |
| Binning.RunAllSimulations | simulation_functions.py:153-170 | the table keeps the market series and adds the count columns of the openings, liquidations and self-closes and the first-event size columns; opening counts add up to the openings, and closing counts to the closings |
| SimTable.Table.Prefix | simulation_functions.py:211 | the first k rows of every column |
| ProfitLoss.IsNaive | simulation_functions.py:268 | naive mode is selected exactly when the lookahead holds fewer than three whole minutes |
| ProfitLoss.WindowMinutes | simulation_functions.py:188 | the window is the lookahead in minutes rounded toward zero: its whole part for a non-negative lookahead |
| ProfitLoss.ModeBoundary | simulation_functions.py:266-271 | predictive mode always has a window of at least three minutes, so at least one execution offset; a lookahead of exactly 3/60 hours is predictive with a three-minute window |
| ProfitLoss.NaiveLiquidatorPl | simulation_functions.py:178-183 | one entry per minute: the number liquidated times one liquidation's margin less its unrefunded gas cost at the minute's median gas price, so a minute without liquidations earns 0 |
| ProfitLoss.NaivePlSign | simulation_functions.py:180-182 | a minute with liquidations is profitable exactly when one liquidation's margin covers the liquidator's share of its gas |
| ProfitLoss.ExecutionProfits | simulation_functions.py:196-208 | row i scores exactly n - 2 offsets, every window index i + j is inside the series, and offset j scores the margin left after j minutes of flow less the unrefunded gas at minute i + j, priced at row i's ether price |
| ProfitLoss.BestOffset | simulation_functions.py:209 | the chosen offset scores at least as well as every offset in the window, and strictly better than every earlier one |
| ProfitLoss.PredictedPl | simulation_functions.py:213-218 | a row without a liquidation earns 0; a liquidation row earns the best score in its window, attained at some offset |
| ProfitLoss.PredictedGasPaid | simulation_functions.py:213-217 | a row without a liquidation pays 0; a liquidation row pays the gas price at the first best minute |
| ProfitLoss.BestExecution | simulation_functions.py:204-209 | the argmax over one row's window gives that row's predicted P&L and gas paid |
| ProfitLoss.LiquidatorPlWithPrediction | simulation_functions.py:185-223 | both output columns have len - n + 3 rows, and every row holds its predicted P&L and gas paid (0 without a liquidation) |
| ProfitLoss.PredictionNeverWorse | simulation_functions.py:204-209 | the predicted P&L of a liquidation row is at least the profit of executing at once; for a single liquidation on the same gas series, it is at least the naive P&L |
| ProfitLoss.FallingGasPicksLastMinute | simulation_functions.py:204-209 | when each minute's gas saving outweighs that minute's lost margin, the best offset is the last minute of the window |
| ProfitLoss.RefundGasColumn | simulation_functions.py:257 | the refund is priced from the median gas price in naive mode and from the gas price paid otherwise |
| ProfitLoss.CalculateGasTankPl | simulation_functions.py:255-263 | each row's refund is 300000 gas per liquidation at the mode's gas price times the refund rate; the tank's ether P&L is the opened streams' upfront fees less the refund, and its quote-currency P&L is that times the price |
| ProfitLoss.GasTankTotal | simulation_functions.py:260 | over the run, the tank's ether P&L is all upfront fees less all refunds |
| ProfitLoss.NaiveGasCostSplit | simulation_functions.py:180-182 | in naive mode, the liquidator's P&L less the tank's refund (at the ether price) is the captured margin less the whole gas bill |
| ProfitLoss.PredictiveGasCostSplit | simulation_functions.py:204-208 | for a single predictive liquidation, the same split holds at the chosen minute's gas price |
| ProfitLoss.CalculateAllPl | simulation_functions.py:266-273 | naive mode keeps every row and uses the naive formula; predictive mode keeps the first len - n + 3 rows with their predicted P&L and gas paid; the gas tank columns then follow from the mode's gas column |
| Metrics.PrefixMax | metrics_extraction.py:11 | the running maximum bounds every value up to that position |
| Metrics.PrefixMaxAttained | metrics_extraction.py:11 | the running maximum is one of the values up to that position |
| Metrics.Drawdowns | metrics_extraction.py:12 | no value sits above its running maximum |
| Metrics.DrawdownEnd | metrics_extraction.py:13 | the end index has the largest gap below the running maximum, and every earlier index a strictly smaller one |
| Metrics.DrawdownStart | metrics_extraction.py:14 | the start index is not after the end; when the end is past the first minute it is strictly earlier, holds the largest value before the end, and every earlier value is strictly smaller |
| Metrics.DrawdownStartIsPeak | metrics_extraction.py:13-14 | when the drawdown ends after the first minute, the start is strictly earlier, holds the running maximum at the end, and that maximum is above the end value |
| Metrics.CalculateMaxDrawdown | metrics_extraction.py:9-16 | the maximum drawdown is non-negative |
| Metrics.DrawdownIndices | metrics_extraction.py:13-16 | the result is the largest gap below the running maximum; it is positive when it ends after the first minute and 0 when it ends at it |
| Metrics.MaxDrawdownIsLargestFall | metrics_extraction.py:9-16 | the result bounds every fall from a value to any later value, and some such fall attains it |
| Metrics.NonDecreasingHasNoDrawdown | metrics_extraction.py:9-16 | a series that never falls has drawdown 0 |
| Metrics.MaxDrawdownExample | metrics_extraction.py:11-16 | for 0, 10, 2, 8, -5, 20 the drawdown ends at index 4, starts at index 1 and is 15 |
| Metrics.Ratio | metrics_extraction.py:28-35 | a numpy division is undefined exactly when the denominator is 0, and otherwise its value times the denominator is the numerator |
| Metrics.LiquidatorProfit | metrics_extraction.py:24 | the last entry of the liquidator's running P&L is its whole P&L |
| Metrics.TotalProfit | metrics_extraction.py:21-24 | the sum of the last entries of both running totals is all liquidator P&L plus all tank ether P&L at the mean price |
| Metrics.MetricsFrom | metrics_extraction.py:24-47 | total profit is as in TotalProfit; the liquidator's drawdown share is in [0, 1], undefined only when both drawdowns are 0; the liquidator's profit share times the total is the liquidator's total; the self-closed share of closings is in [0, 1]; the closed share times the openings is the closings; the margin taken is the sum of count times size per minute |
| Metrics.CalculateMetrics | metrics_extraction.py:19-47 | the two drawdowns are the maximum drawdowns of the liquidator's running P&L and of the tank's running P&L at the mean price, non-negative and bounding every fall of those series; the other metrics are as MetricsFrom gives them for these drawdowns |
| Metrics.MetricsDrawdownsAttained | metrics_extraction.py:26-27 | each reported drawdown is a fall that happened: some running total drops by exactly that much to a later one |
| Metrics.ClosedShareAtMostOne | metrics_extraction.py:35 | when no more streams closed than opened, the closed share is at most 1 |
| Metrics.ClosedAtMostOpened | metrics_extraction.py:31-35 | over a table binned from one simulated run, no more streams close than open, so the closed share is at most 1 |
| SeqUtil.Trunc | simulation_functions.py:69-71 | truncation toward zero: the integer lies within one of the value, on the side of zero |
| SeqUtil.Select | simulation_functions.py:83-84 | a masked selection is no longer than its input |
| SeqUtil.SelectPartition | simulation_functions.py:83-84 | a mask and its negation split a column into parts whose sizes and multisets add up to the column's |
| SeqUtil.SelectZip | simulation_functions.py:112-116 | masking two parallel columns with one mask keeps their rows paired |
| SeqUtil.FirstArgmax | simulation_functions.py:209 | the index attains the maximum, and every earlier entry is strictly smaller |
| SeqUtil.FirstArgmaxIncreasing | simulation_functions.py:209 | on a strictly increasing sequence the argmax is the last index |
| SeqUtil.ArgmaxIndex | simulation_functions.py:209 | the left-to-right scan computes the first argmax |
| SeqUtil.CumSumIsPrefixSum | metrics_extraction.py:21-22 | entry i of the running total is the sum of the first i + 1 values |
| SeqUtil.CumSumLast | metrics_extraction.py:24 | the last entry of the running total is the total |

## Left out

- Random generation: the uniform opening draws, the two exponential waiting times, the uniform outcome draw and the gamma-distributed stream sizes (simulation_functions.py:57, 79-81, 89-92) are inputs. `sample_stream_sizes` is not modelled.
- `simulate_streams` and `simulate_and_calculate_pl` (simulation_functions.py:127-134, 281-284) only chain the modelled steps with random draws. `Binning.RunAllSimulations` takes their outputs as inputs.
- float64 rounding and overflow: all quantities are exact reals. `astype(int)` is truncation of an exact real, and `int(gas_prediction_ability * 60)` is truncation of the exact product.
- pandas in-place column assignment and copy-on-slice semantics: columns are sequences, and a method's result is a new table value.
- The commented-out unoptimised predictive variant (simulation_functions.py:226-252).
- The instantaneous `gas_price` column, which the core never reads.
- Callers of `calculate_liquidator_pl_with_prediction` must keep the window inside the series. Outside `3 <= n <= len + 3` the call raises. For a window shorter than three minutes, or longer than `len + 3` but below `2·len + 3` minutes, the boolean index at simulation_functions.py:197 has the wrong length. From `2·len + 3` minutes on, `np.zeros` gets a negative size. `ProfitLoss.CalculateAllPl` therefore requires at most `len + 3` minutes, and `ProfitLoss.ModeBoundary` shows that the other bound always holds in predictive mode.
- `Metrics.CalculateMetrics` requires a non-empty table: indexing the last running total of an empty table fails.
- `Metrics.CalculateMaxDrawdown`: its contract states only non-negativity. Its characterisation as the largest fall from a value to a later one is stated by `Metrics.MaxDrawdownIsLargestFall` and `Metrics.DrawdownIndices`.
- `Metrics.PrefixMax`: its contract states only the upper bound. That the bound is attained is `Metrics.PrefixMaxAttained`.
- `Metrics.Ratio` with a zero denominator is `None`. numpy distinguishes `inf` from `nan` there, and the model does not.
- The helper modules `run.py` (multiprocessing, a root-finding search over the refund rate, CSV output), `graphing_utils.py`, `data_cleaning_utils.py` and `simulation_parameters.py` (random parameter sampling) are not part of this model. Parameters are an input record.
