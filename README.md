# Backtest metrics and trade-log normalisation, modelled in Dafny

This project models the analytical core of the quixote toolkit's `sancho`
package:

- **The metrics engine.** It takes a backtest's list of closed operations
  and produces the table of performance metrics. Metrics include:
  - profit factor, expectancy, two drawdown measures and stagnation periods;
  - exposures, winning and losing strikes, lots and time in market;
  - win and loss percentages, closing days, best and worst operation;
  - averages, backtest time, gross profit and loss, and recovery factor.

  The engine then checks that table against validity criteria, such as
  "RF at least 8.9" or "at least 250 operations". Two implementations exist:
  - the `BtMetrics` class (`sancho/src/parser/btmetrics.py`), whose
    constructor fills the table once;
  - the free functions of `sancho/src/Backtest/metrics.py`.
- **The trade-log normalisation.** It turns a Genbox HTML report or a
  MetaTrader 4 order history into a uniform operation log with 13 columns:
  - open and close time, stop loss and take profit, duration;
  - order type, volume, symbol, open and close price;
  - pips, profit and running balance.

  Pips are computed from the number of decimal places of the quoted price
  and the buy or sell direction. The file name gives the backtest's
  period (in sample, out of sample, or both) and its name.

## Module layout

Dafny modules follow the source files:

| module | file | models |
|---|---|---|
| `Wrappers` | wrappers.dfy | `Option`, `Result`, and the Python exception kinds an operation can end in |
| `Series` | series.dfy | column arithmetic on `seq<real>`: sums, filters, cumulative sums, first extreme, first index, distinct values |
| `Text` | text.dfy | `str.lower`/`upper` on the ASCII letters, `str.split` on one character, `str.join` |
| `Trades` | trades.dfy | the operation record (one row of the log) and the running balance |
| `Metrics` | metrics.dfy | every metric the two implementations share |
| `Strikes` | strikes.dfy | streak detection, the `Counter` tallies and the strike averages |
| `BacktestMetrics` | backtest_metrics.dfy | the free functions that differ from the class: `calculate_pf`, `pct_losser`, the rounded averages |
| `BtMetrics` | btmetrics.dfy | the metric table, the criteria check, and the `BtMetrics` class |
| `BtParser` | btparser.dfy | the enumerations, their text forms, and the pip computation shared by every parser |
| `Genbox` | genbox.dfy | `parse_html` of a Genbox report, the name and period from the file name, symbol and order type |
| `Mt4` | mt4.dfy | `classify_bts`, the MT4 symbol, `format_mt4_ops` and the forex short names |

Modelling choices:

- **Times** are whole seconds (`int`). A `timedelta` is a difference of two
  times.
- **Prices, pips and profits** are `real`, so there is no float rounding.
- **Price text.** The text of a price, as `str(price)` would print it, is
  a parameter `showReal`.
- **Parsing cells.** Turning a report cell into a time or a number is done
  by the parameters `parseTime` and `parseReal`. Each returns `None` where
  pandas would raise ValueError.
- **Dates.** The calendar date of a close time comes from a parameter
  `dateOf`.
- **HTML tables.** The tables `pd.read_html` returns are the input
  `RawTable`: rows of optional cells, with `None` for NaN.
- **Float-based metrics.** SQN, Sharpe and K-ratio are supplied by the
  parameter `outside`.
- **Exceptions.** Every exception the source can raise on a given input is
  an `Err` of the matching kind. Examples: `max([])` is ValueError, `iloc[0]`
  of an empty frame is IndexError, `Decimal('inf').quantize` is
  InvalidOperation.

Four behaviours of the code are easy to misread:

- **Strike lengths.** The counter starts at 0 for the first streak and is
  never flushed at the end of the loop, so the first streak is recorded
  one short and the last streak is not recorded at all. See
  `Strikes.StrikesExample` and `Strikes.RecordedTotal`.
- **Recovery factor with no drawdown.** `calculate_rf` divides by a zero
  `Decimal` and raises: DivisionByZero, or InvalidOperation for 0/0. See
  `Metrics.RecoveryFactor`.
- **Average win and loss in the class.** `calculate_avg_win` and
  `calculate_avg_loss` call `.item()` on the pandas mean. The mean of an
  empty selection is the plain float `nan`, which has no `item`, so the
  constructor raises AttributeError at 'Avg Win' on a log with no value at
  least 0. See `BtMetrics.AvgWinItem` and `BtMetrics.LossesOnlyRaiseAtAvgWin`.
  The free functions of `sancho/src/Backtest/metrics.py` have no `.item()`;
  there `int` of the NaN mean raises ValueError.
- **Time in market.** `'Time in Market'` is computed into the table but is
  not in `ALL_METRICS`, so asking for it raises IndexError. See
  `BtMetrics.TimeInMarketUnknown`.

The metric table (`BtMetrics.Table`) is the constructor's dictionary as
written: its profit factor raises on a log without a losing value, and its
average losing strike is the zipped one. The evidently intended values are
the corrected members listed under "## Findings", with their properties
proved beside them.

## Model

| member | source | states |
|---|---|---|
| Trades.WithBalanceFollows | sancho/src/parser/btgenbox.py:215-216 | the balance column is the deposit plus the cumulative profit up to and including each row; consistent durations (close time minus open time) stay consistent; every other field is unchanged; `sancho/src/parser/bt.py:178` computes the same |
| Text.Split | sancho/src/parser/btparser.py:140 | `str.split` on one character yields at least one piece, and no piece contains the separator |
| Text.JoinSplit | sancho/src/parser/btgenbox.py:99 | joining the pieces of a split with the same separator gives back the original text |
| Series.ArgMax | sancho/src/Backtest/metrics.py:194 | `idxmax`: the index of the first element that is at least every element |
| Series.ArgMin | sancho/src/Backtest/metrics.py:205 | `idxmin`: the index of the first element that is at most every element |
| Series.IndexOf | sancho/src/parser/btmetrics.py:483 | `list.index`: the first position holding the value |
| Series.Distinct | sancho/src/parser/btgenbox.py:136 | `unique()`: the same members as the input, with no repeats |
| Metrics.PositiveSumNonNegative | sancho/src/Backtest/metrics.py:13 | the sum of the winning values is never negative |
| Metrics.NegativeSumSign | sancho/src/Backtest/metrics.py:14 | the sum of the losing values is at most 0, and strictly negative exactly when some value is negative |
| Metrics.ProfitFactorOf | sancho/src/Backtest/metrics.py:11-15 | the profit factor is infinite exactly when no value is negative; otherwise it is a non-negative ratio that, times the total loss, gives the total profit; `sancho/src/parser/btmetrics.py:435-438` computes the same |
| Metrics.ProfitFactorScale | sancho/src/parser/btmetrics.py:435-438 | scaling every value by a positive factor leaves the profit factor unchanged, so pips and money agree whenever profit is proportional to pips |
| Metrics.RunningMax | sancho/src/parser/btmetrics.py:452 | `cummax`: the value at i is attained at or before i and bounds everything up to i |
| Metrics.Drawdown | sancho/src/parser/btmetrics.py:441-452 | one drawdown per operation; never positive; 0 at the first operation; `sancho/src/Backtest/metrics.py:18-20` computes the same |
| Metrics.DrawdownZeroAtHigh | sancho/src/parser/btmetrics.py:451-452 | the drawdown is 0 exactly at the operations where the cumulative result reaches a new high |
| Metrics.Minimum | sancho/src/parser/btmetrics.py:590-592 | `min` of the volumes: a member of the list at most every element; absent exactly for an empty list; `sancho/src/Backtest/metrics.py:108-109` computes the same |
| Metrics.Maximum | sancho/src/parser/btmetrics.py:586-588 | `max` of the volumes: a member at least every element; absent exactly for an empty list; `sancho/src/Backtest/metrics.py:104-105` computes the same |
| Metrics.MaxDrawdown | sancho/src/parser/btmetrics.py:454-468 | the 'DD' metric (the deepest drawdown) is defined exactly for a non-empty log and never positive |
| Metrics.Dd2 | sancho/src/parser/btmetrics.py:491-511 | the loop computes the reference series `Dd2Spec`, one value per operation; `sancho/src/Backtest/metrics.py:33-43` computes the same |
| Metrics.Dd2Step | sancho/src/parser/btmetrics.py:505-509 | each step subtracts the value from the running figure, and a losing operation resets it to 0 |
| Metrics.Dd2ClosedForm | sancho/src/parser/btmetrics.py:505-509 | after the last losing operation before i, the value at i is minus the sum of the values since then |
| Metrics.Dd2NonPositive | sancho/src/parser/btmetrics.py:491-511 | every value of dd2 is at most 0 |
| Metrics.StagnationMoments | sancho/src/parser/btmetrics.py:483-484 | one close time for each non-zero drawdown |
| Metrics.Diffs | sancho/src/parser/btmetrics.py:486-489 | `diff()` without its leading NaT: one fewer element, and each one is the step from one moment to the next |
| Metrics.StagnationPeriods | sancho/src/parser/btmetrics.py:470-489 | one stagnation period fewer than there are non-zero drawdowns, and none when there are none; `sancho/src/Backtest/metrics.py:23-30` computes the same |
| Metrics.StagnationFirstOccurrence | sancho/src/parser/btmetrics.py:483-484 | the moment recorded for the k-th non-zero drawdown is the close time of the first operation with that drawdown value, which `dd.index(d)` finds |
| Metrics.WithinIndices | sancho/src/parser/btmetrics.py:535-536 | the operations selected for an operation are exactly those that open no earlier and close no later, listed in ascending order |
| Metrics.Exposures | sancho/src/parser/btmetrics.py:525-539 | for each operation, the number of operations contained in its interval and the sum of their volumes; `sancho/src/Backtest/metrics.py:50-57` computes the same |
| Metrics.ExposureBounds | sancho/src/parser/btmetrics.py:535-537 | every exposure count lies between 1 (the operation itself) and the number of operations |
| Metrics.ExposureVolumeOwn | sancho/src/parser/btmetrics.py:538 | with non-negative volumes, the exposed volume is at least the operation's own volume |
| Metrics.RemovedIffOverlaps | sancho/src/parser/btmetrics.py:604-611 | no pass of the loop removes an operation exactly when no other operation lies inside its interval and it lies inside no other operation's interval |
| Metrics.RemoveOverlappingOps | sancho/src/parser/btmetrics.py:594-613 | the kept operations are exactly those that no pass removed, each once, each paired with its position; the model lists them in ascending position; `sancho/src/Backtest/metrics.py:112-130` computes the same |
| Metrics.SurvivingIndices | sancho/src/parser/btmetrics.py:603-611 | the loop over the original index set keeps exactly the indices that no pass removed |
| Metrics.Ascending | sancho/src/parser/btmetrics.py:613 | `list(indices)` yields exactly the members of the set below the table's length, each once; the model fixes their order as ascending |
| Metrics.Decompose | sancho/src/parser/btmetrics.py:626-631 | days, hours below 24, minutes and seconds below 60, recombining to the total |
| Metrics.TimeInMarket | sancho/src/parser/btmetrics.py:615-631 | an empty log raises IndexError; otherwise the result is the decomposed total of the first duration plus, per later operation, either its duration or the time past the previous close; `sancho/src/Backtest/metrics.py:133-149` computes the same |
| Metrics.TimeInMarketBound | sancho/src/parser/btmetrics.py:619-624 | the time in market never exceeds the sum of durations, and equals it when no operation opens before the previous one closes |
| Metrics.TimeInMarketNested | sancho/src/Backtest/metrics.py:138-140 | an operation nested inside the previous adds its close-to-close gap: 0–100 and 10–50 give 50, not 100 |
| Metrics.PctWin | sancho/src/parser/btmetrics.py:639-645 | an empty log divides by zero; otherwise 100 times the share of strictly positive operations; `sancho/src/Backtest/metrics.py:152-157` computes the same |
| Metrics.PctWinShare | sancho/src/parser/btmetrics.py:644 | the win percentage lies in 0..100 and, times the number of operations, is 100 times the number of winners |
| Metrics.PctLoss | sancho/src/parser/btmetrics.py:647-649 | the loss percentage is defined exactly for a non-empty log |
| Metrics.PctWinLoss | sancho/src/parser/btmetrics.py:647-649 | win and loss percentages add up to 100; the loss percentage is the share of operations at or below 0; it lies in 0..100 |
| Metrics.GrossProfit | sancho/src/parser/btmetrics.py:715-718 | gross profit is never negative; `sancho/src/Backtest/metrics.py:226-228` computes the same |
| Metrics.GrossLoss | sancho/src/parser/btmetrics.py:720-723 | gross loss is never positive; `sancho/src/Backtest/metrics.py:231-233` computes the same |
| Metrics.GrossSplit | sancho/src/Backtest/metrics.py:226-233 | gross profit plus gross loss is the total result, and gross profit equals the profit-factor numerator (zeros add nothing) |
| Metrics.Mean | sancho/src/parser/btmetrics.py:513-523 | the expectancy is defined exactly for a non-empty log, and times the count it gives the sum; `sancho/src/Backtest/metrics.py:46-47` computes the same |
| Metrics.MeanSign | sancho/src/parser/btmetrics.py:700-708 | the mean of non-negative values is non-negative, and that of negative values is negative |
| Metrics.AvgWin | sancho/src/Backtest/metrics.py:208-210 | the pandas mean of the values at least 0 is NaN exactly when there is no such value, and otherwise non-negative |
| BtMetrics.AvgWinItem | sancho/src/parser/btmetrics.py:700-703 | `.mean().item()` raises AttributeError exactly when no value is at least 0; otherwise it is a non-negative average that, times the number of such values, gives their sum |
| Metrics.AvgLoss | sancho/src/Backtest/metrics.py:214-216 | the pandas mean of the negative values is NaN exactly when there is no such value, and otherwise negative |
| BtMetrics.AvgLossItem | sancho/src/parser/btmetrics.py:705-708 | `.mean().item()` raises AttributeError exactly when no value is negative; otherwise it is a negative average that, times the number of negative values, gives their sum |
| Metrics.ClosingDays | sancho/src/parser/btmetrics.py:651-660 | 0 for an empty log, otherwise between 1 and the number of operations |
| Metrics.ClosingDaysCount | sancho/src/parser/btmetrics.py:655-660 | the number counted is the size of the set of close dates; `sancho/src/Backtest/metrics.py:164-173` computes the same |
| Metrics.BestOperation | sancho/src/parser/btmetrics.py:674-685 | the maximum, times 10 in pips mode and times 1 in money mode, with the close time of the first operation that attains it; an empty log raises ValueError; `sancho/src/Backtest/metrics.py:187-194` computes the same |
| Metrics.WorstOperation | sancho/src/parser/btmetrics.py:687-698 | the minimum, times 1 in pips mode and times 10 in money mode, with the close time of the first operation that attains it; an empty log raises ValueError; `sancho/src/Backtest/metrics.py:197-205` computes the same |
| Metrics.BacktestTime | sancho/src/parser/btmetrics.py:710-713 | defined exactly for a non-empty log, and an empty one raises IndexError; it is the first open time's distance to the last close time; `sancho/src/Backtest/metrics.py:220-223` computes the same |
| Metrics.RecoveryFactor | sancho/src/parser/btmetrics.py:725-729 | gross profit over the depth of the deepest drawdown, never negative; NaN for an empty log; a zero drawdown raises InvalidOperation when gross profit is 0 and division by zero otherwise |
| Metrics.RecoveryRatio | sancho/src/parser/btmetrics.py:727-728 | the ratio times the drawdown is minus the gross profit, and the error kinds of `Decimal` division by zero |
| Strikes.Signs | sancho/src/parser/btmetrics.py:548 | the strike type is 1 exactly for a strictly positive value and -1 otherwise; `sancho/src/Backtest/metrics.py:67` computes the same |
| Strikes.RunsEncode | sancho/src/parser/btmetrics.py:549-561 | the reference streaks are a run-length encoding: expanding them gives back the sign sequence |
| Strikes.RunsNonEmpty | sancho/src/parser/btmetrics.py:549-561 | every reference streak has length at least 1 |
| Strikes.RunsAlternate | sancho/src/parser/btmetrics.py:552-561 | consecutive streaks have opposite signs |
| Strikes.StrikeRunLengths | sancho/src/parser/btmetrics.py:547-562 | the loop computes the strike types, and the lengths it appends under 1 and under -1 are the recorded lengths of the reference streaks; `sancho/src/Backtest/metrics.py:66-81` computes the same |
| Strikes.StrikeStepSame | sancho/src/parser/btmetrics.py:552-553 | the same sign lengthens the current streak by one, and nothing is recorded |
| Strikes.StrikeStepChange | sancho/src/parser/btmetrics.py:554-561 | a change of sign records the finished streak under its own sign and starts a new streak of 1 |
| Strikes.StrikeStep | sancho/src/parser/btmetrics.py:551-561 | one loop iteration is exactly one of the two cases above |
| Strikes.OneRecordPerChange | sancho/src/parser/btmetrics.py:551-561 | exactly one length is recorded per sign change, so the last streak is never recorded |
| Strikes.RecordedTotal | sancho/src/parser/btmetrics.py:550-561 | the recorded lengths add up to the number of operations minus the last streak minus 1: the first streak is counted one short |
| Strikes.StrikesExample | sancho/src/parser/btmetrics.py:547-562 | strike types +,-,+,-,+ record winning lengths [0, 1] and losing lengths [1, 1] |
| Strikes.TallyCounts | sancho/src/parser/btmetrics.py:562 | `Counter`: the keys are the distinct lengths, first occurrence first, and each value is how often its key occurs |
| Strikes.MaxStrike | sancho/src/parser/btmetrics.py:564-570 | `max(keys())` raises ValueError on an empty counter, and otherwise is a key no smaller than any key; `sancho/src/Backtest/metrics.py:84-89` computes the same |
| Strikes.MaxStrikeOfTally | sancho/src/parser/btmetrics.py:564-570 | the maximum strike exists exactly when some length was recorded, and it is the largest recorded length |
| Strikes.Ratio | sancho/src/parser/btmetrics.py:576 | a zero count raises ZeroDivisionError; otherwise the quotient times the count is the weighted sum |
| Strikes.AvgWinningStrike | sancho/src/parser/btmetrics.py:579-584 | the winning average raises ZeroDivisionError exactly when no winning length was counted, and is otherwise non-negative; `sancho/src/Backtest/metrics.py:98-101` computes the same |
| Strikes.AvgLosingStrikeAsWritten | sancho/src/parser/btmetrics.py:572-577 | the losing average as written raises ZeroDivisionError exactly when no losing length was counted, is otherwise non-negative, and equals the intended losing average whenever the two counters have the same counts; `sancho/src/Backtest/metrics.py:92-95` computes the same |
| Strikes.AvgLosingStrike | sancho/src/parser/btmetrics.py:572-577 | the intended losing average, each losing length weighted by its own count: ZeroDivisionError exactly when no losing length was counted, otherwise non-negative |
| Strikes.AvgWinningStrikeIsMean | sancho/src/parser/btmetrics.py:579-584 | the key-times-count sum over the count total is the mean of the recorded winning lengths; `sancho/src/Backtest/metrics.py:98-101` computes the same |
| Strikes.AvgLosingStrikeIsMean | sancho/src/parser/btmetrics.py:572-577 | the intended average losing strike is the mean of the recorded losing lengths |
| Strikes.CounterSums | sancho/src/parser/btmetrics.py:562 | over a `Counter`, key times count sums to the total of the lengths, and the counts sum to their number |
| Strikes.AvgLosingStrikeExample | sancho/src/parser/btmetrics.py:572-577 | for the example above, pairing the losing keys with the winning counts gives 0.5, while the losing mean is 1.0; `sancho/src/Backtest/metrics.py:92-95` computes the same |
| Strikes.AvgLosingOfCounters | sancho/src/parser/btmetrics.py:574-576 | the same discrepancy, stated on the two counters |
| BacktestMetrics.PfAsWritten | sancho/src/Backtest/metrics.py:11-15 | the free profit factor raises TypeError exactly when no value is negative; otherwise it is the ratio whose product with the total loss is the total profit |
| BacktestMetrics.PfAsWrittenAgrees | sancho/src/Backtest/metrics.py:15 | where there is a loss, the free function agrees with the finite profit factor |
| BacktestMetrics.PfOfWinnersRaises | sancho/src/Backtest/metrics.py:15 | a log of winners only raises, where the intended value is infinity |
| BacktestMetrics.PctLosserAsWritten | sancho/src/Backtest/metrics.py:160-161 | `pct_losser` returns the win percentage |
| BacktestMetrics.PctLosserExample | sancho/src/Backtest/metrics.py:152-161 | one winner and two losers: the as-written loss percentage is 33.3…, the intended one 66.6… |
| BacktestMetrics.RoundHalfEven | sancho/src/Backtest/metrics.py:211 | `np.round(x, 0)` is within a half of x, and a tie goes to the even neighbour |
| BacktestMetrics.RoundWhole | sancho/src/Backtest/metrics.py:211 | whole numbers round to themselves |
| BacktestMetrics.RoundMonotone | sancho/src/Backtest/metrics.py:211 | rounding keeps the order |
| BacktestMetrics.AvgWinRounded | sancho/src/Backtest/metrics.py:208-211 | `int` of a NaN mean raises ValueError exactly when no value is at least 0; otherwise it is a non-negative whole number within a half of the average win |
| BacktestMetrics.AvgLossRounded | sancho/src/Backtest/metrics.py:214-217 | ValueError exactly when no value is negative; otherwise a whole number at most 0, within a half of the average loss |
| BacktestMetrics.AvgWinRoundedTieDown | sancho/src/Backtest/metrics.py:211 | an average win of 2.5 rounds to 2 |
| BacktestMetrics.AvgWinRoundedTieUp | sancho/src/Backtest/metrics.py:211 | an average win of 3.5 rounds to 4 |
| BtMetrics.LongestSpan | sancho/src/parser/btmetrics.py:154 | `max` of the stagnation periods raises ValueError on an empty list, and otherwise is a member no smaller than any period |
| BtMetrics.PfMetric | sancho/src/parser/btmetrics.py:425-438 | the 'PF' metric is plus infinity exactly when no value is negative; otherwise it is a non-negative ratio that, times the total loss, gives the total profit |
| BtMetrics.PfAsWritten | sancho/src/parser/btmetrics.py:438-439 | quantizing `Decimal('inf')` raises InvalidOperation exactly when no value is negative; otherwise the result is the profit factor |
| BtMetrics.PfOfWinnersOnly | sancho/src/parser/btmetrics.py:438-439 | pips 10 and 5 raise, where infinity is intended; pips 10 and -5 give 2 |
| BtMetrics.StrikeValues | sancho/src/parser/btmetrics.py:157-160 | the four strike entries exist exactly when both a winning and a losing length were recorded, and otherwise raise ValueError; the losing average is the zipped one as written, the winning average the mean winning streak |
| BtMetrics.Raising | sancho/src/parser/btmetrics.py:151-178 | the entries that can raise, in the dictionary's order ('PF', 'Stagnation Period', the strikes, 'SQN', 'Sharpe', 'Avg Win', 'Avg Loss', 'Kratio', 'RF'): a log without a losing value (the empty one included) raises InvalidOperation at 'PF'; a log with one but no stagnation period raises ValueError at the `max`; a non-empty log of losses only that passes the stagnation period, the strikes, SQN and Sharpe raises AttributeError at 'Avg Win'; on success the PF is the finite profit factor, and the strikes, average win and loss, RF and Kratio are their metrics' values |
| BtMetrics.Table | sancho/src/parser/btmetrics.py:149-179 | the constructor's table exists only for a non-empty log; a log without a losing value raises InvalidOperation; a log of losses only whose stagnation period, strikes, SQN and Sharpe succeed raises AttributeError |
| BtMetrics.TableWithoutStagnation | sancho/src/parser/btmetrics.py:151-154 | with at most one non-zero drawdown the constructor raises: InvalidOperation at 'PF' when no value is negative, otherwise ValueError at the empty stagnation `max` |
| BtMetrics.ThreeLossesDrawdown | sancho/src/parser/btmetrics.py:441-452 | losses of 1, 2 and 3 give the drawdown 0, -2, -5 |
| BtMetrics.ThreeLossesStagnate | sancho/src/parser/btmetrics.py:479-488 | profits [-1, -2, -3] leave one stagnation period |
| BtMetrics.AlternatingStrikes | sancho/src/parser/btmetrics.py:547-562 | signs +, -, + record a winning length 0 and a losing length 1 |
| BtMetrics.AlternatingPipsStrikes | sancho/src/parser/btmetrics.py:157-160 | pips [1, -1, 1] give all four strike entries |
| BtMetrics.LossesOnlyRaiseAtAvgWin | sancho/src/parser/btmetrics.py:151-171 | in money mode, profits [-1, -2, -3] with pips [1, -1, 1] pass every entry before 'Avg Win' and raise AttributeError there |
| BtMetrics.EmptyLogNotMeasured | sancho/src/parser/btmetrics.py:151 | an empty log cannot be measured: its profit factor is `Decimal('inf')`, and quantizing it raises InvalidOperation |
| BtMetrics.TableValues | sancho/src/parser/btmetrics.py:151-178 | a filled table comes from a log with a losing value, so its PF is the finite profit factor; the log also has a value at least 0, and 'Avg Win' and 'Avg Loss' are the `.item()` averages; closing days, win and loss percentages, gross profit, the largest exposed volume, time in market, RF and Kratio are their metrics |
| BtMetrics.TableStrikes | sancho/src/parser/btmetrics.py:159-160 | in a filled table, 'Avg. Losing Strike' is the zipped average `get_avg_losing_strike` computes, and 'Avg. Winning Strike' is the mean winning streak |
| BtMetrics.Entries | sancho/src/parser/btmetrics.py:151-178 | in the dictionary, 'Pct. Win' and 'Pct. Loss' are numbers in 0..100 that add up to 100, 'Min. Lots' is at most 'Max. Lots', and 'Num Ops' is the length of the log |
| BtMetrics.DictKeys | sancho/src/parser/btmetrics.py:149-179 | the table has exactly the 28 names of the metric dictionary |
| BtMetrics.DictEntries | sancho/src/parser/btmetrics.py:176-178 | 'Kratio', 'RF' and 'Num Ops' hold their metrics |
| BtMetrics.DictMoreEntries | sancho/src/parser/btmetrics.py:156-166 | 'Max. Exposure' and 'Closing Days' hold their metrics |
| BtMetrics.DictPf | sancho/src/parser/btmetrics.py:151 | 'PF' holds the profit factor |
| BtMetrics.TableRaising | sancho/src/parser/btmetrics.py:149-179 | a filled table means none of the raising entries raised, and the table is built from those entries |
| BtMetrics.TableCountsOperations | sancho/src/parser/btmetrics.py:203-204 | 'Num Ops' is the number of operations |
| BtMetrics.AtLeast | sancho/src/parser/btmetrics.py:419 | comparing with the minimum works for numbers and plus infinity; it raises InvalidOperation for NaN and TypeError for a time span or moment |
| BtMetrics.AtMost | sancho/src/parser/btmetrics.py:420 | the same for the maximum |
| BtMetrics.MeetsWithin | sancho/src/parser/btmetrics.py:419-420 | a criterion can be evaluated exactly when the value is a number or plus infinity, and it holds exactly when the value lies between the minimum and the maximum |
| BtMetrics.Lookup | sancho/src/parser/btmetrics.py:413-414 | looking up every criterion raises IndexError exactly when some criterion names no metric of `ALL_METRICS` |
| BtMetrics.ChecksAll | sancho/src/parser/btmetrics.py:418-421 | the check raises exactly when some criterion cannot be compared, and otherwise is true exactly when every criterion holds |
| BtMetrics.ValidIff | sancho/src/parser/btmetrics.py:378-423 | `is_valid` returns a value exactly when every criterion is known and comparable, and then it is true exactly when every criterion holds |
| BtMetrics.NoCriteriaValid | sancho/src/parser/btmetrics.py:416-423 | with no criteria, every backtest is valid |
| BtMetrics.TimeInMarketUnknown | sancho/src/parser/btmetrics.py:296-299 | a criterion on 'Time in Market' raises IndexError, because that name is not in `ALL_METRICS` |
| BtMetrics.DefaultNamesKnown | sancho/src/parser/btmetrics.py:54-80 | every default criterion names a known metric |
| BtMetrics.DefaultCriteriaMeaning | sancho/src/parser/btmetrics.py:54-80 | with numeric metrics, the default check holds exactly when Kratio is at least 0.20, RF at least 8.9, Num Ops at least 250, Max. Exposure between 0.0 and 0.22, and Closing Days at least 100 |
| BtMetrics.ValidOfNumbers | sancho/src/parser/btmetrics.py:378-423 | with numeric metrics, validity is that every value lies within its criterion's bounds |
| BtMetrics.FewOperationsInvalid | sancho/src/parser/btmetrics.py:65-69 | fewer than 250 operations is never valid under the default criteria |
| BtMetrics.LowRecoveryInvalid | sancho/src/parser/btmetrics.py:60-64 | an RF of 5 fails the default criteria even when every other criterion holds |
| BtMetrics.StrikesInPips | sancho/src/parser/btmetrics.py:157-160 | the maximum strike entries are always computed from the pip streaks, whatever the table's mode |
| BtMetrics.BtMetrics.constructor | sancho/src/parser/btmetrics.py:128-179 | the object keeps the operations and the mode, and its metric dictionary is the table, with exactly the dictionary's 28 names |
| BtMetrics.BtMetrics.Create | sancho/src/parser/btmetrics.py:128-179 | an object is created exactly when the table as written can be filled (so never for a log without a losing value, nor for a log of losses only that reaches 'Avg Win'); otherwise the constructor's exception is returned |
| BtMetrics.BtMetrics.CalculateOneMetric | sancho/src/parser/btmetrics.py:286-299 | a name in `ALL_METRICS` returns its stored value; any other name raises IndexError |
| BtMetrics.BtMetrics.IsValid | sancho/src/parser/btmetrics.py:378-423 | the method's result is the validity of the stored metrics under the criteria |
| BtMetrics.BtMetrics.LookUpAll | sancho/src/parser/btmetrics.py:412-414 | the first loop raises IndexError exactly when a criterion is unknown, and otherwise collects each criterion's stored value |
| BtMetrics.BtMetrics.CheckAll | sancho/src/parser/btmetrics.py:416-421 | the second loop computes the conjunction of all criteria, raising at the first comparison that raises |
| BtMetrics.BtMetrics.Valid | sancho/src/parser/btmetrics.py:215-220 | 'Y' exactly when the default criteria hold and 'N' when they do not; an exception of the check passes through |
| BtMetrics.BtMetrics.GetStrikes | sancho/src/parser/btmetrics.py:541-562 | the object's strike type column becomes the signs of the chosen column, and the two counters tally the recorded winning and losing lengths |
| BtParser.UnknownPlatformText | sancho/src/parser/btparser.py:44-49 | `UKN` has the value of `MT4`, so it is an alias of it: its text is 'METATRADER4', and no platform reads 'UNKNOWN' |
| BtParser.PlatformToText | sancho/src/parser/btparser.py:162-187 | no platform reads 'UNKNOWN', and 'METATRADER4' is the text of exactly the platforms with `UKN`'s value |
| BtParser.PlatformTextInjective | sancho/src/parser/btparser.py:162-187 | different platforms have different texts |
| BtParser.PeriodToText | sancho/src/parser/btparser.py:189-210 | reading a period's text back through the file-name rule gives the period |
| BtParser.OrderTypeToText | sancho/src/parser/btparser.py:212-236 | a trade with the text of an order type is a buy exactly for `BUY` and a sell exactly for `SELL` |
| BtParser.TextToOrderType | sancho/src/parser/btparser.py:238-265 | exactly 'BUY', 'SELL' and 'BUY&SELL' are accepted, each the upper-case text of its type; anything else is ValueError |
| BtParser.OrderTypeRoundTrip | sancho/src/parser/btparser.py:212-265 | reading back the upper-cased text of an order type gives that order type |
| BtParser.OrderTypeTextNotAccepted | sancho/src/parser/btparser.py:227-265 | the mixed-case text an order type prints as ('Buy', …) is not accepted back without upper-casing |
| BtParser.Multipliers | sancho/src/parser/btparser.py:130-137 | every multiplier is +1 or -1, and there are at most as many as there are types |
| BtParser.OrderMultiplier | sancho/src/parser/btparser.py:130-137 | the loop builds the reference multiplier list; `sancho/src/Backtest/btparser.py:29-36;` computes the same |
| BtParser.MultipliersAligned | sancho/src/parser/btparser.py:133-136 | when every type is a buy or a sell in any case, the multipliers line up one per trade: +1 for a buy and -1 for a sell |
| BtParser.MultipliersShorter | sancho/src/parser/btparser.py:133-136 | a type that is neither is skipped, so the list comes out shorter than the trades |
| BtParser.SymbolDigits | sancho/src/parser/btparser.py:139-140 | no '.' in the price's text raises IndexError; otherwise the result is the length of the next piece after the first '.'; `sancho/src/Backtest/btparser.py:38-39;` computes the same |
| BtParser.DigitsAfterPoint | sancho/src/parser/btparser.py:140 | with a single '.', the number of digits is the number of characters after it |
| BtParser.SymbolDigitsExample | sancho/src/parser/btparser.py:140 | '1.12345' has 5 digits |
| BtParser.SymbolDigitsTenths | sancho/src/parser/btparser.py:140 | '110.5' has 1 digit |
| BtParser.SymbolDigitsScientific | sancho/src/parser/btparser.py:140 | a price printed in scientific notation ('1e-05') raises IndexError |
| BtParser.PointValue | sancho/src/parser/btparser.py:142-143 | the point value is positive, and ten times it is 10 to the number of digits; `sancho/src/Backtest/btparser.py:41-42;` computes the same |
| BtParser.AllDigits | sancho/src/parser/btparser.py:148 | the per-row digit counts exist exactly when every price has a '.', and then each is that row's count |
| BtParser.GetPoints | sancho/src/parser/btparser.py:145-154 | an empty log raises IndexError; only IndexError can be raised; a result has one point value per row |
| BtParser.GetPointsValues | sancho/src/parser/btparser.py:146-154 | with more than one symbol, each row's point value comes from its own price; otherwise every row gets the first row's; `sancho/src/Backtest/btparser.py:44-53;` computes the same |
| BtParser.GetPointsFails | sancho/src/parser/btparser.py:145-154 | the point values raise exactly for an empty log, or for a price without '.' among the prices that are read |
| BtParser.Broadcast | sancho/src/parser/btparser.py:160 | NumPy multiplication: the result exists exactly when the lengths agree or one is 1 (otherwise ValueError), and it is the elementwise product |
| BtParser.Factors | sancho/src/parser/btparser.py:159 | `zip` stops at the shorter list |
| BtParser.GetPips | sancho/src/parser/btparser.py:156-160 | an empty log raises IndexError; any failure is IndexError (no precision) or ValueError (no broadcast); on success every point was found, and for more than one row there is one pip value per row; `sancho/src/parser/bt.py:154-158` computes the same |
| BtParser.PipsDirection | sancho/src/parser/btparser.py:156-160 | with every type a buy or a sell, each pip value is the price move times the point value, with the sign flipped for a sell; `sancho/src/Backtest/btparser.py:55-59;` computes the same |
| BtParser.PipsBroadcast | sancho/src/parser/btparser.py:156-160 | once the points exist, the pips exist exactly when the multiplier list is as long as the rows, has length 1, or the log has a single row |
| BtParser.PlatformOf | sancho/src/parser/btparser.py:288-289 | a file is MT4 when it holds two tables, and GBX otherwise; no other platform is ever chosen |
| Genbox.FinalColumns | sancho/src/parser/btgenbox.py:22-28 | the final column list is the log's 13 columns, no dropped column survives, and every kept initial column appears in it |
| Genbox.DropNa | sancho/src/parser/btgenbox.py:169-173 | after `dropna`, every row has the table's full width |
| Genbox.CompleteRowsKeepAll | sancho/src/parser/btgenbox.py:173 | a table without missing cells loses no row |
| Genbox.CompleteRowsDrop | sancho/src/parser/btgenbox.py:173 | a row with a missing cell is dropped |
| Genbox.Promote | sancho/src/parser/btgenbox.py:180-186 | the first remaining row becomes the header and the first two rows are dropped; with no rows `iloc[0]` raises IndexError, with one row `drop([0, 1])` raises KeyError |
| Genbox.FirstSentinel | sancho/src/parser/btgenbox.py:190 | the position of the first 'Closed P/L:' in the Ticket column, or none |
| Genbox.Truncate | sancho/src/parser/btgenbox.py:189-196 | no Ticket column raises AttributeError; no sentinel raises IndexError; otherwise the rows before the first sentinel are kept and the Ticket column is removed |
| Genbox.ConvertColumn | sancho/src/parser/btgenbox.py:200-210 | a column converts exactly when every cell parses as a time or a number; a missing column raises IndexError and a bad cell ValueError |
| Genbox.ConvertAll | sancho/src/parser/btgenbox.py:198-210 | the conversions succeed exactly when every listed column converts |
| Genbox.Convert | sancho/src/parser/btgenbox.py:198-210 | the conversion loop computes the reference result for the report's columns: 0 and 7 are times; 2, 4, 5, 6, 8, 9, 10, 11 and 12 are numbers |
| Genbox.ConvertEach | sancho/src/parser/btgenbox.py:208-210 | the loop over the numeric columns stops at the first failure, as the reference does |
| Genbox.WithPips | sancho/src/parser/btgenbox.py:225 | a log is produced only when the pips exist and there is one per row, and it is then built from those pips |
| Genbox.ParseHtml | sancho/src/parser/btgenbox.py:147-231 | the method computes the reference parse of the report; `sancho/src/Backtest/genbox.py:11-96;` computes the same |
| Genbox.ParseTooShort | sancho/src/parser/btgenbox.py:180-184 | a report with no complete row raises IndexError, and one with a single complete row raises KeyError |
| Genbox.ParseNoSentinel | sancho/src/parser/btgenbox.py:189-190 | a report without a Ticket column raises AttributeError, and one without the 'Closed P/L:' sentinel raises IndexError |
| Genbox.ParseSteps | sancho/src/parser/btgenbox.py:169-210 | a successful parse went through every step: header promotion, truncation at the sentinel, and the column conversions |
| Genbox.FinishRows | sancho/src/parser/btgenbox.py:213-229 | each row of the log carries its report row's open and close times, type, symbol and profit, and there is one row per report row |
| Genbox.ParseKeepsRowsBeforeSentinel | sancho/src/parser/btgenbox.py:189-193 | the log has one operation per report row before the first sentinel, none of them a sentinel, each with that row's open time, symbol and profit; `sancho/src/Backtest/genbox.py:48-52;` computes the same |
| Genbox.ParseBalanceAndDuration | sancho/src/parser/btgenbox.py:215-216 | in a parsed log, every duration is close minus open, and the balance is the deposit plus the cumulative profit; `sancho/src/Backtest/genbox.py:77-78;` computes the same |
| Genbox.ParseEmptyLog | sancho/src/parser/btgenbox.py:225 | a report with no operation before the sentinel raises IndexError at the pips, through `iloc[0]` of the prices |
| Genbox.PeriodOf | sancho/src/parser/btgenbox.py:233-256 | the period is ISOS exactly when the stem's last '_' field is neither 'IS' nor 'OS', and an IS or OS period is that field |
| Genbox.NameAndPeriod | sancho/src/parser/btgenbox.py:91-99 | for an IS or OS file, the name, '_' and the period text make up the file's stem |
| Genbox.Name | sancho/src/parser/btgenbox.py:91-99 | an ISOS file's name is its whole stem, and an IS or OS file whose stem has no '_' has the empty name |
| Genbox.NameOfBareStem | sancho/src/parser/btgenbox.py:96-99 | the file 'IS.html' is in sample and has an empty name |
| Genbox.Symbol | sancho/src/parser/btgenbox.py:135-136 | the symbol of an empty log raises IndexError, and any other log has one |
| Genbox.OrderType | sancho/src/parser/btgenbox.py:139-141 | the order type of an empty log raises IndexError |
| Genbox.FirstOperationDecides | sancho/src/parser/btgenbox.py:135-141 | the symbol is the first operation's, upper-cased, and the order type is read from the first operation's type, upper-cased |
| Mt4.TagIsPlatform | sancho/src/parser/bt.py:14-17 | a file is tagged 'MT4' exactly when the platform rule says MT4, and 'GBX' exactly when it says GBX |
| Mt4.ClassifyBts | sancho/src/parser/bt.py:11-19 | the classification has exactly the given files as keys, each tagged by its table count |
| Mt4.Mt4Symbol | sancho/src/parser/bt.py:28 | the symbol is the lower-cased first word of the header cell, with no space in it |
| Mt4.Mt4SymbolFirstWord | sancho/src/parser/bt.py:28 | the symbol is what precedes the first space, lower-cased |
| Mt4.ForexShortName | sancho/src/parser/bt.py:185-195 | a symbol not of length 6 gives ''; a 6-letter one raises KeyError unless both halves are known currencies; a result has at least two letters |
| Mt4.ForexShortNameExamples | sancho/src/parser/bt.py:185-195 | EURUSD is 'eu' |
| Mt4.ForexShortNameFranc | sancho/src/parser/bt.py:185-195 | GBPCHF is 'gcf' |
| Mt4.ForexShortNameUnknown | sancho/src/parser/bt.py:195 | lower-case or non-currency halves raise KeyError |
| Mt4.ForexShortNameInjective | sancho/src/parser/bt.py:7-8 | two pairs with the same short name are the same pair, because the codes are distinct and none is a prefix of another |
| Mt4.Group | sancho/src/parser/bt.py:168 | an order's rows are rows of the history that carry that order number |
| Mt4.OrderRow | sancho/src/parser/bt.py:168-174 | the operation built from an order's rows has duration close time minus open time |
| Mt4.GroupFirst | sancho/src/parser/bt.py:168-170 | an order's first row is its first appearance in the history |
| Mt4.OrderRows | sancho/src/parser/bt.py:166-175 | one operation per order, each duration being close minus open |
| Mt4.FormatSpec | sancho/src/parser/bt.py:161-182 | an empty history raises IndexError, and IndexError is the only exception |
| Mt4.FormatMt4Ops | sancho/src/parser/bt.py:161-182 | the method computes the reference conversion of the history |
| Mt4.OrderRowsAt | sancho/src/parser/bt.py:169-174 | each operation takes its open time, stop loss, take profit, type, volume and open price from the order's first row, and its close time, close price and profit from its last row; the pips are the price move times the point value, with no sign for the direction |
| Mt4.FormatOnePerOrder | sancho/src/parser/bt.py:165-182 | the log has one operation per distinct order, in order of first appearance, with the running balance |
| Mt4.DistinctInOrder | sancho/src/parser/bt.py:166 | `unique()` lists the orders in the order of their first appearance |

## Left out

- `calculate_sqn`, `calculate_sharpe`, `_eqm`, `calculate_kratio` and `kratio`: they are float statistics (standard deviation, square root, a scikit-learn regression). They are not modelled. The table takes their entries ('SQN', 'Sharpe', 'Kratio') from the parameter `outside`.
- Decimal quantization to two places (`DEC_PREC`): the table's values are exact reals, with no rounding. `BacktestMetrics.RoundHalfEven` models the only other rounding, `np.round`.
- Floating point in general: pips, profits and prices are exact reals. `str(price)` is the parameter `showReal`, so no float formatting is modelled.
- Date and time parsing: `pd.to_datetime` and `astype(float)` are the parameters `parseTime` and `parseReal`. The calendar date of a time is the parameter `dateOf`.
- HTML reading and the file system: `pd.read_html`, `Path` and the `path == '.'` branch of `btgenbox.parse_html` (which leaves `raw_data` unbound) are not modelled. The raw tables and each file's table count are inputs.
- `parse_mt4_html`: only its symbol rule (`Mt4.Mt4Symbol`) is modelled. The type conversions of the MT4 history are taken as done, and `Mt4Row` holds the converted values.
- `metrics_to_df` and the CSV export: output only.
- `selected_metrics`, `all_metrics`, `_calculate_all_metrics` and the `calc_metrics_at_init` branch of `is_valid`: not modelled. `_calculate_all_metrics` is called with an argument it does not accept. The model covers the default path, where `calc_metrics_at_init` is false and each criterion is looked up.
- `ratio`, `timeframe`, and the `platform`/`period` properties with their setters: not modelled. `ratio` is no metric of the table. `timeframe` returns ''. The fallbacks of `platform` and `period` never apply to enumeration members.
- `num_winners` and `max_dd`: they have no member of their own. The count of winners appears in `Metrics.PctWin`. `max_dd` with 'dd' is `Metrics.MaxDrawdown`, and with 'dd2' it is the minimum of `Metrics.Dd2`.
- Metrics.Exposures: the free `exposures` of the backtest package returns only the counts. The model's second output, the volumes, belongs to the class's method only.
- Text.Lower, Text.Upper: they map only the ASCII letters 'A'..'Z' and 'a'..'z'. Python's `str.lower` and `str.upper` map the whole of Unicode ('ß'.upper() is 'SS'); symbols and order types are ASCII in the reports, so only that range is modelled.
- Metrics.PctLoss: its own contract says only when it is defined. Its value is stated by `Metrics.PctWinLoss`.
- Strikes.StrikeRunLengths: writing the 'Strike Type' column into the caller's DataFrame (an aliasing side effect) is not modelled in the free function. The class's `BtMetrics.BtMetrics.GetStrikes` keeps the column as a field.
- Metrics.Ascending, Metrics.RemoveOverlappingOps: the source returns the kept rows in the iteration order of its final set (`iloc[list(indices)]`). CPython lists a set in hash-table order, and a set rebuilt by `difference` with few members left can come out unsorted. The model returns them in ascending position, so it does not capture that order; which rows are kept is modelled exactly.
- Metrics.SurvivingIndices: Python iterates over the original index set while the loop rebinds `indices`. The model iterates over the original indices in ascending order, which is CPython's order for small non-negative integers.
- BtParser.TextToOrderType: for an unknown text the source returns the `ValueError` class as a value instead of raising it. The model returns `Err(ValueError)`. The `case _` branches of the enumeration-to-text functions are unreachable for enumeration members and are not modelled.
- `sancho/src/Backtest/genbox.py` derives its class from an imported module object. The model takes it to inherit `Btparser` from `sancho/src/Backtest/btparser.py`, whose pip computation is the shared `BtParser` one.
- `BT_TIMEFRAMES` and `BT_EXTENSIONS`: unused by the core, so not modelled.
- The web layer and the rest of the repository are not part of this model.

## Findings

| source | as written | input that shows it | evidently intended | confidence | as-written member | corrected member |
|---|---|---|---|---|---|---|
| sancho/src/parser/btmetrics.py:438-439 | with no losing value the profit factor is `Decimal('inf')`, and quantizing it raises InvalidOperation, so the constructor fails | pips [10.0, 5.0] | 'PF' is plus infinity | not executed | BtMetrics.PfAsWritten | BtMetrics.PfMetric |
| sancho/src/Backtest/metrics.py:15 | with no losing value it calls `np.inf`, a float, which raises TypeError | pips [1.0] | the profit factor is infinity | not executed | BacktestMetrics.PfAsWritten | Metrics.ProfitFactorOf |
| sancho/src/Backtest/metrics.py:160-161 | `pct_losser` returns the win percentage | pips [1.0, -1.0, -1.0]: 33.3… instead of 66.6… | 100 minus the win percentage, as the class's `pct_loss` computes | not executed | BacktestMetrics.PctLosserAsWritten | Metrics.PctLoss |
| sancho/src/parser/btmetrics.py:574 | the average losing strike pairs the losing lengths with the counts of the winning lengths | pips [1, -1, 1, -1, 1]: losing lengths [1, 1], so 0.5 instead of 1.0 | the mean of the losing lengths, pairing each losing length with its own count | not executed | Strikes.AvgLosingStrikeAsWritten | Strikes.AvgLosingStrike |
| sancho/src/Backtest/metrics.py:93 | the same pairing in the free `get_avg_losing_strike` | the same counters | the mean of the losing lengths | not executed | Strikes.AvgLosingStrikeAsWritten | Strikes.AvgLosingStrike |
