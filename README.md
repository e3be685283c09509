# Monte Carlo risk of ruin — a Dafny model

This project models the Monte Carlo risk-of-ruin engine of `decisiveml`
(`decisiveml/montecarlo.py`) and proves properties of it.

The engine takes a list of trade profits and losses. It works in five steps:

- It resamples the list with replacement, drawing one year's worth of trades (the trades-per-year rate) per path.
- It walks each path to find ruin, meaning the equity falls below a ruin level. It also computes the path's profit, return, maximum drawdown against the high-water mark, and return per drawdown.
- It runs 2500 paths per starting equity. It reduces them to the medians of the continuous statistics and the percentage of paths that were ruined and that were profitable.
- It sweeps a ladder of starting equities, `base, base + base/4, …`.
- It recommends the first level whose risk of ruin is below 10%, with a pass/fail verdict.

The model has these modules:

- `Outcomes` (outcomes.dfy): the exceptions the engine raises, as an `Error` datatype, plus `Result`, `Outcome` and `Option`.
- `Numeric` (numeric.dfy): Python's `sum`, `int()` (truncation toward zero) and `len(range(k))`, with lemmas about sums of 0/1 flags and about reordering.
- `Sampler` (sampler.dfy): the unweighted `choices` (lines 13-22). The process-wide random generator is a class `Rng`: a caller-chosen tape of uniform draws (type `Draw`, reals in [0, 1)) and the position of the next draw. Every sample is therefore a function of (tape, position).
- `PathSimulation` (path_simulation.dfy): equity, high-water mark, maximum drawdown and ruin of one sampled path, as functions of the path. `MaxDrawdown` models `_drawdown` (lines 105-126), and `PathOf` gives the statistics `_random_trade` returns (lines 89-101).
- `Statistics` (statistics.dfy): `statistics.median` (line 146), as sort then middle, with its order-independence and its halving property.
- `Aggregation` (aggregation.dfy): the dict of columns `_median_stats_run` builds and its reduction to one aggregate per starting equity, `Aggregate` (lines 142-157).
- `Ladder` (ladder.dfy): `step_size = int(base / 4)` and the `range` of starting equities `run` sweeps, `Levels` (lines 183-185).
- `MonteCarloEngine` (montecarlo.dfy):
  - the class `MonteCarlo`, with the fields the source updates (`num_trades_per_year`, `ruin_equity`, `runs`). Its methods run the source's loops and are proved equal to specification functions of the settings, the inputs and the tape;
  - those functions: `RandomTradeSpec` (lines 73-103), `MedianStatsSpec` (lines 128-162), `SweepSpec` (lines 190-195), `RunSpec` (lines 164-188) and `RecommendationSpec` (lines 204-244);
  - the lemmas that state what the functions mean.

In these edge cases the model does what the code does:

- A negative day span is not rejected. It gives a negative trades-per-year value, or 0 when there are fewer trades than years in the span. A 0 fails the truthiness assertion; a negative value passes it and samples no trades. Only a zero span fails, with a division by zero.
- The ladder step is `int(base / 4)`, truncated toward zero, not floored. `run` does not reject a non-positive base equity:
  - a base between -3 and 3 gives a zero step, and `range` raises;
  - a base of -4 or below sweeps a descending ladder.
- A non-positive `steps` gives an empty sweep. That fails later, in `best_run`'s assertion.

## Model

| member | source | states |
|---|---|---|
| `Numeric.Trunc` | decisiveml/montecarlo.py:91-93 | `int()` of a real: the unique integer within one of x on the side of zero |
| `Numeric.TruncOfQuotient` | decisiveml/montecarlo.py:70 | `int(a / b)` for a non-negative integer a and a non-zero integer b is integer division rounded toward zero, for either sign of the divisor |
| `Numeric.SumOfFlags` | decisiveml/montecarlo.py:151-156 | the sum of a list of 0/1 flags is its count of ones, which is at most its length |
| `Numeric.SumPermutation` | decisiveml/montecarlo.py:151-156 | a sum does not depend on the order of its terms |
| `Numeric.SumNonNegative` | decisiveml/montecarlo.py:90 | a sum of non-negative trades is non-negative |
| `Sampler.Rng.Random` | decisiveml/montecarlo.py:22 | `random.random()` returns the next draw and advances the position by one |
| `Sampler.Index` | decisiveml/montecarlo.py:22 | `int(r * total)` for a draw r in [0, 1) is always a valid index |
| `Sampler.Sample` | decisiveml/montecarlo.py:19-22 | a sample has exactly k elements (none for k <= 0), and element i is the population member chosen by draw i |
| `Sampler.Choices` | decisiveml/montecarlo.py:13-22 | `choices(population, k=k)` returns that sample and consumes one draw per element; an empty population with k > 0 fails with IndexError after one draw |
| `PathSimulation.EquityStep` | decisiveml/montecarlo.py:83-84 | adding the next trade to the equity gives the equity after one more trade |
| `PathSimulation.HwmIsMaximum` | decisiveml/montecarlo.py:107-117 | the high-water mark is at least the starting equity and every equity so far, and equals one of them |
| `PathSimulation.HwmMonotone` | decisiveml/montecarlo.py:115-117 | the high-water mark never falls |
| `PathSimulation.MaxDrawdownErrPersists` | decisiveml/montecarlo.py:119-123 | once the drawdown computation has divided by zero, it stays failed |
| `PathSimulation.MaxDrawdownFailsIff` | decisiveml/montecarlo.py:119-123 | `_drawdown` fails, with ZeroDivisionError, exactly when some dip meets a zero high-water mark |
| `PathSimulation.MaxDrawdownIsMaximum` | decisiveml/montecarlo.py:105-126 | a successful drawdown is non-negative, bounds every instantaneous drawdown `100 * (1 - equity / hwm)`, and is one of them or 0 |
| `PathSimulation.MaxDrawdownSucceeds` | decisiveml/montecarlo.py:105-126 | from a positive starting equity `_drawdown` never divides by zero |
| `PathSimulation.HwmOfGains` | decisiveml/montecarlo.py:112-117 | with no losing trade, the equity is its own high-water mark at every step |
| `PathSimulation.NoDrawdownForGains` | decisiveml/montecarlo.py:105-126 | a path of gains only has a maximum drawdown of 0 |
| `PathSimulation.DrawdownBelowHundred` | decisiveml/montecarlo.py:119-123 | while the equity stays positive, the drawdown stays below 100% |
| `PathSimulation.DrawdownAboveHundred` | decisiveml/montecarlo.py:105-126 | from a positive start, once the equity falls below zero the maximum drawdown exceeds 100% |
| `PathSimulation.DrawdownCanExceedHundred` | decisiveml/montecarlo.py:119-123 | an example of the above: from 100, one trade of -200 gives a drawdown of 200 |
| `PathSimulation.PathFailsIff` | decisiveml/montecarlo.py:89-101 | a path's statistics fail only on a zero starting equity or a zero-high-water-mark dip, always with ZeroDivisionError; the ruin level plays no part |
| `PathSimulation.PathFlagsMeaning` | decisiveml/montecarlo.py:80-96 | `is_ruined` is 1 iff some prefix takes the equity below the ruin level; `is_profitable` is 1 iff the path ends no lower than it began |
| `PathSimulation.PathDrawdownMeaning` | decisiveml/montecarlo.py:94-101 | `drawdown_pct` is non-negative and bounds every instantaneous drawdown; `returns_per_drawdown` is 0 without drawdown, and otherwise multiplies back to `returns_pct` |
| `PathSimulation.PathReturnsMeaning` | decisiveml/montecarlo.py:91-93 | `returns_pct` is the truncated percentage gain of the final equity over the start |
| `PathSimulation.RuinDoesNotTruncate` | decisiveml/montecarlo.py:80-97 | the early exit of the ruin scan does not shorten the path: every statistic except the ruin flag is independent of the ruin level |
| `PathSimulation.RuinMonotoneInEquity` | decisiveml/montecarlo.py:81-87 | a path that ruins a larger starting equity also ruins a smaller one |
| `PathSimulation.GainsOnlyPath` | decisiveml/montecarlo.py:89-101 | a path of gains only, from a non-zero start, succeeds with no drawdown, a zero ratio and the profitable flag set |
| `Statistics.InsertSorts` | decisiveml/montecarlo.py:146 | insertion into a sorted list keeps it sorted and adds exactly the new element |
| `Statistics.SortSorts` | decisiveml/montecarlo.py:146 | the sort inside `statistics.median` yields an ascending permutation of the data |
| `Statistics.SortedUnique` | decisiveml/montecarlo.py:146 | a multiset has only one ascending arrangement, so any sorting algorithm gives the same median |
| `Statistics.MinMaxBound` | decisiveml/montecarlo.py:146 | Min and Max bound every element and are elements |
| `Statistics.MedianWithinRange` | decisiveml/montecarlo.py:146 | the median lies between the least and the greatest value |
| `Statistics.MedianOfPermutation` | decisiveml/montecarlo.py:143-146 | the median depends only on the multiset of the values |
| `Statistics.CountSort` | decisiveml/montecarlo.py:146 | sorting keeps the number of elements that satisfy any test |
| `Statistics.SortedMiddleSplits` | decisiveml/montecarlo.py:146 | in sorted data, at least half the elements lie on each side of the middle |
| `Statistics.MedianSplitsInHalf` | decisiveml/montecarlo.py:146 | at least half of the data lies at or below the median, and at least half at or above it |
| `Aggregation.AppendRunColumns` | decisiveml/montecarlo.py:137-140 | appending one run's stats key by key gives the columns of the longer run list |
| `Aggregation.PercentOfFlags` | decisiveml/montecarlo.py:151-156 | `100 * sum(flags) / runs` over a column of 0/1 flags is the share of ones, in [0, 100] |
| `Aggregation.FlagColumns` | decisiveml/montecarlo.py:137-140 | the two flag columns hold only 0s and 1s |
| `Aggregation.ColumnsWellFormed` | decisiveml/montecarlo.py:133-140 | the runs loop fills all six columns to the same length |
| `Aggregation.MedianTestAsWrittenKeepsFlags` | decisiveml/montecarlo.py:145 | the test on line 145 holds for every key, the two flags included, which the intended test excludes |
| `Aggregation.MedianTestSkipsFlags` | decisiveml/montecarlo.py:144-145 | the intended test rejects exactly `is_ruined` and `is_profitable` |
| `Aggregation.AggregateAsWrittenAgrees` | decisiveml/montecarlo.py:143-156 | the flag medians the written test takes are overwritten, so the aggregate equals the one with the intended test |
| `Aggregation.AggregateFlags` | decisiveml/montecarlo.py:151-156 | the aggregate's `is_ruined` and `is_profitable` are the percentage of runs with the flag set, each in [0, 100] |
| `Aggregation.AggregateMedians` | decisiveml/montecarlo.py:143-157 | the other fields are the medians of their columns, each between the column's min and max, and `equity` is the starting equity |
| `Aggregation.AggregateDrawdownNonNegative` | decisiveml/montecarlo.py:143-146 | when every run's drawdown is non-negative, so is the median drawdown |
| `Aggregation.ProjectPermutation` | decisiveml/montecarlo.py:137-140 | reordering the runs reorders each column |
| `Aggregation.ColumnsOfPermutation` | decisiveml/montecarlo.py:133-140 | reordering the runs reorders all six columns |
| `Aggregation.AggregateOfPermutedColumns` | decisiveml/montecarlo.py:143-157 | columns with the same values in another order aggregate alike |
| `Aggregation.AggregateOfPermutation` | decisiveml/montecarlo.py:133-157 | the aggregate does not depend on the order in which the runs finished |
| `Ladder.StepSizeMeaning` | decisiveml/montecarlo.py:183 | the step is 0 exactly for a base between -3 and 3; otherwise it is the base divided by 4, rounded toward zero |
| `Ladder.RangeIsLadder` | decisiveml/montecarlo.py:184-185 | `range(base, base + step * steps, step)` is `base + i * step` for i in 0 .. steps - 1 |
| `Ladder.LadderMonotone` | decisiveml/montecarlo.py:185 | a ladder climbs strictly for a positive step and falls strictly for a negative one |
| `Ladder.LevelsAscend` | decisiveml/montecarlo.py:183-185 | from a base of at least 4 there are `steps` levels `base + i * (base / 4)`, strictly increasing |
| `Ladder.LevelsDescend` | decisiveml/montecarlo.py:183-185 | from a base of -4 or below, the step is negative and the levels strictly decrease |
| `Ladder.RangeLengthIsLen` | decisiveml/montecarlo.py:22 | `range(k)` yields `RangeLength(k)` elements: k for positive k and none otherwise |
| `Ladder.LadderOf1000` | decisiveml/montecarlo.py:183-185 | a base of 1000 over 5 steps sweeps 1000, 1250, 1500, 1750, 2000 |
| `MonteCarloEngine.TradesPerYearMeaning` | decisiveml/montecarlo.py:68-70 | trades per year is `total * 365 / days` rounded toward zero for either sign of the span, and 0, for either sign of the span, exactly when there are fewer trades than years |
| `MonteCarloEngine.RandomTradeOutcome` | decisiveml/montecarlo.py:73-101 | a path fails with AssertionError exactly when a setting is unset or zero, and with IndexError exactly on an empty trade list with a positive draw count; otherwise it fails only by division by zero, and never from a positive starting equity |
| `MonteCarloEngine.Repeat` | decisiveml/montecarlo.py:133-136 | a successful repetition has one result per run |
| `MonteCarloEngine.RepeatPointwise` | decisiveml/montecarlo.py:133-136 | run i of a successful repetition is the step at pos + i * stride |
| `MonteCarloEngine.Each` | decisiveml/montecarlo.py:192-193 | a successful pass over the levels has one result per level |
| `MonteCarloEngine.EachPointwise` | decisiveml/montecarlo.py:192-193 | result j of a successful pass is the step on level j at pos + j * stride |
| `MonteCarloEngine.MedianStatsSpec` | decisiveml/montecarlo.py:157 | a successful aggregate records the starting equity it was run at |
| `MonteCarloEngine.PathsArePathwise` | decisiveml/montecarlo.py:133-136 | the 2500 paths are `_random_trade` on consecutive, disjoint stretches of the tape |
| `MonteCarloEngine.MedianStatsMeaning` | decisiveml/montecarlo.py:128-157 | the aggregate of the 2500 paths holds their ruined and profitable shares, in [0, 100], and the median of every other field |
| `MonteCarloEngine.MedianStatsAsWritten` | decisiveml/montecarlo.py:142-157 | with line 145's test as written, which also medians the two flag columns, `_median_stats_run` gives the same aggregate |
| `MonteCarloEngine.MedianStatsOutcome` | decisiveml/montecarlo.py:128-162 | `_median_stats_run` fails only with an error a single path raises, and never from a positive starting equity with usable settings |
| `MonteCarloEngine.SweepIsPerLevel` | decisiveml/montecarlo.py:190-195 | level j of a sweep is `_median_stats_run` at that level on its own stretch of the tape, and the sweep's equity column is the level list |
| `MonteCarloEngine.SweepOutcome` | decisiveml/montecarlo.py:190-195 | a sweep fails only with an error a single path raises, and never on positive levels with usable settings |
| `MonteCarloEngine.RunTable` | decisiveml/montecarlo.py:164-188 | `run` raises the range error exactly for a base between -3 and 3; from a base of at least 4 with usable settings it succeeds with `steps` aggregates at strictly increasing equities `base + i * (base / 4)` |
| `MonteCarloEngine.FirstBelow` | decisiveml/montecarlo.py:199-202 | the index found is the first run below the target, and there is none only when every run is at or above it |
| `MonteCarloEngine.FirstBelowIsFirst` | decisiveml/montecarlo.py:199-201 | the first run below the target is the one the search returns |
| `MonteCarloEngine.RecommendationMeaning` | decisiveml/montecarlo.py:204-244 | `recommendation` fails on missing runs, raises ExcessiveBaseEquity iff every run is at or above 10%, and divides by zero iff a run qualifies and the dates coincide; otherwise it recommends the first run below 10%, passes iff risk <= 10 and ratio >= 2, and sets `months * 30 = days` and `avg_monthly_profit * months = profit` |
| `MonteCarloEngine.MonteCarlo.constructor` | decisiveml/montecarlo.py:42-49 | a new engine keeps the trade list and its length, with no settings and no runs |
| `MonteCarloEngine.MonteCarlo.Settings` | decisiveml/montecarlo.py:56-58 | the ruin level is stored; trades per year is stored unless the span is zero, which fails and leaves it unchanged |
| `MonteCarloEngine.MonteCarlo.SetRuinEquity` | decisiveml/montecarlo.py:65-66 | the ruin level is stored |
| `MonteCarloEngine.MonteCarlo.SetTradesPerYear` | decisiveml/montecarlo.py:68-70 | trades per year is stored unless the span is zero, which fails with ZeroDivisionError |
| `MonteCarloEngine.MonteCarlo.RandomTrade` | decisiveml/montecarlo.py:73-103 | one path equals `RandomTradeSpec` of the settings at the current tape position, and a success consumes one draw per trade |
| `MonteCarloEngine.MonteCarlo.PathStatistics` | decisiveml/montecarlo.py:80-101 | the ruin scan and the statistics loop compute `PathOf` of the drawn trades |
| `MonteCarloEngine.MonteCarlo.RuinScan` | decisiveml/montecarlo.py:80-87 | the loop with early exit flags ruin iff some prefix takes the equity below the ruin level |
| `MonteCarloEngine.MonteCarlo.Drawdown` | decisiveml/montecarlo.py:105-126 | the loop computes the maximum drawdown; it fails exactly on a zero-high-water-mark dip, and otherwise its result is non-negative and the largest instantaneous drawdown, or 0 |
| `MonteCarloEngine.MonteCarlo.MedianStatsRun` | decisiveml/montecarlo.py:128-162 | the 2500-run loop equals `MedianStatsSpec` at the current tape position, and a success consumes 2500 paths' worth of draws |
| `MonteCarloEngine.MonteCarlo.Run` | decisiveml/montecarlo.py:164-188 | `run` equals `RunSpec`; `runs` is replaced on success and unchanged on failure; a success consumes one 2500-path block of draws per level, so a later `run` on the same generator starts where this one ended |
| `MonteCarloEngine.MonteCarlo.RunEquityList` | decisiveml/montecarlo.py:190-195 | the sweep loop equals `SweepSpec`; `self.runs` is set to the results only once every level succeeded |
| `MonteCarloEngine.MonteCarlo.BestRun` | decisiveml/montecarlo.py:197-202 | `best_run` fails on missing or empty runs; otherwise it returns the first run below the target, or None when every run is at or above it |
| `MonteCarloEngine.MonteCarlo.Recommendation` | decisiveml/montecarlo.py:204-244 | `recommendation` equals `RecommendationSpec` of the stored runs |

## Findings

| source | as written | input that shows it | evidently intended | confidence | as-written member | corrected member |
|---|---|---|---|---|---|---|
| decisiveml/montecarlo.py:145 | `k != "is_ruined" or k != "is_profitable"` holds for every key, so the two flag columns are medianed too | key `"is_ruined"`: the first inequality is false and the second true, so the flag is medianed against the comment on line 144 | `and`: skip both flags. The returned aggregate is the same either way, since lines 151-156 overwrite both flags; only two 2500-element sorts are wasted. The key order does differ: with `or` the two flags enter the result dict before `returns_per_drawdown`, with `and` after it, so the column order of `run`'s DataFrame and the index order of `recommendation`'s Series change. The model does not represent key order | high; not executed | `Aggregation.AggregateAsWritten`, exhibited by `Aggregation.MedianTestAsWrittenKeepsFlags` | `Aggregation.Aggregate`, which the engine uses, with `Aggregation.MedianTestSkipsFlags` and `Aggregation.AggregateAsWrittenAgrees`; `MonteCarloEngine.MedianStatsAsWritten` states that `_median_stats_run` is the same with the test as written |

## Left out

- The weighted and cumulative-weight branch of `choices` (lines 23-31): the engine never passes weights, so it is unreachable.
- The real random generator: draws come from a caller-supplied tape. The statistical behaviour of the sweep over random tapes is not modelled. One example is that the ruined share should tend to fall as the starting equity rises, which depends on the distribution of the draws. Per path, `PathSimulation.RuinMonotoneInEquity` states the deterministic part.
- Logging calls: they have no effect on the results.
- pandas packaging: `run` returns the list of aggregates rather than a DataFrame. `recommendation` returns a record rather than a Series. The `pd.Series(None).empty` check is modelled as "no best run".
- Dates: start and end dates are integer day numbers, and `timedelta.days` is their difference.
- Floating point: money and percentages are exact reals, so rounding, overflow, infinities and NaN are not modelled. Truncation makes rounding visible in the integer `returns_pct` (lines 91-93): in doubles, a path from 100 ending at 115 gives `115 / 100 - 1` just below 0.15, so Python yields 14 where the model yields 15.
- Dict key order: the aggregate is a record, so the order of the keys of `_median_stats_run`'s result is not modelled.
- Python's dynamic typing: trade values and the ruin level are reals, and starting equities are integers, as `run` produces them.
- `PathSimulation.DrawdownBelowHundred`: the bound below 100% holds only while the equity stays positive. The ruin scan does not stop the path, so a path from a positive start that loses more than its capital has a drawdown above 100 (`PathSimulation.DrawdownAboveHundred`), and the median drawdown of a sweep level can then exceed 100 as well.
- `Statistics.Median`: requires non-empty data. The engine always passes 2500 values, so the StatisticsError of an empty list cannot arise.
- `MonteCarloEngine.MonteCarlo.RandomTrade`: says nothing of the tape position after a failed path. Python leaves the generator in some advanced state there, and the model leaves it unspecified.
- `MonteCarloEngine.MonteCarlo.MedianStatsRun`: likewise leaves the tape position unspecified after a failure.
- `MonteCarloEngine.MonteCarlo.RunEquityList`: likewise leaves the tape position unspecified after a failure.
- `MonteCarloEngine.MonteCarlo.Run`: likewise leaves the tape position unspecified after a failure.
- `MonteCarloEngine.Recommend`: a zero month count (equal dates) is modelled as ZeroDivisionError. With pandas scalars the division may instead produce an infinity or NaN.
- `_random_trade` is split into `RandomTrade`, `PathStatistics` and `RuinScan`. Together they run the same steps in the same order: assertions, sampling, ruin scan with early exit, then statistics over the whole path.
- The other modules of the repository are not part of this model: `decisiveml/indicators.py`, `decisiveml/helpers.py` and `decisiveml/trendscanning.py`, covering pandas indicators, market calendars and OLS trend scanning. The tests under `tests/` exercise only those modules.
