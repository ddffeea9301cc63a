# Weighted approximate aggregation of Table_CVAE_AQP

Table_CVAE_AQP answers aggregate SQL-like queries (`sum(c)`, `avg(c)`,
optionally grouped and over a join of two or three tables) from *samples*
instead of the full data. Each sample row carries one `<table>_rate` column
per source table: the fraction of that table that was sampled. This model
covers the arithmetic at the centre of `main.py`:

- `sample_aggregation` joins the sampled tables. It then takes one of four paths:
  - Mode A: a group-by, no outlier flag. Every row is weighted by the inverse of the product of its rates.
  - Mode B: a group-by and the outlier flag. Rows are first grouped by the group-by columns *and* the rate columns. Each subgroup is corrected by its combined rate, and the corrected subgroups are re-summed per group. Averages are the corrected sum divided by the corrected count.
  - Mode C: no group-by. The same two-phase correction as Mode B, collapsed to one row.
  - The single-table path: per group, sums are divided by the group's mean rate.
- `ground_truth_aggregation` gives the exact answer on the full data.
- `pd.concat(rounds).groupby(level=0).mean()` merges several estimation rounds.
- `compare_aggregation` computes relative errors, and `diff.values.sum() / diff.size` averages them.

Each step the source performs by mutating a frame is an imperative method:
- building the aggregation dictionaries;
- the running product of rate columns;
- adding the `scale_` columns;
- dividing by the rate;
- deleting columns;
- deriving the averages.

Each method is proved equal to a specification function. The properties are
then proved about those functions:
- what every estimate is, in terms of the joined rows;
- that Mode A and Mode B agree on sums, and on averages when the rate is constant;
- that on the whole data (all rates 1) Mode A and Mode B over two tables and the single-table path reproduce the ground truth group by group, and Mode C gives the exact totals and mean over the join;
- that the round merge is order-independent, idempotent on identical rounds and stays within the bounds of the rounds;
- what each relative-error cell and the total error are, including the `inf` and `NaN` cases.

Modules:
- `Frames`: rows as `map<string, real>`, frames, sums and rate products.
- `Grouping`: groups in first-appearance order.
- `Join`: the inner merge.
- `Aggregation`: named aggregations `(source, 'mean'|'sum'|'size')` and `groupby().agg()`.
- `Config`: the query and table configurations.
- `Scaling`: Mode A's `scale_` columns.
- `Dictionaries`: the per-path aggregation dictionaries.
- `Columns`: the column-level edits to an aggregated table.
- `SampleAggregation`: the methods and the dispatch.
- `ModeAEstimates`, `ModeBEstimates`, `ModeCEstimates`, `SingleTableEstimates` and `Weights`: what each path computes.
- `GroundTruth`.
- `Agreement`: how the paths relate to each other and to the truth.
- `RoundMerge`.
- `RelativeError`.

## Model

| member | source | states |
|---|---|---|
| Config.RateCols | main.py:242 | one rate column per table configuration, in order, each named `<name>_rate` and so recognised as a rate column |
| Join.JoinOnExactly | main.py:259 | a row is in the inner merge exactly when it is the union of a left row and a right row whose key columns are equal |
| Join.MatchesExactly | main.py:259 | the right-hand matches of one left row are exactly the right rows with an equal key |
| Join.PairsExactly | main.py:259 | the merged rows of two row sequences are exactly the matching pairs |
| Join.JoinSamplesExactly | main.py:258-261 | with two join columns the joined sample is exactly the matching pairs of the first two samples; with three, exactly the matching triples chained through the second join column |
| Join.JoinOnValid | main.py:259 | merging frames with disjoint columns gives a well-formed frame, and positive rates stay positive |
| Join.JoinSamplesValid | main.py:258-261 | the joined sample is well-formed and all its rates are positive |
| Aggregation.Put | main.py:275-284 | after `d[name] = spec`, `name` maps to `spec`, every other name keeps its specification, the names are exactly the old ones plus `name`, and the old names keep their order at the front |
| Aggregation.PutAllFresh | main.py:307-309 | a loop that stores distinct columns the dictionary does not yet hold, each under its own name (the rate columns here, the re-summed columns at lines 324-327), appends them in the loop's order |
| Aggregation.PutEach | main.py:274-284 | the loop over columns stores the same dictionary as the specification `PutAll` |
| Aggregation.PutAllNames | main.py:274-284 | after the loop, a name is in the dictionary exactly when it was there before or is the loop's name for one of the columns |
| Aggregation.PutAllStores | main.py:274-284 | each column's name maps to that column's aggregation, and the other names keep their previous aggregation |
| Aggregation.GroupBy | main.py:295 | `groupby().agg()` with a well-formed dictionary gives a well-formed table: every entry holds exactly the dictionary's columns (the value of each cell is stated by `GroupByValue`) |
| Aggregation.GroupByValue | main.py:295 | each group is non-empty; a `sum` aggregation is the group's total, `mean` is the total over the group size, and `size` is the group size |
| Aggregation.GroupFrameTotal | main.py:313 | a `sum` aggregation of a grouped frame is the sum of the source column over the group's rows |
| Aggregation.GroupFrameMean | main.py:383 | a `mean` aggregation of a grouped frame is the group's total over its non-zero size |
| Aggregation.GroupFrameSize | main.py:312-313 | a `size` aggregation is the number of rows in the group |
| Dictionaries.MeasureDictSpecs | main.py:274-280 | the measure dictionary holds exactly the `avg(c)` and `sum(c)` names; `avg(c)` means `c` and `sum(c)` sums `c` (or `scale_c` in Mode A) |
| Dictionaries.BaseDictSpecs | main.py:274-284 | adding the rate columns adds exactly those names, each averaged |
| Dictionaries.BaseDictRates | main.py:282-284 | the rate columns of the dictionary's output columns are exactly the configured rate columns, in order |
| Dictionaries.MeasureDictNoRates | main.py:274-280 | no `avg(...)` or `sum(...)` name is mistaken for a rate column |
| Dictionaries.ModeBDictFacts | main.py:300-312 | the Mode B dictionary is the plain one plus `cnt`, which counts the rows of `avg_cols[0]`; everything else is unchanged |
| Dictionaries.ModeCDictFacts | main.py:337-348 | the Mode C dictionary keeps only the `sum...` names plus `cnt`; none of them is a rate column, `rate`, or a configured rate |
| Dictionaries.SumOnly | main.py:347 | the filter keeps exactly the names starting with `sum`, with their aggregations |
| Scaling.CombinedRates | main.py:289-292 | the running product over the columns ending in `_rate` gives, for each row, the product of all its rate columns |
| Scaling.AddScaleEach | main.py:287-293 | the nested loop over configurations and numeric columns adds the same columns as the specification `AddScaleAll` |
| Scaling.AddScaleColumns | main.py:286-293 | adding the `scale_` columns for every configuration's numeric columns gives the specification frame |
| Scaling.AddScale | main.py:289-293 | one `scale_c` column is `c` divided by the row's current rate product; the rows and rate products are otherwise unchanged |
| Scaling.ScaledValue | main.py:287-293 | after all columns are scaled, `scale_c` of every row is `c` over the product of the row's rates |
| Scaling.UnscaledValue | main.py:287-293 | scaling leaves every column that is not a `scale_` name unchanged |
| Columns.DropRateColumns | main.py:297-299 | deleting every column that ends in `_rate` leaves exactly the other columns, with the rows otherwise unchanged |
| Columns.DropRates | main.py:297-299 | a column survives exactly when it is not a rate column; the entries keep their keys |
| Columns.CollapseRateColumns | main.py:316-321 | setting `rate` to 1, multiplying in each rate column and deleting it gives the specification `CollapseRates` |
| Columns.CollapseRates | main.py:316-321 | the result has exactly the non-rate columns plus `rate`, one entry per input entry, and `rate` is the product of the entry's rate columns |
| Columns.DivideColumns | main.py:323-326 | the loop that divides by the rate gives the specification `DivideAll` |
| Columns.DivideAndCollect | main.py:322-327 | the same loop divides every `sum...` and `cnt` column by `rate` and collects a `sum` re-aggregation for exactly those columns |
| Columns.DividedValue | main.py:325-326 | a selected column is divided by the divisor in every entry |
| Columns.DeletedKeptValue | main.py:360-363 | after dividing and deleting the divisor, the unselected columns keep their values |
| Columns.Resum | main.py:323-327 | the re-aggregation sums exactly the `sum...` and `cnt` columns |
| Columns.DeriveAverages | main.py:331-334 | the loop over `avg_cols` gives the specification `DeriveAll` |
| Columns.DeriveAllValue | main.py:331-334 | each derived `avg(c)` is `sum(c)` over `cnt` in the same entry |
| Columns.DeriveAllKeeps | main.py:331-334 | deriving averages leaves every other column unchanged |
| Columns.FinishShape | main.py:331-335 | after the averages are derived and `cnt` is deleted, the entries keep their keys, and the columns are the inputs' columns without `cnt` plus every `avg(c)` |
| Columns.FinishKeepsSum | main.py:331-335 | finishing keeps every `sum(c)` value |
| Columns.FinishDerivesMean | main.py:331-335 | finishing gives `avg(c) = sum(c) / cnt` |
| Columns.ResetKeepsValue | main.py:350 | after `reset_index` every former cell keeps its value |
| Columns.ResetKeyValue | main.py:350 | each new key column holds the corresponding component of the entry's key |
| Columns.SumRowsAppend | main.py:364 | the one-row total of two tables' entries taken together is, column by column, the sum of their two totals |
| Columns.SumRowsSingle | main.py:364 | the total of a one-entry table is that entry's row |
| SampleAggregation.ComputeModeA | main.py:273-299 | the imperative Mode A (dictionary, scale columns, group, drop rates) equals the specification `ModeA` |
| SampleAggregation.ComputeModeB | main.py:300-335 | the imperative Mode B equals the specification `ModeB` |
| SampleAggregation.ComputeModeC | main.py:336-371 | the imperative Mode C equals the specification `ModeC` |
| SampleAggregation.ComputeSingleTable | main.py:372-389 | the imperative single-table path equals the specification `SingleTable` |
| SampleAggregation.ComputeEstimate | main.py:237-390 | on every input whose path finds the columns it reads (`Admissible`), `sample_aggregation` chooses the path by the number of samples, the group-by and the outlier flag, and returns that path's estimate |
| SampleAggregation.JoinedReady | main.py:258-261 | the joined sample's rates are distinct, positive columns, so every row can be divided by its rate product |
| SampleAggregation.ModeBCountPositive | main.py:313-330 | every corrected Mode B count is positive, so the `avg` division at line 334 is defined |
| SampleAggregation.ModeCCountPositive | main.py:349-364 | the corrected Mode C count is positive, so the `avg` division at line 370 is defined |
| ModeAEstimates.ModeAShape | main.py:273-299 | Mode A has one entry per group of the joined sample, in order, and its columns are exactly the `avg(c)` and `sum(c)` names |
| ModeAEstimates.ModeASum | main.py:280-295 | Mode A's `sum(c)` is the sum over the group of `c` divided by each row's rate product |
| ModeAEstimates.ModeASumOfExistingScale | main.py:280-295 | for a summed column that is not a configured numeric column, Mode A's `sum(c)` is the group's total of the `scale_c` column the join already holds |
| ModeAEstimates.ModeAMean | main.py:274-295 | Mode A's `avg(c)` is the unweighted mean of `c` over the group |
| ModeAEstimates.ScaledGroups | main.py:287-295 | adding `scale_` columns does not change the groups |
| ModeBEstimates.ModeBShape | main.py:300-335 | Mode B has one entry per group, in order, and exactly the `avg(c)` and `sum(c)` columns |
| ModeBEstimates.ModeBSum | main.py:313-330 | Mode B's `sum(c)` is the sum over the group's rate subgroups of each subgroup's total over its combined rate |
| ModeBEstimates.ModeBMean | main.py:313-334 | Mode B's `avg(c)` is the corrected sum over the corrected (positive) count |
| ModeBEstimates.ModeBCount | main.py:312-330 | when the join's rate columns are exactly the configured ones (`RateColumns(j.columns) == rates`), the corrected count is the group's sum of inverse rate products |
| ModeBEstimates.ModeBSumIsWeighted | main.py:313-330 | when the join's rate columns are exactly the configured ones (`RateColumns(j.columns) == rates`), Mode B's `sum(c)` equals the group's sum of `c` over each row's rate product (the Mode A weighting) |
| ModeBEstimates.ModeBMeanUnderConstantRate | main.py:313-334 | when the join's rate columns are exactly the configured ones (`RateColumns(j.columns) == rates`), with one rate product throughout, Mode B's `avg(c)` is the plain group mean |
| ModeBEstimates.SubgroupTotals | main.py:313 | each subgroup's `sum(c)` is the subgroup's total of `c`, and its `cnt` is its size |
| ModeBEstimates.SubgroupRate | main.py:316-321 | each subgroup's collapsed `rate` is the product of its rate-key components |
| ModeBEstimates.CorrectedSubgroup | main.py:323-326 | each corrected subgroup holds its total and its count, each divided by its rate |
| ModeBEstimates.RegroupedKeys | main.py:330 | regrouping the corrected subgroups by the group-by prefix gives the groups of the joined sample |
| ModeBEstimates.RegroupedTotals | main.py:330 | each regrouped entry's `sum(c)` and `cnt` are the sums of the corrected values over that group's subgroups |
| ModeBEstimates.ConstantRateSums | main.py:313-330 | at a constant rate `rho`, the weighted total is the plain total over `rho` and the weighted count is the size over `rho` |
| ModeCEstimates.ModeCShape | main.py:336-371 | Mode C is a single row with exactly the `avg(c)` and `sum(c)` columns |
| ModeCEstimates.ModeCSum | main.py:349-364 | Mode C's `sum(c)` is the sum over the rate groups of each group's total over its combined rate |
| ModeCEstimates.ModeCMean | main.py:349-370 | Mode C's `avg(c)` is the corrected sum over the corrected (positive) count |
| ModeCEstimates.ModeCSumIsWeighted | main.py:349-364 | when the join's rate columns are exactly the configured ones (`RateColumns(j.columns) == rates`), Mode C's `sum(c)` is the sum over all joined rows of `c` over the row's rate product |
| ModeCEstimates.ModeCMeanIsWeighted | main.py:349-370 | when the join's rate columns are exactly the configured ones (`RateColumns(j.columns) == rates`), Mode C's `avg(c)` is the rate-weighted mean of `c` over all joined rows |
| ModeCEstimates.RateGroupTotals | main.py:349 | each rate group's `sum(c)` is its total of `c`, and `cnt` is its size |
| ModeCEstimates.RateGroupProduct | main.py:350-357 | each rate group's collapsed `rate` is the product of its rate-key components |
| ModeCEstimates.SummedTotals | main.py:360-364 | the summed row holds the sums over the rate groups of the corrected totals and counts |
| SingleTableEstimates.SingleShape | main.py:373-389 | the single-table result has one entry per group, and its columns are the `avg`/`sum` names plus the rate columns other than the first |
| SingleTableEstimates.SingleSum | main.py:383-388 | `sum(c)` is the group's total of `c` over the group's (positive) mean first rate |
| SingleTableEstimates.SingleMean | main.py:373-383 | `avg(c)` is the plain group mean |
| SingleTableEstimates.GroupRate | main.py:382-383 | each group's first rate column is that rate's mean over the group |
| SingleTableEstimates.SingleSumAtFullRate | main.py:383-388 | at rate 1, `sum(c)` is the group's exact total |
| Weights.GroupedWeightedSum | main.py:313-330 | a group's rate-weighted sum equals the sum over its rate subgroups of each subgroup's total over its rate |
| Weights.UngroupedWeightedSum | main.py:349-364 | the rate-weighted sum of all rows equals the sum over the rate groups of each group's total over its rate |
| Weights.SubgroupRate | main.py:313 | every row of a rate subgroup has the rate product given by the subgroup's key |
| GroundTruth.TruthInputRows | main.py:223-224 | the exact answer's input rows are exactly the matching pairs of the first two tables |
| GroundTruth.TruthShape | main.py:204-228 | the ground truth has one entry per group and exactly the `avg(c)` and `sum(c)` columns |
| GroundTruth.TruthSum | main.py:209-228 | the ground-truth `sum(c)` is the group's exact total |
| GroundTruth.TruthMean | main.py:204-228 | the ground-truth `avg(c)` is the group's exact mean over its non-empty group |
| Agreement.ModeAModeBSums | main.py:279-330 | when the join's rate columns are exactly the configured ones (`RateColumns(j.columns) == rates`), on the same joined sample Mode A and Mode B give the same groups and the same `sum(c)` |
| Agreement.ModeAModeBMeans | main.py:274-334 | when the join's rate columns are exactly the configured ones (`RateColumns(j.columns) == rates`), at a constant rate product Mode A and Mode B give the same `avg(c)` |
| Agreement.ModeASumIsTruth | main.py:85 | when every rate is 1, Mode A's `sum(c)` equals the ground truth on the same tables, group by group |
| Agreement.ModeAMeanIsTruth | main.py:204-228 | Mode A's `avg(c)` equals the ground truth's, at any rates |
| Agreement.SingleIsTruth | main.py:85 | when every rate is 1, the single-table `sum(c)` and `avg(c)` equal the ground truth |
| Agreement.ModeCAtFullRate | main.py:85 | when the join's rate columns are exactly the configured ones (`RateColumns(j.columns) == rates`), and every rate is 1, Mode C's `sum(c)` is the exact total and `avg(c)` the exact mean |
| Agreement.CountAtFullRate | main.py:85 | at rate 1 the weighted count of any rows of the frame is their number |
| Agreement.ModeBSumAtFullRate | main.py:300-335 | when the join's rate columns are exactly the configured ones (`RateColumns(j.columns) == rates`), and every rate is 1, Mode B's `sum(c)` is the group's plain total of `c` |
| Agreement.CorrectedTotalAtFullRate | main.py:313-330 | when the join's rate columns are exactly the configured ones (`RateColumns(j.columns) == rates`), and every rate is 1, a group's corrected subgroup totals of `c` add up to its plain total |
| Agreement.CorrectedCountAtFullRate | main.py:312-330 | when the join's rate columns are exactly the configured ones (`RateColumns(j.columns) == rates`), and every rate is 1, a group's corrected subgroup counts add up to its number of rows |
| Agreement.ModeBMeanAtFullRate | main.py:300-335 | when the join's rate columns are exactly the configured ones (`RateColumns(j.columns) == rates`), and every rate is 1, Mode B's `avg(c)` is the group's plain total of `c` over its (positive) number of rows |
| Agreement.ModeBIsTruth | main.py:85 | when the join's rate columns are exactly the configured ones (`RateColumns(j.columns) == rates`), and every rate is 1, Mode B over two tables gives the ground truth's groups, `sum(c)` and `avg(c)` |
| Agreement.WeightedAtFullRate | main.py:85 | at rate 1 the weighted sum is the plain sum |
| RoundMerge.ColumnsOf | main.py:540 | the merged columns are exactly the columns of some round |
| RoundMerge.MergeKeys | main.py:540 | a key is merged exactly when some round has an entry with that first-level key |
| RoundMerge.MergeValue | main.py:540 | a merged cell exists exactly when some round holds a value for it, and it is the mean of those values (missing values are skipped) |
| RoundMerge.MergePermutation | main.py:540 | reordering the rounds changes neither the merged keys nor any merged row |
| RoundMerge.MergeCopies | main.py:540 | merging `n >= 1` copies of one round gives that round's merged row |
| RoundMerge.MergeBounds | main.py:540 | a merged value lies between any bounds that hold for every round's value for that key and column |
| RoundMerge.SumByRounds | main.py:540 | a sum over the concatenated entries of one key is the sum of the rounds' sums |
| RelativeError.Lookup | main.py:98 | alignment finds a value only from an entry with that key holding that column, and nothing when the key is absent |
| RelativeError.Cell | main.py:98 | the cell is NaN when a side is missing or both are 0, +inf when only the truth is 0, and otherwise the `v` with `v * truth = |truth - est|` |
| RelativeError.FillNa | main.py:102 | `fillna(1)` removes every NaN, turns it into 1 and keeps every other score |
| RelativeError.Compare | main.py:92-103 | the error table is rectangular over the union of both tables' keys and columns and holds no NaN |
| RelativeError.RelativeCell | main.py:98-102 | with non-zero truth the score is finite, `score * truth = |truth - est|`, it is 0 exactly when the estimate is exact, and its sign follows the truth's |
| RelativeError.ZeroTruthCell | main.py:98-102 | with zero truth an exact estimate scores 1 and any other estimate +inf |
| RelativeError.MissingScoresOne | main.py:98-102 | a cell missing on either side scores 1 |
| RelativeError.UnmatchedKey | main.py:98-102 | a key present on one side only scores 1 in every column |
| RelativeError.UnmatchedColumn | main.py:98-102 | a column present on one side only scores 1 for every key |
| RelativeError.CompareWithItself | main.py:98-102 | comparing a table with itself scores 0 on non-zero values and 1 on zero values |
| RelativeError.PerfectEstimate | main.py:98-102 | an estimate equal to a truth with distinct keys and no zero value scores 0 everywhere, and its total error is 0 |
| RelativeError.DisjointEstimate | main.py:98-102 | an estimate sharing no key with the truth scores 1 everywhere, and its total error is 1 |
| RelativeError.TotalIsMean | main.py:555 | with finite cells, the total error is the mean of all `keys * columns` cells |
| RelativeError.TotalInfinite | main.py:555 | without NaN, the total is +inf exactly when some cell is +inf |
| RelativeError.TotalBounds | main.py:555 | the total of finite cells lies within any bounds that hold for every cell |
| RelativeError.CompareTotalDefined | main.py:140 | the total of a non-empty comparison is never NaN |

## Left out

- Group and row order: pandas sorts group keys and `concat`/alignment produce a sorted union. The model keeps first-appearance order. Every property is stated per key, so it does not depend on order.
- Column names: the `_x`/`_y` suffixes that `pd.merge` adds to clashing column names are not modelled. `SampleAggregation.Admissible` (through `Join.JoinableSamples`) and `GroundTruth.TruthReady` require the joined tables to have disjoint columns.
- Layout: the MultiIndex layout of group keys is modelled as a key sequence per entry.
- Mode C on an empty join (pandas gives NaN averages) is excluded by requiring a non-empty join.
- Failures: a `KeyError` or `IndexError` is stated as a precondition rather than modelled as an error result. `SampleAggregation.Admissible` requires every column the chosen path reads: the group-by, averaged, numeric and rate columns, a `scale_c` column for every Mode A `sum(c)`, the summed columns, and a `sum(c)` for every `avg(c)` in Modes B and C. It also requires non-empty `avg_cols` in Modes B and C. `GroundTruth.TruthReady` requires the join keys, the group-by, averaged and summed columns, a non-empty group-by, and at least one averaged or summed column, since with neither the aggregation dictionary is empty and pandas raises `TypeError` for `agg()` with no aggregations (main.py:204-228). On the single-table path `SampleAggregation.Admissible` also requires a non-empty group-by, since pandas raises `ValueError` for `groupby(by=[])` (main.py:383).
- ModeAEstimates.ModeASum: stated only for `c` among the configured numeric columns; for any other summed column the source sums a `scale_c` column the join already holds, which ModeAEstimates.ModeASumOfExistingScale states. It is also proved only when no `scale_c` name is itself a numeric, group-by or averaged column (`FreshScaleNames`, part of `ModeAReady`). Otherwise the source overwrites a column it later reads, and the model does not state what happens then. The same restriction applies through `ModeAReady` to ModeAEstimates.ModeAShape, ModeAEstimates.ModeAMean and ModeAEstimates.ScaledGroups, and to Agreement.ModeAModeBSums, Agreement.ModeAModeBMeans, Agreement.ModeASumIsTruth and Agreement.ModeAMeanIsTruth.
- SampleAggregation.ComputeEstimate: requires positive rates. On a zero rate pandas does not raise but yields infinite or NaN estimates; the model does not cover that case.
- SingleTableEstimates.SingleSum: requires that the first rate column does not start with `sum`. Such a column would be divided by itself after the sums, and the model does not cover that case.
- SampleAggregation.ComputeEstimate: in Mode C, also requires that no rate column starts with `sum`. Otherwise the `startswith('sum')` filter would keep a rate column as a measure.
- Frames.Val: reads a missing cell as 0. Where the source would raise, `Admissible` and `TruthReady` exclude the case, so a 0 never stands for a missing column.
- SampleAggregation.ComputeEstimate: in Mode A, requires that no numeric column's `scale_` name ends in `_rate` (`ScaleSafe`), which rules out numeric columns whose names end in `_rate`. The source accepts them; its later scale columns then also divide by the new `scale_..._rate` column, and the model does not state what that gives.
- Rate columns: Mode A multiplies every column whose name ends in `_rate` (main.py:289-292), including data columns such as `interest_rate`; Modes B and C use only the configured `rate_cols`. The model computes each path as the source does. The lemmas that compare Mode B or C with the Mode A weighting (the `...IsWeighted`, `ModeAModeB...`, `...AtFullRate` and `ModeBIsTruth` lemmas) are stated only when the join's rate columns are exactly the configured ones.
- Floating point and missing values: cells are reals, so float64 rounding is not modelled, and the exact equalities proved here hold over the reals only. NaN input cells are not modelled either: pandas `sum` and `mean` skip them, `size` counts them (the `cnt` at main.py:312 and 348), and `groupby` drops rows with a NaN key. On data with missing values, Modes B and C's `avg = sum / cnt` therefore differs from the pandas mean.
- RelativeError.Compare: the pandas alignment is modelled as the union of keys and columns, and the first entry with a key decides its value. With the distinct keys pandas produces there is only one such entry.
- Reading the ground truth from CSV (`index_col=0` keeps only the first group-by column as the index) is not modelled. The truth is passed in as a table.
- `compare_aggregation_norm` and `compare_aggregation_norm_var` are left out because they use `np.exp`, which needs floating point.
- `stratified_allocation` is left out: no code path calls it, and it works on integer truncation of sample sizes, not on the aggregation.
- `sample_aggregation_prev` is left out: it is an earlier version of `sample_aggregation` that no code path calls.
- `sample_list_combination` is dead code and is left out.
- Sampling (CVAE training, generation and random sampling), threads, timing, logging, CSV I/O and the command line are not modelled. Samples, configurations and the rounds to merge are parameters.
- The debugging `print` calls in Mode C are left out.
