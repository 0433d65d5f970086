# Drift detection: a verified model

This project models the drift-detection core of the Taipy drift-detection demo in Dafny. The demo compares a reference dataset with a comparison dataset column by column:

- it splits the reference columns into categorical (`object` dtype) and numerical ones;
- it runs a two-sample Kolmogorov-Smirnov test on each numerical column;
- it runs a chi-squared test on rescaled value frequencies for each categorical column;
- it cuts every p-value to two decimals;
- it reports one row per column, flagged as drift when the p-value is strictly below 0.05.

The modules follow the program's structure:

| module | file | what it holds |
|---|---|---|
| `Frames` | frames.dfy | datasets as ordered named columns with a dtype tag; `dataset[col]` as `Select` |
| `Classifier` | classifier.dfy | `detect_categorical` / `detect_numerical`, as loops proved against `CategoricalNames` / `NumericalNames` |
| `PValue` | pvalue.dfy | the `int(p * 100) / 100` truncation and `ks_2samp` |
| `Counting` | counting.dfy | `unique()` (first-appearance order), `value_counts()`, and the rescaled frequency vectors of `chi_squared_2samp` |
| `PyDict` | pydict.dfy | a Python dict with insertion-ordered keys; assigning an existing key keeps its position |
| `Drivers` | drivers.dfy | `chi_squared_2samp`, `kolmogorov`, `chi_squared` |
| `Results` | results.dfy | `collect_results`, proved against the specification function `Collect` |
| `Pipeline` | pipeline.dfy | the scenario's task chain (classify, test, collect), as `Evaluate` against `Evaluation` |

The statistics themselves (`scipy.stats.ks_2samp` and `scipy.stats.chisquare`) are foreign code. They enter as function-valued parameters `ks` and `chisquare`, which return the raw p-value. Nothing is assumed about them.

`main.py` repeats the algorithm functions of `algorithms/algorithms.py`. Lines main.py:16-171 correspond to algorithms/algorithms.py:11-166, shifted by 5 lines. The one textual difference is the header of the two rescaling loops in `chi_squared_2samp`: `for i in range(len(unique))` at main.py:105,109 against `for i, _ in enumerate(unique)` at algorithms/algorithms.py:100,104. Both visit the indices 0, 1, … of the distinct values in order, so each function is modelled once, and the table below cites whichever copy states the property.

The code defines no error conditions of its own. Documentation mentioning schema or missing-column errors is not reflected in the code. The model follows the code:
- an empty dataset gives empty lists and an empty report;
- a requested column that a dataset lacks, where pandas would raise, is excluded by a precondition (`Requested`, `Comparable`).

## Model

| member | source | states |
|---|---|---|
| Classifier.DetectCategorical | algorithms/algorithms.py:11-25 | the loop returns exactly `CategoricalNames(dataset)`: the labels of the `object` columns, in column order |
| Classifier.DetectNumerical | main.py:33-47 | the loop returns exactly `NumericalNames(dataset)`: the labels of the non-`object` columns, in column order |
| Classifier.ClassificationInterleaves | algorithms/algorithms.py:22-24 | the column labels are an interleaving of the categorical and numerical lists, so each list is a subsequence of the column order |
| Classifier.ClassificationCounts | algorithms/algorithms.py:38-41 | the two list lengths add up to the column count, and together the lists hold exactly the column labels as a multiset |
| Classifier.ClassifiedFromColumns | main.py:27-29 | every categorical label is the label of some `object` column, and every numerical label is the label of some non-`object` column |
| Classifier.ClassificationPartition | main.py:26-47 | with unique labels, a column's label is categorical iff its dtype is `object`, and numerical iff it is not (so exactly one of the two); neither list repeats a label |
| Frames.SelectColumn | algorithms/algorithms.py:76 | with unique labels, `dataset[name]` of column i's label is column i's values |
| PValue.TruncateBounds | algorithms/algorithms.py:57 | the result is a whole number of hundredths; for p >= 0 it is r <= p < r + 0.01 with r >= 0; for p < 0 it rounds toward zero |
| PValue.TruncateUnitInterval | main.py:62 | a p-value in [0, 1] stays in [0, 1] |
| PValue.TruncateIdempotent | algorithms/algorithms.py:109 | truncating a truncated value changes nothing |
| PValue.TruncateMonotone | main.py:114 | truncation preserves order |
| PValue.TruncatePreservesVerdict | algorithms/algorithms.py:151 | the truncated value is below 0.05 iff the raw value is |
| PValue.TruncateAtThreshold | algorithms/algorithms.py:159 | 0.05 stays 0.05 and is not flagged; 0.049999 becomes 0.04 and is flagged |
| PValue.KsTwoSample | algorithms/algorithms.py:45-57 | the reported KS p-value is whole hundredths, within 0.01 below a non-negative raw p-value, and below 0.05 iff the raw one is |
| Counting.UniqueElements | algorithms/algorithms.py:92-93 | `unique()` lists no value twice and lists exactly the values of the series |
| Counting.UniqueFirstAppearanceOrder | main.py:97-98 | `unique()` lists the values in order of first appearance |
| Counting.UniqueOfDistinct | algorithms/algorithms.py:74-76 | a sequence without repeats is its own `unique()` |
| Counting.ExpectedShape | algorithms/algorithms.py:98-107 | the rescaled vector of series 1 has one entry per distinct value, in first-appearance order; entry i is count(u_i) * len(series 2) / len(series 1); it is empty when series 1 is empty (no division happens); for non-empty series 1 the entries sum to len(series 2) |
| Counting.ExpectedPositive | main.py:106-108 | every rescaled entry is positive when the other series is non-empty |
| Counting.ExpectedTotalsAgreeIff | algorithms/algorithms.py:108 | for non-empty series, the two vectors given to `chisquare` have equal totals iff the series have equal lengths |
| Counting.ExpectedLengthsMayDiffer | algorithms/algorithms.py:100-107 | the two vectors are indexed by each series' own distinct values, and their lengths can differ (2 against 1 for ['a','b'] versus ['a']) |
| Drivers.ExpectedFrequencies | main.py:105-112 | the index loop returns exactly the rescaled vector `Expected(s1, s2)`, with one entry per distinct value, summing to len(s2) when s1 is non-empty |
| Drivers.ChiSquaredPValue | algorithms/algorithms.py:80-109 | the chi-squared p-value of the rescaled vectors, cut to whole hundredths, within 0.01 below a non-negative raw value, and below 0.05 iff the raw value is |
| Drivers.ChiSquaredTwoSample | main.py:85-114 | the method computes `ChiSquaredPValue` of the two series |
| Drivers.Kolmogorov | algorithms/algorithms.py:60-77 | the dict's keys are the requested labels in request order (each repeated label once, at its first position); it has no other key; each requested label maps to the truncated KS p-value of (dataset[col], ref_dataset[col]) |
| Drivers.ChiSquared | algorithms/algorithms.py:112-129 | the same key-order and contents guarantees for the truncated chi-squared p-values |
| PyDict.Assign | algorithms/algorithms.py:76 | `d[k] = v` stores v under k, leaves other entries alone, and appends k to the order only when it is new |
| PyDict.FromPairs | main.py:79-82 | filling a dict by successive assignments keeps the dict invariant (unique ordered keys equal to the map's keys) |
| PyDict.FromPairsKeys | main.py:131-134 | the filled dict's key order is the distinct keys in first-insertion order, and it has no other key |
| PyDict.FromPairsValues | algorithms/algorithms.py:126-129 | when repeated keys carry equal values, every key maps to its paired value |
| PyDict.FromPairsDistinct | algorithms/algorithms.py:74-77 | with distinct keys, the dict lists exactly those keys in order, each with its own value |
| Results.RowsSnoc | algorithms/algorithms.py:147-154 | one loop iteration appends exactly one row (label, tag, value, flag) to the block |
| Results.CollectShape | algorithms/algorithms.py:143-165 | the report has one row per result: the "Chi-Squared" block in cat_results' key order, then the "Kolmogorov-Smirnov" block in num_results' key order; each p-value is copied unchanged; the four lists have equal length; each drift flag is the p-value strictly below 0.05 |
| Results.CollectResults | main.py:137-171 | the two append loops build exactly `Collect(num_results, cat_results)`, with agreeing rows |
| Pipeline.ClassifiedAreNames | configuration/config.py:31-42 | each label the classifiers produce is a column of the reference dataset, so the drivers' lookups succeed |
| Pipeline.ResultsDicts | configuration/config.py:31-42 | with unique labels, the KS dict's keys are the numerical columns and the chi-squared dict's keys are the categorical columns, in column order, each mapped to its own p-value |
| Pipeline.EvaluationColumns | configuration/config.py:19-48 | the scenario's report has one row per reference column: categorical columns first, then numerical, each block in column order; every column exists in both datasets; the flags agree with the p-values |
| Pipeline.EvaluationChiSquaredRow | configuration/config.py:37-48 | row i of the categorical block is the truncated chi-squared p-value of (comparison column, reference column), tagged "Chi-Squared", and is flagged iff the raw p-value is below 0.05 |
| Pipeline.EvaluationKolmogorovRow | configuration/config.py:31-48 | row (number of categorical columns + i) is the truncated KS p-value of numerical column i on (comparison column, reference column), tagged "Kolmogorov-Smirnov", and is flagged iff the raw p-value is below 0.05 |
| Pipeline.Evaluate | configuration/config.py:19-48 | the task chain (detect_numerical, detect_categorical, kolmogorov, chi_squared, collect_results) produces exactly `Evaluation` of the two datasets |

## Left out

- `scipy.stats.ks_2samp` and `scipy.stats.chisquare` are foreign floating-point statistics. They are parameters returning a real, and the model assumes nothing about them, not even p in [0, 1]. Their own errors are not modelled, including `chisquare` rejecting vectors of different lengths or different totals (`Counting.ExpectedTotalsAgreeIff` and `Counting.ExpectedLengthsMayDiffer` show when that happens).
- IEEE-754 rounding is not modelled: `p * 100`, the rescaled frequencies and the `< 0.05` comparison are computed over exact reals.
- pandas dtype inference is not modelled: each column carries its dtype as a tag.
- Missing values (NaN) are not modelled. `unique()` keeps NaN but `value_counts()` drops it, so the frequency lookup would raise.
- Duplicate column labels are excluded by `WellFormed`. pandas would return a frame rather than a series for `dataset[col]`.
- A missing column is a precondition (`Requested`, `Comparable`) rather than the `KeyError` pandas raises.
- `merge_data` builds chart inputs for two fixed columns and is presentation only.
- The Taipy and GUI plumbing is not modelled: scenario creation, CSV reading, `notify` on any drift flag, page markup and chart options, the page callbacks in pages/Drift/Drift.py, and pages/Prediction/Prediction.py.
- The Taipy `Config` calls are not modelled; only their task order is kept, as `Pipeline.Evaluate`.
- The scheduler may run the two test tasks concurrently. Nothing in the code depends on that, and it is not modelled.
