# Dumb baseline predictors, modelled in Dafny

The repository has a small family of baseline predictors. They give a reference
score that real models must beat. Each predictor is built once from the
training targets. After that it predicts every queried record with the same
statistic of those targets, and it ignores the records' feature values. There
are three variants:

- `DumbRegressor` predicts the arithmetic mean.
- `DumbOrdinalClassifier` predicts the median.
- `DumbNominalClassifier` predicts a mode (a most frequent value).

The model has two modules:

- `Statistics` (`statistics.dfy`) replaces the numerics-library calls with
  explicit definitions. `Mean` is the sum divided by the count. `Median` is the
  middle of the insertion-sorted values, or the average of the two middle values
  when the count is even. `Mode` is a value of maximal frequency, where `Count`
  is the value's multiplicity in the sequence. The module also holds the lemmas
  about these statistics: bounds, invariance under reordering, uniqueness of the
  sorted order, and the characterisation of ties.
- `Baselines` (`baselines.dfy`) models `py_lib/baselines.py`. The abstract base
  class and its three subclasses become one tagged datatype, `Predictor<T>`,
  with the variants `Regressor`, `OrdinalClassifier` and `NominalClassifier`.
  Building a value of this datatype is the model of `__init__`
  (`py_lib/baselines.py:16-21`): it stores the targets, and a datatype value
  cannot be changed afterwards. The numeric variants hold `seq<real>`. The
  nominal variant holds `seq<T>` for any type of labels with equality.
  `SinglePredict` matches on the variant, like the overridden
  `_single_predict`. `Predict` takes a one- or two-dimensional feature batch
  (`Features<F>`). It returns `Full(RecordCount(features), SinglePredict(p))`,
  which models `np.full((features.shape[0],), ...)`.

The numbers are Dafny's exact `real`s, so no floating-point rounding is
modelled. The source does not check that the targets are non-empty. On an
empty series `np.mean` and `np.median` return NaN (py_lib/baselines.py:51, 63).
For the nominal classifier, `stats.mode` of an empty series has no first
mode, so `modes[0]` raises IndexError (py_lib/baselines.py:76-77). `predict`
calls `_single_predict()` even for a batch with zero records
(py_lib/baselines.py:38), so the NaN or the IndexError arises on every call. The model
makes non-empty targets a precondition, `Predictor.HasTargets()`. That
precondition rules out both the NaN result and the IndexError path, and the
model has no error path for them.

A batch with zero records gives an empty array (`np.full((0,), ...)`,
py_lib/baselines.py:38), and so does `Predict` (see `EmptyBatchExample`).

## Model

| member | source | states |
|---|---|---|
| Baselines.VectorAsColumn | py_lib/baselines.py:32-37 | `RecordCount` is the definition of `features.shape[0]` (the length of a vector, the number of rows of a matrix); this lemma only restates the "1 or 2 dimensional array" remark of the docstring: a one-dimensional batch has as many records as the single-column two-dimensional batch holding the same values |
| Baselines.Predict | py_lib/baselines.py:31-38 | the result has exactly one entry per record of the batch (`features.shape[0]`, including 0), and every entry is the variant's single statistic |
| Baselines.Full | py_lib/baselines.py:38 | `n` copies of a value: the length is `n` and every entry equals the value |
| Baselines.PredictIgnoresFeatureValues | py_lib/baselines.py:32-33 | two batches with the same record count get identical predictions, whatever their feature values or dimension |
| Baselines.SinglePredict | py_lib/baselines.py:23-29 | regressor: a number between the smallest and largest target; ordinal classifier: a number between the smallest and largest target that equals the middle of every ascending arrangement of the targets; nominal classifier: a label that occurs in the targets and that no target occurs more often than |
| Baselines.RegressorPredictsMean | py_lib/baselines.py:45-51 | every prediction of a regressor is the mean (sum divided by count) of its targets |
| Baselines.OrdinalPredictsMedian | py_lib/baselines.py:58-63 | every prediction of an ordinal classifier is the median of its targets |
| Baselines.NominalPredictsUniqueMode | py_lib/baselines.py:70-77 | when one label occurs strictly more often than every other label, every prediction of a nominal classifier is that label |
| Baselines.RegressorExample | py_lib/baselines.py:45-51 | targets [1, 2, 3, 4] and three records give [2.5, 2.5, 2.5] |
| Baselines.OrdinalOddExample | py_lib/baselines.py:58-63 | any arrangement of [1, 2, 3, 4, 100] with two records gives [3, 3] |
| Baselines.OrdinalEvenExample | py_lib/baselines.py:58-63 | any arrangement of [1, 2, 4, 4] with one record gives [3], the average of the two middle values |
| Baselines.NominalExample | py_lib/baselines.py:70-77 | targets ["a", "b", "b", "c"] and two records give ["b", "b"] |
| Baselines.EmptyBatchExample | py_lib/baselines.py:37-38 | a batch with zero records gives an empty prediction, not an error |
| Statistics.Mean | py_lib/baselines.py:51 | the mean (sum divided by count) of non-empty targets lies between the smallest and the largest target |
| Statistics.SumOverCountWithin | py_lib/baselines.py:51 | if every target lies between two bounds, so does the sum divided by the count |
| Statistics.MeanWithin | py_lib/baselines.py:51 | if every target lies between two bounds, the mean lies between them too |
| Statistics.MeanOfConstant | py_lib/baselines.py:51 | the mean of targets that are all equal is that value |
| Statistics.MeanPermutation | py_lib/baselines.py:51 | reordering the targets does not change the mean |
| Statistics.SumPermutation | py_lib/baselines.py:51 | reordering the targets does not change their sum |
| Statistics.SumBounds | py_lib/baselines.py:51 | a sum of `n` values that lie between `lo` and `hi` lies between `n * lo` and `n * hi` |
| Statistics.QuotientBounds | py_lib/baselines.py:51 | helper in real arithmetic for the mean's bounds: dividing by a positive count keeps the bounds that were multiplied by that count |
| Statistics.Min | py_lib/baselines.py:51 | the result occurs in the sequence and is at most every element |
| Statistics.Max | py_lib/baselines.py:51 | the result occurs in the sequence and is at least every element |
| Statistics.Insert | py_lib/baselines.py:63 | inserting into an ascending sequence gives an ascending sequence that holds the old elements plus the new one |
| Statistics.Sort | py_lib/baselines.py:63 | the result is ascending, has the input's length and is a permutation of the input |
| Statistics.SortedUnique | py_lib/baselines.py:63 | two ascending sequences with the same elements are equal, so the sorted order is unique |
| Statistics.SumInsert | py_lib/baselines.py:51 | helper for `SumPermutation`: insertion adds the inserted value to the sum |
| Statistics.SumSort | py_lib/baselines.py:51 | helper for `SumPermutation`: sorting does not change the sum |
| Statistics.Median | py_lib/baselines.py:63 | the median lies between the smallest and the largest target |
| Statistics.MedianOfSortedPermutation | py_lib/baselines.py:58-63 | for every ascending arrangement of the targets, the median is its middle element when the count is odd and the average of its two middle elements when the count is even |
| Statistics.MedianPermutation | py_lib/baselines.py:63 | reordering the targets does not change the median |
| Statistics.MostFrequentOf | py_lib/baselines.py:76 | the result is one of the candidates, and no candidate occurs more often than it |
| Statistics.Mode | py_lib/baselines.py:70-77 | the result occurs in the targets, and no value occurs strictly more often than it |
| Statistics.ModeTies | py_lib/baselines.py:72 | a value is a mode exactly when it occurs in the targets as often as the value `Mode` returns, so `Mode` returns a member of the tie set and every member of the tie set is acceptable |
| Statistics.ModeUnique | py_lib/baselines.py:72-77 | when exactly one value has the highest frequency, `Mode` returns that value |
| Statistics.ModePermutation | py_lib/baselines.py:76-77 | after reordering, the mode of the original arrangement is still a mode, and the highest frequency is unchanged |

## Left out

- Aliasing of the targets. `__init__` keeps a reference to the caller's `pd.Series` (py_lib/baselines.py:21), so a later in-place change to that Series is seen by later `predict` calls. The datatype `Predictor<T>` holds the targets as a value and cannot show this.
- Floating-point rounding, NaN and the warning that the numerics library emits for an empty series. Numbers are exact `real`s, and non-empty targets are a precondition.
- The library internals (`np.mean`, `np.median`, `stats.mode`, `np.full`, `pd.Series`). They are replaced by the explicit definitions `Mean`, `Median` (with insertion sort), `Mode` and `Full`.
- Statistics.Mode: which of several tied values is returned does not match the library. The model returns the tied value that occurs first in the sequence, and the library returns the smallest one. The source states that the choice does not matter, so the only promise is that the result is a mode (`ModeTies`).
- The version-dependent shape of the library's mode result (`modes[0]`).
- Feature batches are modelled only as far as their first dimension. `Features<F>` is a vector or a list of rows, and only its record count is read. Shape checks on ragged input are not modelled.
- Mean or median of non-numeric targets, which the source leaves undefined. The numeric variants take `seq<real>` only.
- The `abc.ABCMeta` abstract-class machinery. The abstract base becomes the datatype `Predictor<T>`, and the abstract `_single_predict` becomes a `match` in `SinglePredict`.
