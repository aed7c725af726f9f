# Per-month standardisation scaler and error metrics of a car-sales forecaster

The script `mlp4.py` forecasts monthly sales for each (car model, region) pair with a small
Keras network. Around the network sits a little plain numeric code, and this project models
that code in Dafny and proves properties of it:

- **scale_fit** looks at a matrix whose column count is a multiple of 12. For each calendar-month
  offset `i` it gathers the columns `i, i+12, i+24, …`. It records their mean and spread in two
  12-slot tables.
- **scale_to** standardises a matrix column by column through a caller-supplied
  column-to-month map: `(x[:, c] - mu[m[c]]) / sigma[m[c]]`.
- **scale_back** is the inverse of scale_to: `xs[:, c] * sigma[m[c]] + mu[m[c]]`.
- **my_metric** is the mean absolute error over the whole batch.
- **get_score** is `1 - Σ(|pred - true| / true) / 60`. It sums the ratios and divides by the fixed
  constant 60, and is kept exactly so.
- **the hand-off in `main`** takes the first four predicted months and flattens them in Fortran
  (column-major) order into 1320·4 values.

Values are `real`. A numpy 2-D float array is a `Matrices.Matrix`: a shape plus rows of reals.
The three scaler functions fill freshly allocated arrays in `for` loops. They are modelled as
methods over `array2<real>` / `array<real>` with loop invariants (`Scaler.ScaleFit`,
`Scaler.ScaleTo`, `Scaler.ScaleBack`). Each method is proved equal to a specification
function (`Scaler.Fit`, `Scaler.ScaledTo`, `Scaler.ScaledBack`), and the lemmas are stated
about those functions. The metrics and the flatten are single expressions in the source, so
they are functions here.

Error paths follow the source:
- A failing `assert` or an `IndexError` becomes the `Err` side of `Wrappers.Result`, with a
  `Scaler.ScaleError` reason.
- A reshape that numpy would refuse becomes `None`.
- A mean over no entries, which numpy would return as NaN, becomes `Err(NoSamples)` in `Fit` and
  `None` in `MeanAbsError`.
- Indexing `mu[month_range[i]]` follows Python: an index `k` into `n` entries is accepted when
  `-n <= k < n` and denotes entry `k % n`.

`np.std` is a square root, which Dafny's reals do not have. `Fit` therefore returns the
population variance (numpy's default `ddof = 0`). `Scaler.IsStdDev` says when a sigma table is
the nonnegative square root of it.

The twelve column selections of scale_fit split the matrix cleanly. `MonthSlots` proves this
for any additive measure of sequences. Two instances follow: occurrence counts (every entry is a
sample of exactly one month, once) and sums.

## Model

| member | source | states |
|---|---|---|
| `Scaler.Fit` | mlp4.py:46-53 | fails with ColumnsNotMultipleOfMonths exactly when the column count is not a multiple of 12; yields NoSamples exactly for an empty matrix; otherwise two tables of length exactly 12 whose variances are all nonnegative |
| `Scaler.ScaleFit` | mlp4.py:46-53 | the array version fills two fresh 12-slot arrays and returns exactly what `Fit` gives, errors included |
| `Scaler.FillTables` | mlp4.py:50-52 | the loop over the twelve months fills two fresh 12-slot arrays, slot i holding month i's mean and variance, which together are exactly `Fit`'s tables |
| `Scaler.SlotSamplesAt` | mlp4.py:51-52 | the samples of month i are the entries `x[r][i + 12*j]`, r over all rows and j < cols/12, at position `r*(cols/12) + j` |
| `Scaler.ColumnInExactlyOneSlot` | mlp4.py:51-52 | column c is gathered by month `c % 12` at block `c / 12`, and by no other (month, block) pair |
| `Scaler.EntryInItsMonthSlot` | mlp4.py:50-52 | every entry `x[r][c]` is among the samples that month `c % 12`'s mean and spread are computed from |
| `MonthSlots.SlotsPartition` | mlp4.py:50-52 | the twelve month selections partition the matrix: for any additive measure of sequences, the measures of the twelve sample lists add up to the measure of all entries |
| `MonthSlots.SlotsPartitionEntries` | mlp4.py:50-52 | each value occurs among the twelve sample lists, taken together, exactly as often as in the matrix: every entry is a sample of exactly one month, once |
| `MonthSlots.SlotsPartitionSum` | mlp4.py:50-52 | the sums of the twelve sample lists add up to the sum of all entries |
| `Scaler.FitOfConstant` | mlp4.py:50-53 | on a matrix whose entries all equal v, every month has mean v and variance 0 |
| `Scaler.StdDevZeroIff` | mlp4.py:52 | a std slot taken as the root of the variance is zero exactly when that variance is zero |
| `Statistics.Variance` | mlp4.py:52 | the population variance behind np.std is nonnegative |
| `Statistics.VarianceZeroIff` | mlp4.py:52 | the variance is zero exactly when every sample equals the mean |
| `Statistics.StatisticsOfConstant` | mlp4.py:51-52 | a constant sample has that constant as mean and zero variance |
| `Scaler.Lookup` | mlp4.py:60 | Python indexing `t[k]` with `-n <= k < n` reads entry `k % n` |
| `Scaler.ScaledTo` | mlp4.py:56-61 | fails with ColumnCountMismatch exactly when cols != len(month_range), then with MonthOutOfRange exactly when some map entry indexes outside mu or sigma; otherwise the result has the input's shape |
| `Scaler.ScaledToChecksBeforeDividing` | mlp4.py:57-60 | for every valid x whose column count is wrong or whose map has an out-of-range entry, scale_to fails with exactly that error, whatever sigma holds |
| `Scaler.ScaledToWithoutRows` | mlp4.py:58-61 | for every rowless x that passes both checks, scale_to yields the empty matrix of x's shape, whatever sigma holds |
| `Scaler.ScaledToZeroStdExamples` | mlp4.py:57-61 | with sigma `[0.0]`: a 1×2 matrix against a one-column map gives ColumnCountMismatch, month 1 of 1-slot tables gives MonthOutOfRange, and a 0×1 matrix gives the empty 0×1 matrix |
| `Scaler.ScaledBack` | mlp4.py:64-69 | the same error conditions in the same order, and the same shape preservation |
| `Scaler.ScaleTo` | mlp4.py:56-61 | the array version returns a fresh array holding exactly `ScaledTo` of the input, or the same error |
| `Scaler.StandardizeColumn` | mlp4.py:60 | fills column i of xs with column i of x standardised by (m, s), and leaves every other column of xs as it was |
| `Scaler.ScaleBack` | mlp4.py:64-69 | the array version returns a fresh array holding exactly `ScaledBack` of the input, or the same error |
| `Statistics.StandardizeInverse` | mlp4.py:60 | one entry's standardisation and denormalisation undo each other when the std is nonzero |
| `Scaler.ScaleRoundTrip` | mlp4.py:56-69 | `scale_back(scale_to(x)) == x` whenever scale_to succeeds and no std it uses is zero |
| `Scaler.ScaleBackRoundTrip` | mlp4.py:56-69 | `scale_to(scale_back(xs)) == xs` under the same condition |
| `Scaler.ScaledColumnIsLocal` | mlp4.py:59-60 | column c of scale_to's output depends only on column c of the input and on the mean and std that `month_range[c]` selects |
| `Scaler.CalendarMapLookup` | mlp4.py:57-60 | a map sending column c to `c % 12` indexes 12-slot tables in range and reads slot `c % 12` |
| `Scaler.ScaledSlotEntry` | mlp4.py:59-60 | under such a map, entry `(r, i + 12*j)` of the scaled matrix is standardised by slot i |
| `Scaler.ScaledSlotSample` | mlp4.py:51-60 | under such a map, each sample of month i of the scaled matrix is the matching sample of x standardised by slot i |
| `Scaler.SlotSamplesOfScaled` | mlp4.py:51-60 | under such a map, month i's samples of the scaled matrix are month i's samples of x standardised by (mu[i], sigma[i]) |
| `Scaler.FittedScalingStandardises` | mlp4.py:46-61 | scaling with scale_fit's own tables (no zero spread) succeeds, and fitting the result gives mean 0 and variance 1 in every month |
| `Statistics.MeanOfStandardized` | mlp4.py:60 | a sample standardised against its own mean has mean 0 |
| `Statistics.VarianceOfStandardized` | mlp4.py:60 | a sample standardised against its own mean and std has variance 1 |
| `Pipeline.RangeIsCalendarMap` | mlp4.py:76-78 | `range(0, 12)` sends each of twelve columns to its own month slot |
| `Pipeline.MainScaling` | mlp4.py:74-79 | with tables fitted on `x[:, :12]` and no zero spread: the standardised history fits to means 0 and variances 1; scaling `x[:, 12:]` succeeds; scaling it back gives `y_true` exactly, at mean absolute error 0 |
| `Pipeline.ExampleFit` | mlp4.py:46-53 | on the rows 1..24 and 25..48, fitting the first twelve columns gives mean i + 13 and variance 144 (std 12) for month i |
| `Matrices.ColumnSlice` | mlp4.py:75-79 | `x[:, lo:hi]` keeps the rows; for bounds inside the shape it has hi - lo columns, and column c is column lo + c of x |
| `Metrics.MeanAbsError` | mlp4.py:38-39 | defined (not NaN) exactly for a nonempty batch, and then nonnegative |
| `Metrics.MeanAbsErrorZeroIff` | mlp4.py:38-39 | on a nonempty batch the mean absolute error is 0 exactly when prediction and truth are equal |
| `Metrics.Score` | mlp4.py:42-43 | with positive true values the score never exceeds 1: it is one minus a nonnegative sum of ratios over the fixed constant 60 |
| `Metrics.ScoreOfExact` | mlp4.py:42-43 | an exact prediction scores 1 whenever no true value is zero |
| `Metrics.RelativeErrorsSum` | mlp4.py:43 | against positive truths the summed ratios `|p - t| / t` are nonnegative, and zero exactly for an exact prediction |
| `Metrics.ScoreAtMostOne` | mlp4.py:42-43 | with positive true values the score is at most 1, and is exactly 1 when the prediction is exact and only then |
| `Matrices.ColumnMajorAt` | mlp4.py:105 | position k of the Fortran-order flatten of the first w columns holds entry `(k % rows, k / rows)` |
| `Submission.ResultVector` | mlp4.py:105 | the reshape succeeds exactly when `y_eval[:, :4]` holds 5280 entries; the result then has length 5280 and entry k is `y_eval[k % rows][k / rows]` |
| `Submission.ResultVectorOfEvaluation` | mlp4.py:105 | for 1320 groups and at least four months the reshape succeeds, and `y_result[k] == y_eval[k % 1320][k / 1320]` with `k / 1320 < 4` |

## Left out

- `build_mlp`, `model.fit`, `model.predict`, `model.summary` (lines 25-35, 85-89, 103): these call
  the Keras framework, and training is stochastic floating-point optimisation. `Pipeline.MainScaling`
  therefore speaks of the scaling steps around the network, and of what an exact prediction gives.
- `preprocess_train_data` (lines 15-22): pandas CSV input and DataFrame indexing.
- The numpy reshape at line 74, `np.reshape(x, (-1, 24))`, which turns the 1320 × 24 × 1 array into
  a 24-column matrix. The model starts from that matrix.
- `write_results` (lines 7, 106): it comes from the `dataparser` module, which is not part of this
  model. `Submission.ResultVector` stops at the flat vector handed to it.
- The output file name `'Results/rmse-%d-year-wise-mlp' % rmse`, which `main` builds at line 106 from the
  `my_metric` value of line 91: string formatting of a floating-point value, outside the numeric core.
- The environment variable at line 9, the `print` calls and the commented-out code: side effects
  and dead code.
- IEEE floating point: values are reals, so the round trips are exact here, as they are only
  up to rounding in the source. NaN and infinity are not values of the model.
- `Scaler.Fit`: returns the variance instead of np.std's square root, because reals have no square
  root here. `Scaler.IsStdDev` states the relation; the lemmas that need sigma take it as a parameter.
- `Scaler.Fit`: an empty matrix (no rows or no columns) gives `Err(NoSamples)`, in `Scaler.ScaleFit`
  too. numpy would instead return NaN tables there, with a runtime warning.
- `Scaler.ScaledTo`: requires that no std it divides by is zero, but only when both checks pass and
  x has rows, that is, only when a division happens. numpy would produce inf or NaN columns there instead.
- `Scaler.ScaleTo`: the same requirement as `Scaler.ScaledTo`. It also checks every map entry before
  filling any column. The source raises IndexError in the middle of the loop instead, into an array
  it then discards, so the result is the same error.
- `Metrics.Score`: requires both matrices to have the same shape and no true value to be zero.
  numpy would produce inf or NaN for a zero true value, and numpy's broadcasting of other shapes is
  not modelled.
- `Metrics.MeanAbsError`: requires both matrices to have the same shape. numpy's broadcasting of
  other shapes is not modelled.
- `dtype=np.float` (lines 48-49, 58, 66) is read as float64. That alias is missing from recent numpy
  releases, where these lines raise AttributeError.
