# Bright Future: climatological estimation engine in Dafny

This project models the estimation engine of the bright-future weather
application and proves properties of the model. The engine takes a
day-of-year by year matrix of optional readings. It has 366 rows, one per
day of the year, and one column per year. It turns the matrix into counts,
probabilities, predictions, trends and training data. The model covers:

- **Calendar.** The day-of-year index the source computes with `Date.UTC`.
  This is the count of days before the month plus the day minus one. Day
  overflow rolls forward, and years 0 to 99 are read as 1900 to 1999. The
  module also covers the window shift that moves a date by a number of days
  and then re-indexes it with the original year.
- **Estimators.**
  - The empirical threshold estimator (`getPValueThreshold`), in the years
    branch and the reference-year fallback.
  - The two-part parametric estimator (`getPValueParametric`): an
    occurrence count, a pooled sample of positive amounts, an optional
    log-normal fit, and the product of the two parts.
  - The legacy rain fraction (`getPValue` of `spencer_1.js`), with its
    input validation.
- **The `spencer.js` front end.** The method dispatch, the temperature and
  wind probabilities and predictions, and the least-squares trend.
- **Machine learning.**
  - The feature builder (`buildDataset`).
  - The feature scaler (`fitScaler`, `transformWithScaler`,
    `standardizeTrainTest`).
  - The logistic SGD trainer and evaluator (`trainLogisticSGD`,
    `evaluateModel`).
- **Input validators.** `parseDateInput` and `parseLocationInput`.
- **Climate API payload.** The assembly of the payload into matrices in
  `fetchData`: date keys, the year range, the matrix fill and output
  naming. This includes the retry loop that drops the parameters a 422
  reply reports as bad.

## How the model is built

The model follows the form of the source:

- Loops that update counters or push into lists are Dafny methods with
  loop invariants. Each is proved equal to a recursive specification
  function, such as `ThresholdEstimator.GetPValueThreshold` against
  `ThresholdEstimator.Threshold`.
- The shuffle swaps in place in an `array<int>`.
- The weights of the SGD trainer are an `array<real>` updated in place.
- The matrices of `fetchData` are an `array3` that is filled cell by cell.
- Pure code is datatypes and functions: the validators, the scaler
  transform and the metric arithmetic.

Representation choices:

- A reading is `Option<real>`. `None` stands for null, undefined and NaN
  alike.
- A JavaScript quotient that may be `0 / 0` is a `Number`, which is either
  `Num(r)` or `NaN`. The affected quotients are:
  - the threshold probability when `minCount <= 0`;
  - the mean of an empty list;
  - the accuracy of an empty evaluation;
  - the trend fit when all sample years are equal (Sxx = 0). Slope,
    slope_per_decade, intercept and the p-value are NaN, and r2 is NaN
    unless SST = 0 (`Trend.Degenerate`, `Trend.Bookkeeping`).
- Every error the source throws is an `Err(...)` value of `Common.Result`.
- Things the model cannot compute are parameters:
  - the transcendental functions: `Math.log`, `Math.sqrt`, the normal CDF,
    `sigmoid`, and `sin`/`cos` of the day encoding;
  - `Math.random`: the shuffle draws and the initial weights;
  - the climate data `buildDataset` fetches;
  - the server replies the retry loop reads.
- The `years` argument is `Option<seq<real>>`. `None` means it is not an
  array.

Three behaviours of the code are easy to misread. The model follows the
code in each:

- **Feb 29 in a non-leap year.** The index is computed with `Date.UTC`, so
  Feb 29 of a non-leap year is index 59, the same as Mar 1. It is never
  treated as missing (`Calendar.DayOfYearExamples`).
- **Accuracy of an empty evaluation.** `evaluateModel` does not guard the
  accuracy, so an empty evaluation gives NaN (`Logistic.AccuracyNaNIffEmpty`).
- **Feb 29 in date input.** `parseDateInput` accepts Feb 29 whatever the
  year (`Geo.FebruaryTwentyNinthAccepted`).

## Model

| member | source | states |
|---|---|---|
| Calendar.YearLength | bright-future/src/spencer_threshold_1.js:7-12 | a year has 365 or 366 days, 366 exactly in a Gregorian leap year |
| Calendar.IsLeapYear | bright-future/src/spencer_threshold_1.js:7-12 | the Gregorian leap rule the Date arithmetic follows: divisible by 4, and by 400 when divisible by 100; YearLength and MonthLength are stated through it |
| Calendar.MonthLength | bright-future/src/spencer_threshold_1.js:7-12 | a month has 28 to 31 days; 29 exactly for February of a leap year |
| Calendar.DaysBeforeMonth | bright-future/src/spencer_threshold_1.js:7-12 | the days before December plus December's length is the year length; at most 335 days precede a month |
| Calendar.DaysBeforeNextMonth | bright-future/src/spencer_threshold_1.js:7-12 | consecutive months are separated by the length of the earlier one |
| Calendar.DaysBeforeNextYear | bright-future/src/spencer_threshold_1.js:34-38 | consecutive years are separated by the length of the earlier one (the day count `setUTCDate` moves along) |
| Calendar.DaysBeforeYear | bright-future/src/spencer_threshold_1.js:7-12 | the days from Jan 1 of year 0 to Jan 1 of year y, negative years included, so that dates are counted across year boundaries; DaysBeforeNextYear steps it by the year length |
| Calendar.IndexOfCalendarDate | bright-future/src/spencer_threshold_1.js:7-12 | `dayOfYearIdx(y, m, d)` is days-before-month of the full year plus d - 1, for any d (overflowing days roll forward) |
| Calendar.DayOfYearIndex | bright-future/src/spencer_param_1.js:5-10 | `dayOfYearIdx(y, m, d)`: the days between Jan 1 of the full year and `Date.UTC(y, m - 1, d)`, with the month normalised into the year before or after and the day rolling over; its lemmas give the calendar-date form, the bounds and the examples |
| Calendar.FullYear | bright-future/src/spencer_threshold_1.js:7-12 | the year `Date.UTC` uses: 1900 + y for y in 0..99, y itself otherwise; Calendar.TwoDigitYears proves the index of such a year is that of 1900 + y |
| Calendar.BeforeJanuaryFirst | bright-future/src/scrape.js:155-159 | a month of 0 down to -11 with a day below 31 gives a negative index, i.e. a date before January 1 |
| Calendar.DayOfYearIndexBounds | bright-future/src/spencer_threshold_1.js:7-12 | a real date of the year has an index in [0, year length) and so in [0, 366) |
| Calendar.MonthContaining | bright-future/src/spencer_threshold_1.js:36-38 | the month search returns the month whose first day is at most `off` and whose successor starts after `off` |
| Calendar.MonthContainingUnique | bright-future/src/spencer_threshold_1.js:36-38 | that month is unique: any month whose days contain `off` is the one found |
| Calendar.MonthsAfter | bright-future/src/spencer_threshold_1.js:36-38 | days-before-month is monotone in the month |
| Calendar.IsCalendarDate | bright-future/src/spencer_threshold_1.js:36-38 | a month 1..12 with a day within that month's length, the values `getUTCMonth() + 1` and `getUTCDate()` can report |
| Calendar.DayNumber | bright-future/src/spencer_threshold_1.js:36-38 | the absolute day count of a calendar date; DateAt and ShiftedDate state the shifted date through it |
| Calendar.DateAt | bright-future/src/spencer_threshold_1.js:36-38 | the date `off` days after January 1 (negative `off` allowed) is a real calendar date whose day number is exactly that many days on |
| Calendar.ShiftedDate | bright-future/src/spencer_threshold_1.js:34-38 | `setUTCDate(getUTCDate() + delta)` lands on a real date exactly delta days after the target day |
| Calendar.WindowDayIndex | bright-future/src/spencer_threshold_1.js:34-39 | the row the window loop reads: the shifted date's month and day re-indexed with the original year; its lemmas bound it to [0, 366), make it the index plus delta inside the year, and give the Jan 1 and Dec 31 edge rows |
| Calendar.WindowDayIndexBounds | bright-future/src/spencer_threshold_1.js:34-40 | every row the window loop computes lies in [0, 366) |
| Calendar.WindowInsideYear | bright-future/src/spencer_threshold_1.js:34-40 | a shift that stays in the year moves the index by exactly delta |
| Calendar.WindowBeforeJanuaryFirst | bright-future/src/spencer_threshold_1.js:34-40 | Jan 1 minus one day is re-indexed with the original year and reads that year's Dec 31 row |
| Calendar.WindowAfterDecemberThirtyFirst | bright-future/src/spencer_threshold_1.js:34-40 | Dec 31 plus one day reads row 0 of the same column |
| Calendar.DayOfYearExamples | bright-future/src/spencer_1.js:8-13 | Mar 1 2001, Feb 29 2000 and Feb 29 2001 all have index 59; Mar 1 2000 has 60 |
| Calendar.TwoDigitYears | bright-future/src/spencer_1.js:8-13 | `Date.UTC` reads a year 0..99 as 1900 + y, so its index is that of year 1900 + y |
| Common.CountRatio | bright-future/src/train_ml.js:68 | an unguarded count ratio is NaN exactly when the denominator is 0; otherwise it times the denominator gives the numerator, and lies in [0, 1] when num <= den |
| Common.Fraction | bright-future/src/spencer.js:53 | `den ? num / den : 0`: 0 for a zero denominator, otherwise the exact quotient, in [0, 1] when num <= den |
| Common.Mean | bright-future/src/spencer_param_1.js:12 | the mean is NaN exactly for an empty list, and otherwise times the length is the sum |
| Common.MeanOfConstant | bright-future/src/spencer_param_1.js:12 | the mean of a constant list is the constant |
| Common.Sum | bright-future/src/spencer_param_1.js:12 | `reduce((s, v) => s + v, 0)` left to right; Mean and MeanOfConstant state it |
| Common.SumSqDev | bright-future/src/spencer_param_1.js:13 | `reduce((s, v) => s + (v - mu) * (v - mu), 0)`, the radicand's numerator of `std` |
| Common.SumSqDevNonNegative | bright-future/src/spencer_param_1.js:13 | the squared deviation sum is never negative, so `std` takes a square root of a non-negative value |
| Readings.ReadingAt | bright-future/src/spencer_1.js:66 | a reading is present only when both indices exist, and it is the stored cell |
| Readings.ColumnCount | bright-future/src/spencer.js:23 | `(m[0] && m[0].length) or 0`: 0 for an empty matrix, otherwise the first row's length |
| Readings.IsInteger | bright-future/src/spencer.js:28 | `Number.isInteger` on a finite number: the value equals its floor |
| Readings.Aligned | bright-future/src/spencer.js:25 | `Array.isArray(years) && years.length === nYears`: the years branch runs exactly then, and the reference-year fallback otherwise |
| Readings.ReferenceRow | bright-future/src/spencer.js:113-114 | the fallback row is `dayOfYearIdx(2001, month, day)` |
| Readings.ReferenceFails | bright-future/src/spencer.js:113-115 | the fallback throws 'Invalid date' exactly when the reference row is outside the matrix rows; the years branch never throws it; the ErrorCases lemmas state the order of the throws |
| Readings.Trunc | bright-future/src/spencer_threshold_1.js:28-29 | the year conversion is exact on integers |
| Readings.CellSeq | bright-future/src/spencer_1.js:67 | a missing cell pushes nothing and a present one pushes its value |
| Readings.DaySamples | bright-future/src/spencer_1.js:54-81 | the single-day collection yields at most one value per column |
| Readings.ReadDay | bright-future/src/spencer.js:102-111 | the loop body reads the column's target-day cell, or nothing when the year is not an integer |
| Readings.DayReading | bright-future/src/spencer.js:102-111 | the target-day cell of a column: its year's row when the years match the columns and the year is an integer, the 2001 row in the fallback, missing when skipped or out of range |
| Readings.DirectRow | bright-future/src/spencer.js:102-114 | the row read for a column: none for a non-integer year, `dayOfYearIdx(y, month, day)` for an integer year, the 2001 row in the fallback |
| Readings.DaySampling | bright-future/src/spencer.js:100-120 | 'Invalid date' when the fallback's reference row fails, otherwise the day's non-missing readings in column order; CollectDaySamples proves the collection loop equal to it |
| Readings.DaySamplesStep | bright-future/src/spencer_1.js:55-68 | one more column appends its reading, if any, to the collected values |
| Readings.CollectDaySamples | bright-future/src/spencer_1.js:54-82 | the collection loop returns the non-missing target-day readings in column order, or 'Invalid date' when the fallback's reference row is outside the matrix |
| Readings.WindowValues | bright-future/src/spencer_threshold_1.js:33-46 | the window yields at most one reading per offset |
| Readings.WindowRow | bright-future/src/spencer_threshold_1.js:33-64 | the row visited for offset delta: the year's re-indexed window row in the years branch, refDoy + delta in the fallback |
| Readings.ColumnSource | bright-future/src/spencer_threshold_1.js:26-58 | a column with a non-integer year is skipped, an integer year's window goes through its own calendar, the fallback counts from the reference row |
| Readings.ColumnLabel | bright-future/src/spencer_threshold_1.js:48-72 | the label pushed for a column: `years[yi]` in the years branch, `yi` in the fallback |
| Readings.Width | bright-future/src/spencer_threshold_1.js:33 | the number of offsets of `for (delta = -w; delta <= w; delta++)`: 2w + 1, none for a negative window |
| Readings.RowOf | bright-future/src/spencer_threshold_1.js:33-64 | the offset-to-row map of one column, WindowRow at each offset |
| Readings.Above | bright-future/src/spencer_1.js:93 | the filtered list is no longer than the input |
| Readings.AboveAppend | bright-future/src/spencer_1.js:93 | filtering distributes over appending one value |
| Readings.AboveExceeds | bright-future/src/spencer_1.js:93 | every value kept by the strict filter exceeds the threshold |
| Readings.AnyReading | bright-future/src/spencer_threshold_1.js:41-43 | `foundValid` after the first k offsets; AnyReadingMeaning states it as some visited non-missing cell |
| Readings.AnyAbove | bright-future/src/spencer_threshold_1.js:42-45 | `foundRain` after the first k offsets; AnyAboveMeaning states it as some visited reading strictly above t |
| Readings.AboveCell | bright-future/src/spencer_threshold_1.js:42-44 | a present cell whose value is strictly above t |
| Readings.AnyReadingMeaning | bright-future/src/spencer_threshold_1.js:41-46 | `foundValid` holds exactly when some window offset reads a non-missing cell |
| Readings.AnyAboveMeaning | bright-future/src/spencer_threshold_1.js:42-45 | `foundRain` holds exactly when some window offset reads a value strictly above the threshold |
| Readings.AboveIsReading | bright-future/src/spencer_threshold_1.js:42-45 | a column that rains is valid |
| Readings.AboveAntitone | bright-future/src/spencer_threshold_1.js:44 | raising the threshold can only turn a column from rainy to dry |
| Readings.FlagsMatchValues | bright-future/src/spencer_threshold_1.js:41-46 | the flags agree with the window's values: valid iff some value, rainy iff some value above the threshold |
| ThresholdEstimator.ValidFlags | bright-future/src/spencer_threshold_1.js:47 | one `foundValid` flag per column, each the column's validity |
| ThresholdEstimator.ColumnValid | bright-future/src/spencer_threshold_1.js:27-47 | a column is valid iff it is not skipped and some window offset reads a cell; ColumnMeaning states it over the offsets in [-w, w] |
| ThresholdEstimator.ColumnAbove | bright-future/src/spencer_threshold_1.js:27-49 | a column is rainy iff it is not skipped and some window offset reads a value above t; ColumnMeaning and AboveAntitone state it |
| ThresholdEstimator.AboveFlags | bright-future/src/spencer_threshold_1.js:49 | one `foundRain` flag per column, each the column's rain test |
| ThresholdEstimator.Tags | bright-future/src/spencer_threshold_1.js:48-72 | the label recorded per column: `years[yi]`, or `yi` itself in the fallback |
| ThresholdEstimator.Selected | bright-future/src/spencer_threshold_1.js:47-50 | no more labels are recorded than columns scanned |
| ThresholdEstimator.Estimated | bright-future/src/spencer_threshold_1.js:78-82 | the result carries the two label lists and the threshold unchanged |
| ThresholdEstimator.ScanColumn | bright-future/src/spencer_threshold_1.js:60-70 | the window loop's two flags are exactly "some reading" and "some reading above the threshold" |
| ThresholdEstimator.ScanYear | bright-future/src/spencer_threshold_1.js:27-50 | one column's validity, rain flag and label, with rainy implying valid |
| ThresholdEstimator.ScanYears | bright-future/src/spencer_threshold_1.js:26-76 | the outer loop pushes exactly the labels of the valid and of the rainy columns, in column order |
| ThresholdEstimator.GetPValueThreshold | bright-future/src/spencer_threshold_1.js:14-83 | the estimator returns the specification's result, including both throws |
| ThresholdEstimator.Threshold | bright-future/src/spencer_threshold_1.js:14-83 | the estimator's result: 'Invalid matrix' when empty, 'Invalid date' when the fallback's reference row is outside the matrix, otherwise the valid and rainy labels with prob = nRainy / nValid from minCount valid years on and 0 below |
| ThresholdEstimator.SelectedSubsequence | bright-future/src/spencer_threshold_1.js:47-50 | when one flag set implies another, its labels are an order-preserving subsequence of the other's |
| ThresholdEstimator.SelectedStep | bright-future/src/spencer_threshold_1.js:47-50 | one more column appends its label exactly when its flag is set |
| ThresholdEstimator.SelectedAll | bright-future/src/spencer_threshold_1.js:47-50 | with every flag set, all labels are recorded in order |
| ThresholdEstimator.SelectedNone | bright-future/src/spencer_threshold_1.js:47-50 | with no flag set, nothing is recorded |
| ThresholdEstimator.SelectedIndices | bright-future/src/spencer_threshold_1.js:71-74 | labels that are column indices come out as strictly increasing integers below the column count |
| ThresholdEstimator.RainyColumnIsValid | bright-future/src/spencer_threshold_1.js:42-45 | a rainy column is a valid column |
| ThresholdEstimator.RainyWithinValid | bright-future/src/spencer_threshold_1.js:47-50 | `rainyYears` is an order-preserving subsequence of `validYears` |
| ThresholdEstimator.EstimatedProbability | bright-future/src/spencer_threshold_1.js:78-80 | nValid and nRainy are the list lengths; prob = nRainy / nValid when nValid >= minCount, 0 below minCount, in [0, 1] when minCount >= 1, NaN only for minCount <= 0 and no valid year |
| ThresholdEstimator.ProbabilityBounds | bright-future/src/spencer_threshold_1.js:47-80 | on every input: nRainy <= nValid, rainy years are a subsequence of valid years, and the result is the estimate of its own lists |
| ThresholdEstimator.RaisingThresholdNeverAddsRain | bright-future/src/spencer_threshold_1.js:42-47 | a higher threshold leaves validYears and nValid unchanged and gives a subsequence of the rainy years, so nRainy never grows |
| ThresholdEstimator.ColumnMeaning | bright-future/src/spencer_threshold_1.js:33-70 | a column is valid iff some offset in [-w, w] reads a non-missing cell, and rainy iff one reads a value strictly above the threshold (missing cells are never zero) |
| ThresholdEstimator.FallbackRecordsColumns | bright-future/src/spencer_threshold_1.js:59-75 | in the fallback validYears holds column indices, strictly increasing and below the column count |
| ThresholdEstimator.EveryYearRains | bright-future/src/spencer_threshold_1.js:78-80 | when every column rains the probability is 1 and both lists hold every label |
| ThresholdEstimator.EstimatedAllRainy | bright-future/src/spencer_threshold_1.js:78-80 | with every valid year rainy and at least minCount of them (minCount >= 1) the probability is 1 |
| ThresholdEstimator.MissingColumnNotValid | bright-future/src/spencer_threshold_1.js:42 | a column of missing cells is never valid |
| ThresholdEstimator.AllMissingGivesZero | bright-future/src/spencer_threshold_1.js:42-80 | a matrix without a reading gives nValid 0 and probability 0 |
| ThresholdEstimator.ErrorCases | bright-future/src/spencer_threshold_1.js:17-58 | the estimator throws exactly for an empty matrix or a fallback reference row outside the matrix, the first taking precedence |
| ParametricEstimator.StdDenominator | bright-future/src/spencer_param_1.js:13 | `arr.length - 1 or 1` is never 0, and is length - 1 from two elements on |
| ParametricEstimator.Variance | bright-future/src/spencer_param_1.js:13 | the variance is non-negative and times the denominator is the sum of squared deviations |
| ParametricEstimator.Std | bright-future/src/spencer_param_1.js:13 | `std(arr, mu)`: the square root of Variance, the squared deviations over `arr.length - 1 or 1`; FitLogNormal takes sigma from it |
| ParametricEstimator.ConstantVariance | bright-future/src/spencer_param_1.js:12-13 | a constant sample has mean the constant and variance 0 |
| ParametricEstimator.PositiveCell | bright-future/src/spencer_param_1.js:58 | a cell contributes a positive exactly when it holds a value above 0 |
| ParametricEstimator.Positives | bright-future/src/spencer_param_1.js:47-60 | a column's window contributes at most one positive per offset |
| ParametricEstimator.PositiveParts | bright-future/src/spencer_param_1.js:41-84 | one list of positives per column, each that column's window positives |
| ParametricEstimator.ColumnPositives | bright-future/src/spencer_param_1.js:58-62 | a column's pushed positives, none for a skipped column; ColumnPositivesMeaning states when there are some |
| ParametricEstimator.Concat | bright-future/src/spencer_param_1.js:58 | the first n columns' positives appended in column order |
| ParametricEstimator.Pooled | bright-future/src/spencer_param_1.js:37-83 | the `positives` array after the column loop; PoolIsPositive and PooledPositive state that every value is positive and nPos >= nPosYears |
| ParametricEstimator.CountFlags | bright-future/src/spencer_param_1.js:61-62 | a counter never exceeds the number of columns scanned |
| ParametricEstimator.Logs | bright-future/src/spencer_param_1.js:92 | `positives.map(Math.log)` element by element |
| ParametricEstimator.FitLogNormal | bright-future/src/spencer_param_1.js:90-96 | a fit exists iff nPos >= max(minPos, 2); its mu is the mean of the logs, its sigma their std with 0 replaced by 1e-6 |
| ParametricEstimator.Max | bright-future/src/spencer_param_1.js:91 | `Math.max(minPos, 2)`, the size a fit needs |
| ParametricEstimator.Combined | bright-future/src/spencer_param_1.js:86-113 | the result reports the counts it was given |
| ParametricEstimator.ScanColumn | bright-future/src/spencer_param_1.js:72-80 | the window loop sets foundValid, foundPos and the pushed positives exactly as specified |
| ParametricEstimator.ScanYear | bright-future/src/spencer_param_1.js:42-63 | one column's validity, positive flag (the threshold estimator's flags at threshold 0) and positives |
| ParametricEstimator.CountFlagsStep | bright-future/src/spencer_param_1.js:61-62 | a counter grows by one exactly when the column's flag is set |
| ParametricEstimator.ConcatStep | bright-future/src/spencer_param_1.js:58 | the pool grows by the column's positives |
| ParametricEstimator.ScanStep | bright-future/src/spencer_param_1.js:42-63 | one outer iteration keeps nValid, nPosYears and positives equal to their specifications |
| ParametricEstimator.ScanYears | bright-future/src/spencer_param_1.js:41-84 | the outer loop returns the count of valid columns, of columns with a positive, and the pooled positives in visiting order |
| ParametricEstimator.Combine | bright-future/src/spencer_param_1.js:86-113 | the fit-and-combine tail returns the specified estimate |
| ParametricEstimator.GetPValueParametric | bright-future/src/spencer_param_1.js:31-114 | the estimator returns the specification's result, including both throws |
| ParametricEstimator.Parametric | bright-future/src/spencer_param_1.js:31-114 | the estimator's result: the two throws, otherwise the valid and positive-year counts and the pooled positives combined into p_occ, the fit, p_amount and prob |
| ParametricEstimator.PositivesAreAbove | bright-future/src/spencer_param_1.js:58 | a window's positives are exactly its readings above 0, in order, and there are some iff foundPos |
| ParametricEstimator.PositivesPositive | bright-future/src/spencer_param_1.js:58 | every pushed positive is > 0 |
| ParametricEstimator.ColumnPositivesMeaning | bright-future/src/spencer_param_1.js:58-62 | a column yields positives iff it is rainy at threshold 0, and they are all positive |
| ParametricEstimator.AppendPositive | bright-future/src/spencer_param_1.js:58 | appending positive lists keeps every element positive |
| ParametricEstimator.ConcatPositive | bright-future/src/spencer_param_1.js:58 | the pool of positive parts is positive |
| ParametricEstimator.ConcatCoversFlags | bright-future/src/spencer_param_1.js:58-62 | a pool holds at least one value per flagged column whose part is non-empty |
| ParametricEstimator.PooledPositive | bright-future/src/spencer_param_1.js:58-62 | the pool is positive and nPos >= nPosYears |
| ParametricEstimator.CountFlagsMonotone | bright-future/src/spencer_param_1.js:61-62 | when one flag implies another, its count is no larger |
| ParametricEstimator.CountIsSelectedLength | bright-future/src/spencer_param_1.js:61-62 | the counter equals the length of the label list the threshold estimator would record |
| ParametricEstimator.OccurrenceBounds | bright-future/src/spencer_param_1.js:61-86 | nPosYears <= nValid and p_occ = nPosYears / nValid in [0, 1], 0 when nValid = 0 |
| ParametricEstimator.PoolIsPositive | bright-future/src/spencer_param_1.js:58-89 | nPos is the pool's length, every pooled value is > 0, and nPos >= nPosYears |
| ParametricEstimator.OccurrenceIgnoresThreshold | bright-future/src/spencer_param_1.js:58 | occurrence uses v > 0, not the threshold: counts, p_occ and the fit do not change with it |
| ParametricEstimator.AgreesWithThresholdEstimator | bright-future/src/spencer_param_1.js:41-84 | nValid is the threshold estimator's nValid and nPosYears its nRainy at threshold 0 |
| ParametricEstimator.CombinationRules | bright-future/src/spencer_param_1.js:86-111 | prob = p_occ * p_amount exactly; threshold <= 0 gives p_amount = 1 and prob = p_occ; a fit iff nPos >= max(minPos, 2), with a non-zero sigma |
| ParametricEstimator.EmpiricalAmount | bright-future/src/spencer_param_1.js:105-109 | without a fit, p_amount is the share of positives strictly above the threshold, 0 for no positives, in [0, 1] |
| ParametricEstimator.FittedAmount | bright-future/src/spencer_param_1.js:102-104 | with a fit, p_amount = 1 - phi((ln t - mu) / sigma) |
| ParametricEstimator.AmountProbability | bright-future/src/spencer_param_1.js:98-109 | p_amount: 1 for threshold <= 0, else 1 - phi((ln t - mu) / sigma) with a fit, else the share of positives above t, 0 without positives; EmpiricalAmount, FittedAmount and ProbabilityInUnitInterval state these cases and the [0, 1] bound |
| ParametricEstimator.ProbabilityInUnitInterval | bright-future/src/spencer_param_1.js:111 | when phi maps into [0, 1], p_amount and prob lie in [0, 1] and prob <= p_occ |
| ParametricEstimator.ErrorCases | bright-future/src/spencer_param_1.js:33-68 | the estimator throws exactly for an empty matrix or a failing reference row, the empty matrix first |
| LegacyEstimator.Validate | bright-future/src/spencer_1.js:33-38 | the month and day pass iff both are integers in 1..12 and 1..31; the month error is reported iff the month fails |
| LegacyEstimator.GetPValue | bright-future/src/spencer_1.js:15-97 | the legacy estimator returns the specification's result |
| LegacyEstimator.Legacy | bright-future/src/spencer_1.js:15-97 | the legacy result: the month error, the day error, the empty-matrix error, 0 for no year columns, otherwise the share of target-day readings above 1e-6 or the 'Invalid date' throw |
| LegacyEstimator.ValidationErrors | bright-future/src/spencer_1.js:33-49 | a bad month throws the month error first, then a bad day the day error, then an empty matrix; zero year columns give 0 |
| LegacyEstimator.RainFraction | bright-future/src/spencer_1.js:84-96 | the result is (#values > 1e-6) / (#values), 0 without values, and in [0, 1] |
| LegacyEstimator.NoColumnsNeverThrowsDate | bright-future/src/spencer_1.js:46-49 | zero year columns return 0 before the reference row is checked |
| LegacyEstimator.ValidatedDateInRange | bright-future/src/spencer_1.js:61-65 | a validated month and day always index inside the 366 rows, and Feb 29 of a non-leap year reads row 59 like Mar 1, so the "missing" branch never fires for it |
| LegacyEstimator.FallbackReadsReferenceRow | bright-future/src/spencer_1.js:69-81 | when the years do not match the columns, every column is read at the reference-2001 row |
| LegacyEstimator.ReferenceSamples | bright-future/src/spencer_1.js:78-81 | the fallback collects at most one value per column |
| Spencer.GetPValue | bright-future/src/spencer.js:6-16 | the wrapper returns the dispatch specification's result |
| Spencer.ThresholdOr | bright-future/src/spencer.js:8 | `options.threshold !== undefined ? options.threshold : d`: the given threshold, else the default |
| Spencer.WindowOf | bright-future/src/spencer.js:9 | `options.window or 0`: the given window, else 0 |
| Spencer.IsParametric | bright-future/src/spencer.js:7-10 | `(options.method or 'threshold') === 'parametric'`: only the method name 'parametric' selects the parametric estimator |
| Spencer.PValue | bright-future/src/spencer.js:6-16 | the `prob` of the parametric estimator for method 'parametric' and of the threshold estimator otherwise, with threshold 1.0 and window 0 by default, and the estimator's throw |
| Spencer.DispatchRoutes | bright-future/src/spencer.js:6-16 | method 'parametric' goes to the parametric estimator and everything else to the threshold estimator, with threshold 1.0 and window 0 by default |
| Spencer.ThresholdRouteInUnitInterval | bright-future/src/spencer.js:13-14 | through the threshold route the answer is a number in [0, 1] |
| Spencer.AtLeast | bright-future/src/spencer.js:35 | the non-strict filter is no longer than the input |
| Spencer.AtLeastAppend | bright-future/src/spencer.js:35 | the non-strict filter distributes over appending one value |
| Spencer.CountStep | bright-future/src/spencer.js:25-37 | one more column keeps `valid` and `count` equal to their specifications |
| Spencer.ExceedanceFraction | bright-future/src/spencer.js:19-54 | the counting loop returns count / valid over the target-day readings with a non-strict `>=`, or the throw |
| Spencer.Exceedance | bright-future/src/spencer.js:19-54 | 'Invalid matrix' when empty, otherwise count / valid over the target-day readings with count the readings >= t, 0 without readings, or the 'Invalid date' throw |
| Spencer.GetTempProbability | bright-future/src/spencer.js:19-54 | the temperature probability uses the default threshold 30 |
| Spencer.GetWindProbability | bright-future/src/spencer.js:57-90 | the wind probability uses the default threshold 8 |
| Spencer.AtLeastIsSubsequence | bright-future/src/spencer.js:35 | the counted readings are a subsequence of the readings |
| Spencer.AtLeastReaches | bright-future/src/spencer.js:35 | every counted reading is >= the threshold |
| Spencer.ExceedanceBounds | bright-future/src/spencer.js:34-53 | count <= valid, the result is count / valid, 0 when valid = 0, in [0, 1], and 1 when every reading reaches the threshold |
| Spencer.AtLeastAll | bright-future/src/spencer.js:35 | when every reading reaches the threshold, all are counted |
| Spencer.Within | bright-future/src/spencer.js:126 | the within-tolerance filter is no longer than the input |
| Spencer.Abs | bright-future/src/spencer.js:126 | `Math.abs` |
| Spencer.SampleVariance | bright-future/src/spencer.js:124 | the variance with denominator max(1, n-1) is non-negative, 0 for n = 1, and times n - 1 is the squared deviation sum from two samples on |
| Spencer.Predict | bright-future/src/spencer.js:95-129 | the prediction loop returns the specified prediction |
| Spencer.Forecast | bright-future/src/spencer.js:95-165 | 'Invalid matrix' when empty, the 'Invalid date' throw, otherwise the prediction of the target-day readings; PredictionShape and ConstantSamplePrediction give its fields |
| Spencer.Predicted | bright-future/src/spencer.js:121-128 | no readings give null fields and n = 0; otherwise the mean, sqrt of the max(1, n - 1) variance, the share within tol of the mean, n and the samples; PredictionShape states these |
| Spencer.GetTempPrediction | bright-future/src/spencer.js:95-129 | the temperature prediction uses the default tolerance 2.0 |
| Spencer.GetWindPrediction | bright-future/src/spencer.js:131-165 | the wind prediction uses the default tolerance 1.0 |
| Spencer.PredictionShape | bright-future/src/spencer.js:121-129 | n is the sample count; no samples give null fields; otherwise predicted is the mean, within_tol_prob the share within tol of it in [0, 1], and n = 1 gives std sqrt(0) |
| Spencer.WithinAll | bright-future/src/spencer.js:126 | when every sample is within tol, all are kept |
| Spencer.ConstantSamplePrediction | bright-future/src/spencer.js:123-127 | a constant sample predicts the constant with std sqrt(0) and within_tol_prob 1 |
| Trend.TrendSamples | bright-future/src/spencer.js:172-193 | at most one sample per column |
| Trend.TrendRow | bright-future/src/spencer.js:173-189 | the row read for a column: `dayOfYearIdx` of the truncated finite year, or the 2001 row in the fallback |
| Trend.Sampling | bright-future/src/spencer.js:169-193 | 'Invalid matrix' when empty, 'Invalid date' for a failing reference row, otherwise the samples in column order; CollectSamples proves the loop equal to it |
| Trend.Years | bright-future/src/spencer.js:196 | `samples.map(s => s.year)` element by element |
| Trend.Values | bright-future/src/spencer.js:197 | `samples.map(s => s.value)` element by element |
| Trend.Dev | bright-future/src/spencer.js:201 | the deviations from the mean, element by element |
| Trend.Residuals | bright-future/src/spencer.js:205 | the residuals of the fitted line, element by element |
| Trend.SumProd | bright-future/src/spencer.js:202-205 | the first k terms of a sum of products, the `Sxx`, `Sxy` and `SSE` accumulators |
| Trend.MomentsOf | bright-future/src/spencer.js:199-202 | xmean, ymean, Sxx and Sxy of the samples; CrossSums proves the loop computes them |
| Trend.TotalSquares | bright-future/src/spencer.js:213 | SST, the values' squared deviations from ymean |
| Trend.Slope | bright-future/src/spencer.js:203 | `Sxy / Sxx`, for Sxx != 0 |
| Trend.Intercept | bright-future/src/spencer.js:204 | `ymean - slope * xmean` |
| Trend.ResidualSquares | bright-future/src/spencer.js:205 | SSE, the sum of squared residuals of the fitted line; ResidualSum proves the loop computes it |
| Trend.CollectSamples | bright-future/src/spencer.js:172-193 | the sample loop returns the specified samples, or the throw |
| Trend.SumProdStep | bright-future/src/spencer.js:201 | a sum of products grows by one product per step |
| Trend.CrossSums | bright-future/src/spencer.js:201 | the loop computes Sxx and Sxy as sums of products of deviations |
| Trend.ResidualSum | bright-future/src/spencer.js:205 | the loop computes SSE as the sum of squared residuals |
| Trend.Fit | bright-future/src/spencer.js:196-216 | the fitting tail returns the specified fit |
| Trend.GetTrendForDay | bright-future/src/spencer.js:168-217 | the intended trend (with a working normal CDF) returns the specification's result |
| Trend.TrendForDay | bright-future/src/spencer.js:168-217 | the intended trend: the sampling throw, null below three samples, otherwise the least-squares fit of values on years |
| Trend.GetTrendForDayAsWritten | bright-future/src/spencer.js:168-217 | the trend as written returns the as-written specification's result |
| Trend.TrendAsWritten | bright-future/src/spencer.js:168-217 | the trend as written: the sampling throw, null below three samples, otherwise the `Math.erf` TypeError |
| Trend.AsWrittenAgainstIntended | bright-future/src/spencer.js:195-211 | fewer than 3 samples give null in both versions; from 3 samples the code as written throws while the intended one returns a fit of n samples |
| Trend.ErfCounterexample | bright-future/src/spencer.js:210-211 | a one-row matrix with three readings throws as written and succeeds as intended |
| Trend.Bookkeeping | bright-future/src/spencer.js:203-216 | slope = Sxy / Sxx, intercept = ymean - slope * xmean, slope_per_decade = 10 * slope, NaN slope iff Sxx = 0, r2 = 0 when SST = 0 |
| Trend.Summary | bright-future/src/spencer.js:203-216 | the reported fit once the sums are known: slope Sxy / Sxx, intercept, ten times the slope per decade, r2 = 1 - SSE / SST (0 for SST = 0) and the p-value from phi; Bookkeeping and ExactLineRecovered state these |
| Trend.Degenerate | bright-future/src/spencer.js:203-216 | all sample years equal (Sxx = 0): slope, slope_per_decade, intercept and the p-value are NaN, and r2 is 0 when SST = 0 and NaN otherwise; Bookkeeping states it |
| Trend.Fitted | bright-future/src/spencer.js:195-216 | the fit of n >= 1 samples: Degenerate when Sxx = 0, Summary of the moments otherwise; Bookkeeping and ExactLineRecovered state its fields |
| Trend.MeanAffine | bright-future/src/spencer.js:198-199 | the mean of a + b * x is a + b times the mean of x |
| Trend.CrossSumOfLine | bright-future/src/spencer.js:201 | on an exact line Sxy = b * Sxx and ymean = a + b * xmean |
| Trend.ExactLineRecovered | bright-future/src/spencer.js:201-216 | on an exact line with Sxx != 0 the fit recovers slope b and intercept a, SSE = 0 and r2 = 1 unless the values are constant |
| Trend.FallbackYearsAreIndices | bright-future/src/spencer.js:189-190 | in the fallback the sample years are column indices, strictly increasing integers below the column count |
| Features.ResolveRequest | bright-future/src/ml_features.js:7-8 | lags default to 3 and the threshold to 0.1; the other request fields pass through |
| Features.LagCell | bright-future/src/ml_features.js:42-45 | a lag value exists only for a non-negative day index and is the precipitation reading there |
| Features.LagCount | bright-future/src/ml_features.js:41 | the number of passes of `for (l = 1; l <= lags; l++)`: lags, none when negative |
| Features.LagValues | bright-future/src/ml_features.js:39-48 | a complete lag list has exactly k values |
| Features.Samples | bright-future/src/ml_features.js:28-66 | at most one sample per year |
| Features.YearSample | bright-future/src/ml_features.js:28-65 | a sample, when the year yields one, is tagged with that year |
| Features.Rows | bright-future/src/ml_features.js:63-68 | `X`: the kept samples' rows, in year order |
| Features.Labels | bright-future/src/ml_features.js:64-68 | `y`: the kept samples' labels, in year order |
| Features.YearsOf | bright-future/src/ml_features.js:65-68 | `meta.years`: the kept samples' years; KeptYearsSubsequence proves it a subsequence of years |
| Features.LagValuesNoneStays | bright-future/src/ml_features.js:43-45 | once a lag is missing, the `break` leaves the year rejected for every longer lag count |
| Features.GatherLags | bright-future/src/ml_features.js:39-48 | the lag loop succeeds iff every lag exists, and then returns exactly the specified values |
| Features.ReadYear | bright-future/src/ml_features.js:29-62 | one year's body returns the specified sample or a skip |
| Features.AddYear | bright-future/src/ml_features.js:63-65 | one iteration keeps `X`, `y` and `meta.years` equal to their specifications |
| Features.BuildDatasetFrom | bright-future/src/ml_features.js:6-69 | the builder returns the specified dataset, or the no-years error |
| Features.BuildDataset | bright-future/src/ml_features.js:6-69 | no years throw; otherwise the rows, labels and kept years of the per-year samples, with the request's lags and threshold in meta |
| Features.LagValuesMeaning | bright-future/src/ml_features.js:39-48 | the lags are complete iff every day doy-1 .. doy-lags exists and is non-null, and entry i is day doy-(i+1) |
| Features.YearKept | bright-future/src/ml_features.js:30-48 | a year is kept iff its index is in range, its target temperature and precipitation exist and all its lags exist (never zero-filled) |
| Features.YearRow | bright-future/src/ml_features.js:51-65 | a kept row is [sin, cos, lags in order doy-1.., temperature, lon, lat] of length 2 + lags + 3; the label is 1 iff precipitation >= threshold |
| Features.KeptYearsSubsequence | bright-future/src/ml_features.js:65 | `meta.years` is an order-preserving subsequence of `years` |
| Features.DatasetShape | bright-future/src/ml_features.js:12-65 | no years throws; otherwise X, y and meta.years have equal length, every row has length 2 + lags + 3, every label is 0 or 1 and meta.years is a subsequence of years |
| Features.SamplesShape | bright-future/src/ml_features.js:55-61 | every sample has a row of length 2 + lags + 3 and a label 0 or 1 |
| Scaler.Column | bright-future/src/ml_utils.js:10 | column j of a rectangular matrix, element by element |
| Scaler.Rectangular | bright-future/src/ml_utils.js:4-10 | every row as long as the first, the shape `X[0].length` assumes |
| Scaler.ValidScaler | bright-future/src/ml_utils.js:2-22 | one mean and one non-zero std per column, what fitScaler returns; ScalerShape proves Fit returns one |
| Scaler.Fits | bright-future/src/ml_utils.js:25-27 | a scaler applicable to rows no longer than its mean vector |
| Scaler.Denominator | bright-future/src/ml_utils.js:19 | max(1, n - 1) is at least 1 |
| Scaler.ColumnStd | bright-future/src/ml_utils.js:19-20 | a column's std is never 0, because 0 is replaced by 1 |
| Scaler.Means | bright-future/src/ml_utils.js:8-12 | one mean per column, each the mean of that column |
| Scaler.Stds | bright-future/src/ml_utils.js:13-21 | one std per column, each that column's std about its mean |
| Scaler.FitScaler | bright-future/src/ml_utils.js:2-23 | fitting fails exactly on an empty matrix; otherwise it gives a mean and a non-zero std per column |
| Scaler.TransformRow | bright-future/src/ml_utils.js:27 | each entry is (v - mean[j]) / std[j], stated as result times std = v - mean |
| Scaler.Transform | bright-future/src/ml_utils.js:25-28 | the transform keeps the row count and works row by row |
| Scaler.ColumnTotal | bright-future/src/ml_utils.js:9-10 | the inner loop sums column j |
| Scaler.ColumnSquares | bright-future/src/ml_utils.js:15-18 | the inner loop sums the squared deviations of column j |
| Scaler.FillMeans | bright-future/src/ml_utils.js:8-12 | the mean array is filled with the column means |
| Scaler.FillStds | bright-future/src/ml_utils.js:13-21 | the std array is filled with the column stds |
| Scaler.Fit | bright-future/src/ml_utils.js:2-23 | the fitting method returns the specified scaler |
| Scaler.ScalerShape | bright-future/src/ml_utils.js:4-20 | mean and std have the column count, mean[j] is the column sum / n, and std[j] is never 0 |
| Scaler.ConstantColumnToZero | bright-future/src/ml_utils.js:20-27 | a constant column has mean the constant and transforms to all zeros |
| Scaler.TransformConcat | bright-future/src/ml_utils.js:25-28 | transforming a concatenation is concatenating the transforms |
| Scaler.CentredColumn | bright-future/src/ml_utils.js:27 | with the column mean, the transformed column sums to 0 |
| Scaler.TransformedColumn | bright-future/src/ml_utils.js:27 | column j of the transform is the standardised column j |
| Scaler.TrainingColumnsCentred | bright-future/src/ml_utils.js:2-28 | each column of the standardised training matrix sums to 0 |
| Scaler.ScalerFromTrainingOnly | bright-future/src/ml_utils.js:30-35 | the scaler depends only on the training rows and is the fitted one; the same scaler transforms both partitions; the test rows do not affect it |
| Scaler.StandardizeTrainTest | bright-future/src/ml_utils.js:30-35 | fails as fitScaler does on an empty Xtrain, otherwise both partitions transformed with the scaler fitted on Xtrain; ScalerFromTrainingOnly and TrainingColumnsCentred state it |
| Logistic.Dot | bright-future/src/train_ml.js:3-7 | the loop computes the dot product over the first vector's length |
| Logistic.DotPrefix | bright-future/src/train_ml.js:3-6 | the first k terms of `s += a[i] * b[i]` |
| Logistic.DotProduct | bright-future/src/train_ml.js:3-7 | `dot(a, b)` over a's length; Dot proves the loop computes it |
| Logistic.DotPrefixSymmetric | bright-future/src/train_ml.js:3-7 | the dot product is symmetric |
| Logistic.DotPrefixZero | bright-future/src/train_ml.js:3-7 | a zero vector has dot product 0 |
| Logistic.Range | bright-future/src/train_ml.js:27 | `Array.from({length: n}, (_, i) => i)` is 0..n-1 |
| Logistic.Draws | bright-future/src/train_ml.js:28-30 | admissible draws of one shuffle: `Math.floor(Math.random() * (i + 1))` lies in [0, i] for every step; ShufflePermutes assumes only this |
| Logistic.Swap | bright-future/src/train_ml.js:30 | the swap exchanges positions i and j and changes nothing else |
| Logistic.SwapPermutes | bright-future/src/train_ml.js:30 | a swap is a permutation |
| Logistic.ShuffleFrom | bright-future/src/train_ml.js:28-31 | the shuffle keeps the length |
| Logistic.Shuffled | bright-future/src/train_ml.js:27-31 | the shuffled index list has n entries |
| Logistic.ShufflePermutes | bright-future/src/train_ml.js:28-31 | for any draws j in [0, i], the swaps give a permutation |
| Logistic.SwapAt | bright-future/src/train_ml.js:30 | the in-place swap leaves the array as the specified swap of its old contents |
| Logistic.ShuffledIndices | bright-future/src/train_ml.js:27-31 | the in-place Fisher-Yates loop returns the specified shuffle of 0..n-1 |
| Logistic.ShuffleStep | bright-future/src/train_ml.js:28-31 | one downward step swaps position i with draw j and continues from i - 1 |
| Logistic.RangeOnce | bright-future/src/train_ml.js:27 | 0..n-1 holds each index below n once and nothing else |
| Logistic.EachSampleOnce | bright-future/src/train_ml.js:27-33 | the shuffled order holds every sample index exactly once, so each sample is updated once per epoch |
| Logistic.StepModel | bright-future/src/train_ml.js:34-44 | a sample update keeps the number of weights |
| Logistic.EpochsOf | bright-future/src/train_ml.js:16 | `opts.epochs ?? 2000`, no passes for a negative count |
| Logistic.LrOf | bright-future/src/train_ml.js:17 | `opts.lr ?? 0.01` |
| Logistic.RegOf | bright-future/src/train_ml.js:18 | `opts.reg ?? 1e-4` |
| Logistic.TrainingSet | bright-future/src/train_ml.js:13-15 | one label per row and every row as long as the first, the shape the trainer reads |
| Logistic.EpochDraws | bright-future/src/train_ml.js:24-31 | admissible shuffle draws for each of the first e epochs |
| Logistic.PredictProba | bright-future/src/train_ml.js:54 | `sigmoid(dot(w, x) + b)` over the model's w and b alone; StepModel takes each sample's error from it, so StepWeights and BiasNotRegularised state the update it drives |
| Logistic.StepWeights | bright-future/src/train_ml.js:41-43 | w[k] becomes w[k] - lr * (err * x[k] + reg * w[k]) for every k |
| Logistic.RunOrder | bright-future/src/train_ml.js:33-47 | an epoch keeps the number of weights |
| Logistic.RunEpochs | bright-future/src/train_ml.js:24-52 | training keeps the number of weights |
| Logistic.TrainLogistic | bright-future/src/train_ml.js:13-55 | training fails exactly on an empty X and returns nFeatures weights |
| Logistic.UpdateSample | bright-future/src/train_ml.js:34-44 | the in-place update of w and b is the specified sample step |
| Logistic.UpdateWeights | bright-future/src/train_ml.js:41-43 | the in-place weight loop is the specified weight step |
| Logistic.RunEpoch | bright-future/src/train_ml.js:33-47 | the sample loop applies the steps in the shuffled order |
| Logistic.TrainLogisticSGD | bright-future/src/train_ml.js:13-55 | the trainer returns the specified model; `predictProba` depends only on the final w and b |
| Logistic.BiasNotRegularised | bright-future/src/train_ml.js:41-44 | the bias update does not depend on reg, and reg only adds lr * reg * w[k] to each weight |
| Logistic.ZeroRateKeepsModel | bright-future/src/train_ml.js:41-44 | with learning rate 0 an epoch leaves the model unchanged |
| Logistic.Classify | bright-future/src/train_ml.js:63-66 | one sample increments exactly the specified confusion cell |
| Logistic.Tally | bright-future/src/train_ml.js:59-67 | the four counters after the first k rows, each row moving at most one; TallyCoversBinaryLabels and ConfusionTotals prove the counts total the 0/1 labels |
| Logistic.Predicted | bright-future/src/train_ml.js:61 | `p >= 0.5 ? 1 : 0`; PredictionsBinary proves every class 0 or 1 |
| Logistic.TallyStep | bright-future/src/train_ml.js:63-66 | the four `if`s of one row: each moves its counter iff prediction and label match it, and a label other than 0 or 1 moves none; Classify proves the method equal to it |
| Logistic.Binary | bright-future/src/train_ml.js:63-66 | at most one binary label per sample |
| Logistic.Summarize | bright-future/src/train_ml.js:68-72 | acc is the unguarded ratio (tp+tn)/(tp+tn+fp+fn); precision and recall are guarded ratios; f1 from them |
| Logistic.F1 | bright-future/src/train_ml.js:71 | `precision + recall === 0 ? 0 : 2 * (precision * recall) / (precision + recall)`; F1Bounds keeps it in [0, 1] |
| Logistic.Predictions | bright-future/src/train_ml.js:60-61 | one prediction per row, 1 iff p >= 0.5 |
| Logistic.EvaluateModel | bright-future/src/train_ml.js:57-73 | the evaluation loop returns the specified metrics |
| Logistic.Evaluation | bright-future/src/train_ml.js:57-73 | the metrics of the tallied predictions: unguarded accuracy, guarded precision and recall and f1; AccuracyNaNIffEmpty, AccuracyRange and MetricBounds state their values and bounds |
| Logistic.TallyCoversBinaryLabels | bright-future/src/train_ml.js:63-66 | with binary predictions, the four counts total the number of binary labels; other labels land in no cell |
| Logistic.AllBinary | bright-future/src/train_ml.js:63-66 | with labels in {0, 1} every sample is binary |
| Logistic.ConfusionTotals | bright-future/src/train_ml.js:59-67 | with labels in {0, 1}, tp + tn + fp + fn equals the number of samples |
| Logistic.AccuracyNaNIffEmpty | bright-future/src/train_ml.js:68 | with labels in {0, 1} the accuracy is NaN exactly when X is empty |
| Logistic.AccuracyOfEvaluation | bright-future/src/train_ml.js:68 | a numeric accuracy lies in [0, 1] |
| Logistic.PredictionsBinary | bright-future/src/train_ml.js:61 | every predicted class is 0 or 1 |
| Logistic.AccuracyRange | bright-future/src/train_ml.js:68 | accuracy is NaN iff all counts are 0, and otherwise in [0, 1] |
| Logistic.MetricBounds | bright-future/src/train_ml.js:69-71 | precision, recall and f1 are 0 when their denominators are 0 and always lie in [0, 1] |
| Logistic.F1Bounds | bright-future/src/train_ml.js:71 | f1 of values in [0, 1] lies in [0, 1] |
| Geo.Split | bright-future/src/geo_1.js:6 | `split` gives at least one piece and no piece contains the separator |
| Geo.JoinSplit | bright-future/src/geo_1.js:6 | joining the split pieces with the separator restores the input |
| Geo.SplitWithout | bright-future/src/geo_1.js:6 | a string without the separator splits into itself |
| Geo.SplitAt | bright-future/src/geo_1.js:6 | a separator after a separator-free prefix splits off that prefix |
| Geo.SplitJoin | bright-future/src/geo_1.js:6-11 | splitting a join of separator-free pieces gives the pieces back |
| Geo.Join | bright-future/src/geo_1.js:11 | `parts.join(sep)`; JoinSplit and SplitJoin make it the inverse of Split |
| Geo.TrimStart | bright-future/src/geo_1.js:6 | the leading whitespace is removed and the result starts with a non-space |
| Geo.IsSpace | bright-future/src/geo_1.js:6 | the white space and line terminators `String.prototype.trim` removes |
| Geo.Trimmed | bright-future/src/geo_1.js:6 | no white space at either end, what Trim returns |
| Geo.TrimEnd | bright-future/src/geo_1.js:6 | the trailing whitespace is removed and the result ends with a non-space |
| Geo.Trim | bright-future/src/geo_1.js:6 | `trim` gives a string with no whitespace at either end |
| Geo.TrimAddsNothing | bright-future/src/geo_1.js:6 | trimming adds no character |
| Geo.TrimKeepsTrimmed | bright-future/src/geo_1.js:6 | a trimmed string is left unchanged |
| Geo.TrimLeadingBlank | bright-future/src/geo_1.js:6-11 | the blank after ", " is removed by the trim |
| Geo.TrimAll | bright-future/src/geo_1.js:6 | `map(p => p.trim())` element by element |
| Geo.DropEmpty | bright-future/src/geo_1.js:6 | `filter(Boolean)` keeps only non-empty pieces of the input |
| Geo.DropEmptyKeeps | bright-future/src/geo_1.js:6 | without empty pieces the filter changes nothing |
| Geo.Pieces | bright-future/src/geo_1.js:6-23 | every piece is non-empty, trimmed and free of the separator |
| Geo.PiecesOfTwo | bright-future/src/geo_1.js:6-23 | two separator-free parts with non-blank trims give exactly their trims |
| Geo.PiecesOfJoin | bright-future/src/geo_1.js:6 | non-empty trimmed separator-free pieces joined by the separator come back unchanged |
| Geo.PiecesTrailingSeparator | bright-future/src/geo_1.js:23 | a trailing separator adds no piece, its empty segment being dropped |
| Geo.IntegerOf | bright-future/src/geo_1.js:25-27 | a piece reads as an integer iff it is a non-empty digit string, and the value is non-negative |
| Geo.IsDigit | bright-future/src/geo_1.js:25-26 | a decimal digit character |
| Geo.AllDigits | bright-future/src/geo_1.js:25-26 | every character a decimal digit |
| Geo.DecimalValue | bright-future/src/geo_1.js:25-26 | the value of a digit string, leading zeros allowed; DecimalRoundTrip inverts Decimal with it |
| Geo.Decimal | bright-future/src/geo_1.js:25-26 | a number's decimal spelling is a non-empty digit string |
| Geo.DecimalRoundTrip | bright-future/src/geo_1.js:25-26 | reading a number's decimal spelling gives the number back |
| Geo.DaysInMonthOfLeapYear | bright-future/src/geo_1.js:31 | the month table is the calendar of a leap year |
| Geo.DaysInMonth | bright-future/src/geo_1.js:31-32 | the entry of `[31,29,31,30,31,30,31,31,30,31,30,31]` for month m; DaysInMonthOfLeapYear makes it a leap year's calendar |
| Geo.ValidMonthDay | bright-future/src/geo_1.js:27-32 | a month 1..12 with a day from 1 to its table entry; every date ParseDate accepts satisfies it, and ParseFormatted accepts every such date in its printed form |
| Geo.ParseDate | bright-future/src/geo_1.js:21-35 | an accepted date is a valid month/day and came from exactly two pieces |
| Geo.CheckMonthDay | bright-future/src/geo_1.js:27-32 | accepted iff month in 1..12 and day in 1..31 and within the table; the month error exactly when the month fails, checked first |
| Geo.ParseDateOfDigits | bright-future/src/geo_1.js:24-27 | two digit pieces are checked by their decimal values |
| Geo.DigitsPieces | bright-future/src/geo_1.js:23 | two digit strings around '/' split, trim and filter to exactly those two strings |
| Geo.DigitsTrimmed | bright-future/src/geo_1.js:23 | a digit string is trimmed and has no '/' |
| Geo.ParseDigits | bright-future/src/geo_1.js:21-35 | "M/D" with a valid month and day parses to them |
| Geo.ParseDigitsTrailingSlash | bright-future/src/geo_1.js:23-24 | "M/D/" is accepted like "M/D" |
| Geo.ParseFormatted | bright-future/src/geo_1.js:21-35 | printing a valid month and day and parsing them gives them back |
| Geo.DayPastMonth | bright-future/src/geo_1.js:31-32 | a day in 1..31 beyond the month's table entry is rejected with the day-for-month error |
| Geo.CheckDayPastMonth | bright-future/src/geo_1.js:27-32 | a month in 1..12 with a day in 1..31 past its table entry fails only the day-for-month check |
| Geo.FebruaryTwentyNinthAccepted | bright-future/src/geo_1.js:30-32 | 2/29 is always accepted |
| Geo.AprilThirtyFirstRejected | bright-future/src/geo_1.js:31-32 | 4/31 is rejected |
| Geo.FebruaryThirtiethRejected | bright-future/src/geo_1.js:31-32 | 2/30 is rejected |
| Geo.ParseLocation | bright-future/src/geo_1.js:4-19 | an accepted location has valid city and country names and the city is the first piece; the format error exactly when fewer than 2 pieces remain |
| Geo.JoinedHasComma | bright-future/src/geo_1.js:11 | joining two or more pieces with ", " puts a comma right after the first |
| Geo.NameChar | bright-future/src/geo_1.js:14 | a character of `[-.\p{L}0-9' ]`, with `letter` standing for `\p{L}` |
| Geo.ValidName | bright-future/src/geo_1.js:14-16 | a non-empty string of name characters, what `validName.test` accepts; NameHasNoComma and ThreePiecesRejected use it |
| Geo.ThreePiecesRejected | bright-future/src/geo_1.js:11-16 | three or more pieces are always rejected, with the country error when the city is valid, since the joined country contains a comma |
| Geo.NameHasNoComma | bright-future/src/geo_1.js:14 | a valid name contains no comma |
| Geo.ParseCityCountry | bright-future/src/geo_1.js:4-19 | "city, country" with valid trimmed names parses to exactly that city and country |
| Geo.ParseLocationOfTwo | bright-future/src/geo_1.js:6-18 | with exactly two pieces the city check comes first, then the country check, else the two pieces are returned |
| Power.NumberOf | bright-future/src/scrape.js:163-165 | `Number` of a slice: "" is 0, a decimal integer with an optional + or - sign is its value, other text is NaN; a negative value has a leading - |
| Power.Slice | bright-future/src/scrape.js:163-165 | `String.prototype.slice` within bounds is the substring, and is never longer than asked |
| Power.ValuesOf | bright-future/src/scrape.js:172 | `params[p] ?? {}`: a parameter's values, none when it has no series |
| Power.SignedInteger | bright-future/src/scrape.js:163-165 | the slices `Number` reads here: digits, or digits after one + or - sign |
| Power.DateKeys | bright-future/src/scrape.js:130-131 | the keys of the first parameter's series, none without parameters or without that series |
| Power.NumberOfDigits | bright-future/src/scrape.js:163-165 | a non-empty digit string reads as its decimal value |
| Power.NumberOfNegative | bright-future/src/scrape.js:163-165 | a digit string after a minus sign reads as the negated value |
| Power.ParseKey | bright-future/src/scrape.js:162-165 | the year from characters 0-3; month and day from 4-5 and 6-7 for an 8-character key, from 5-6 and 8-9 otherwise, each read with `Number` |
| Power.Digits | bright-future/src/scrape.js:162-165 | w-digit zero-padded spelling of a number |
| Power.CompactKey | bright-future/src/scrape.js:162-165 | the service's YYYYMMDD key of a date |
| Power.DashedKey | bright-future/src/scrape.js:164-165 | the YYYY-MM-DD key shape the other slice offsets read |
| Power.DigitsValue | bright-future/src/scrape.js:162-165 | a padded spelling reads back as the number |
| Power.ParseCompactKey | bright-future/src/scrape.js:163-165 | a YYYYMMDD key parses to its year, month and day |
| Power.ParseDashedKey | bright-future/src/scrape.js:163-165 | a YYYY-MM-DD key parses to its year, month and day by position |
| Power.ParseShortDashedKey | bright-future/src/scrape.js:163-165 | an 8-character key YYYY-M-D is read as YYYYMMDD, so the month and day slices are "-M" and "-D" and read as -M and -D |
| Power.ShortDashedKeySkipped | bright-future/src/scrape.js:163-169 | such a key, with a year in range, falls before January 1 and is skipped rather than breaking the fill |
| Power.RangeBounds | bright-future/src/scrape.js:138-144 | minYear <= every key's year <= maxYear |
| Power.RangeAttained | bright-future/src/scrape.js:138-144 | minYear and maxYear are years of actual keys |
| Power.RangeSetTogether | bright-future/src/scrape.js:138-144 | both bounds exist together and minYear <= maxYear |
| Power.YearOfKey | bright-future/src/scrape.js:140-141 | `Number(s.slice(0, 4))`, None for NaN; RangeBounds and RangeAttained are stated through it |
| Power.YearRange | bright-future/src/scrape.js:138-144 | the scan keeps the running minimum and maximum years |
| Power.MinYear | bright-future/src/scrape.js:138-144 | the running minimum of the numeric key years, none before the first; its lemmas prove it a bound attained by a key |
| Power.MaxYear | bright-future/src/scrape.js:138-144 | the running maximum of the numeric key years, none before the first; its lemmas prove it a bound attained by a key |
| Power.YearsBetween | bright-future/src/scrape.js:145-146 | years is the contiguous range minYear..maxYear |
| Power.YearSpan | bright-future/src/scrape.js:145-146 | minYear..maxYear, empty without a numeric year; YearsBetween and YearSpanCovers prove it contiguous and covering every key year |
| Power.YearSpanCovers | bright-future/src/scrape.js:145-166 | every key's year is in the span at index y - minYear |
| Power.KeyAction | bright-future/src/scrape.js:166-169 | a key that is written targets a cell inside the 366 rows and the year range |
| Power.CompactKeyPlaced | bright-future/src/scrape.js:161-169 | a real date key inside the year range is written at its day-of-year row and y - minYear |
| Power.CellStaysNull | bright-future/src/scrape.js:149-174 | a cell no present key targets stays null |
| Power.Written | bright-future/src/scrape.js:171-174 | a cell after one key: the key's value when the key lands there and the series has it, otherwise unchanged |
| Power.CellAt | bright-future/src/scrape.js:149-175 | a cell after the given keys: null, then each key's write in turn; CellStaysNull and LastWriteWins state which value it holds |
| Power.LastWriteWins | bright-future/src/scrape.js:171-174 | a cell holds the value of the last key that targets it and is present for the parameter |
| Power.FillKey | bright-future/src/scrape.js:162-174 | one key writes its value into each parameter's matrix where the key is present, and fails only for a NaN date of a present key |
| Power.HeldBy | bright-future/src/scrape.js:171-173 | some requested parameter's series has a value under the key |
| Power.FillCells | bright-future/src/scrape.js:161-175 | the fill loop leaves every cell equal to its specification, or fails exactly when some key breaks |
| Power.AnyBroken | bright-future/src/scrape.js:166-173 | some key has a NaN row for a parameter that holds it; FillCells, AssembleMatrices and FetchData fail exactly when it holds |
| Power.BrokenExtends | bright-future/src/scrape.js:168-173 | one breaking key makes the whole fill fail |
| Power.NotBrokenExtends | bright-future/src/scrape.js:168-173 | a non-breaking key keeps the fill going |
| Power.NameOutputs | bright-future/src/scrape.js:177-183 | the returned object has exactly the specified properties |
| Power.WellKnown | bright-future/src/scrape.js:179-183 | T2M, PRECTOTCORR and WS2M, the parameters renamed and not returned under their own names |
| Power.FieldOf | bright-future/src/scrape.js:177-183 | the returned object's property for a key: a requested non-renamed parameter under its own name, temp, precip and wind for the renamed ones, years always; NamingExplained states these |
| Power.NamedAs | bright-future/src/scrape.js:177-183 | the object holds exactly the properties FieldOf gives |
| Power.NamingExplained | bright-future/src/scrape.js:177-183 | years is always present; T2M is temp, PRECTOTCORR is precip, WS2M is wind; every other parameter is kept under its own name |
| Power.NamingComesFromRequest | bright-future/src/scrape.js:177-183 | every matrix is a requested parameter and every key is years, a requested name or one of the three renamings |
| Power.AssembleMatrices | bright-future/src/scrape.js:130-183 | no date keys give `{temp: [], precip: [], years: []}`; otherwise years spans minYear..maxYear, each parameter has a 366 by nYears matrix whose cells are set only from present keys and null elsewhere, and naming is as specified |
| Power.AssembledFrom | bright-future/src/scrape.js:145-183 | for a payload with date keys: years is YearSpan, each requested parameter has a 366 by nYears matrix whose every cell is CellAt, and the properties are named as FieldOf says |
| Power.BadNamesOfList | bright-future/src/scrape.js:113-115 | the bad list reported as names joined by commas is read back as exactly those names |
| Power.BadNames | bright-future/src/scrape.js:113-115 | the non-empty comma pieces of the captured bad list, trimmed; BadNamesOfList reads a written list back |
| Power.Reject | bright-future/src/scrape.js:110-115 | a failed reply: its status, with the bad names when the message names incorrect parameters |
| Power.RemoveBad | bright-future/src/scrape.js:117 | filtering never lengthens the list |
| Power.RemoveBadExact | bright-future/src/scrape.js:117 | a name stays iff it was requested and is not reported bad |
| Power.RemoveBadKeepsOrder | bright-future/src/scrape.js:117 | the filter keeps the order of the remaining names |
| Power.Attempt | bright-future/src/scrape.js:108-124 | one pass of the loop body: a reply with a body stops with it, one without retries, a 422 with a bad list retries without those names or stops failing when none are left, any other status stops with `POWER HTTP <status>` |
| Power.Retry | bright-future/src/scrape.js:94-127 | attempts up to five in order, stopping at the first attempt that stops, and failing after the fifth without a body |
| Power.FetchWithRetry | bright-future/src/scrape.js:92-127 | the retry loop returns the specified outcome and final parameter list |
| Power.RetryKeepsOrder | bright-future/src/scrape.js:94-119 | the final parameter list is an order-preserving subsequence of the requested one |
| Power.AttemptKeepsOrder | bright-future/src/scrape.js:110-119 | one attempt leaves a parameter list that is an order-preserving subsequence of the list it sent |
| Power.RetryStopsWhenEmpty | bright-future/src/scrape.js:118-127 | once no names are left the loop stops and the fetch fails |
| Power.RetryOutcomes | bright-future/src/scrape.js:110-125 | success returns a payload some reply carried; an HTTP error comes from a reply that was not a 422 with a bad-parameter list |
| Power.FetchData | bright-future/src/scrape.js:92-183 | the fetch fails as the retry does, or assembles the payload for the originally requested parameters |

## Left out

- Network, caching and time in `scrape.js`. The model leaves out `fetch`, the
  URL strings, `res.text`, `JSON.parse`, the local-storage and global
  caches and the TTL checks. The server's replies are a parameter
  sequence. A reply is already decoded into a payload, or into a status with
  the parsed bad-parameter list.
- Power.FetchWithRetry: needs at least five replies, one per possible
  attempt. The source takes each reply from the network, so the parameter
  sequence must be long enough.
- Power.BadNames: the regular expression that extracts the bad list from the
  422 text is not modelled. A reply carries the captured group, and the
  split on `[ ,]+` is modelled as a split on commas with trimming. For
  names without blanks, which is the set the capture group allows, the two
  agree.
- The geocoding calls in `geo_1.js`: `geocodeCityCountry`, `reverseGeocode`
  and `suggestLocations`. They are HTTP requests with timeouts.
- Floating point. The model computes on unbounded reals, so rounding is not
  modelled. `Math.log`, `Math.sqrt`, `Math.sin`, `Math.cos`, `sigmoid` and
  the normal-CDF approximation `phi` are parameters. The cyclical day
  encoding is two parameters `sinDay` and `cosDay`.
- The p-value, `se_slope` and `t_stat` of `getTrendForDay` are kept as
  abstract functions of the moments. The code as written throws before
  returning them (see Findings).
- `Math.random` in the weight initialisation and the shuffle. The initial
  weights and the draws `j` are parameters, with the draws constrained to
  [0, i]. The loss accumulator is never used, so it is not modelled.
- The argument juggling of `spencer_1.js` `getPValue`. Month and day are
  given directly as numbers. Only the two call shapes are modelled.
- Power.NumberOf: reads only an optionally signed decimal integer. JavaScript's
  `Number` also reads surrounding white space, a decimal point, an exponent
  and 0x/0o/0b prefixes (" 1", "1.", "1e1", "0x1"). A key slice of that kind
  is NaN here, so such a key breaks the fill where the code would skip or
  write it. The service's keys are digit strings, which both read alike.
- Calendar.DayOfYearIndex: the range limit of `Date` is not modelled. A
  date more than 8.64e15 ms from 1970 is NaN in JavaScript, and the loops
  skip it through `isNaN(dt)` (spencer.js:30, 68, 106, 142 and 178,
  spencer_threshold_1.js:9 and 35, spencer_param_1.js:7 and 49,
  spencer_1.js:10). Here every date has an index, so a reading the code
  would skip for such a year is read.
- Geo.IntegerOf: models the `Number()` coercion in `geo_1.js`. Only decimal
  digit strings are read as numbers, and any other piece is treated as NaN.
  So inputs such as "+7", "0x7", "7.0" or "1e1", which `Number` accepts, are
  rejected here.
- Scaler.FitScaler, Scaler.TransformRow: ragged matrices are outside the
  model. `fitScaler` and `transformWithScaler` (ml_utils.js:2-27) read
  `undefined` past a short row and compute NaN. Here `FitScaler` requires
  every row as long as the first, and `TransformRow` requires a row no
  longer than the mean vector. The builder's rows all have length
  2 + lags + 3 (`Features.DatasetShape`), so every row the model passes in
  meets both.
- `\p{L}` in the name pattern. It is an abstract `letter` predicate, and the
  comma lemmas require only that a comma is not a letter.
- In `scrape.js`, the `k in obj` test uses the payload's own keys. Keys
  inherited from the object prototype are not modelled.
- Geo.ParseLocation: `typeof input !== 'string'`. The same goes for every
  other JavaScript type check on arguments, because the model's arguments
  are typed.
- The UI components, the driver scripts, the Python tools and the smoke test
  are not part of this model.

## Findings

| source | as written | input that shows it | evidently intended | confidence | as-written member | corrected member |
|---|---|---|---|---|---|---|
| bright-future/src/spencer.js:210-211 | the p-value calls `Math.erf`, which standard JavaScript does not define, so `getTrendForDay` throws a TypeError whenever it has at least 3 samples | a one-row matrix `[[1, 2, 3]]` with no years vector, month 1, day 1 | a working normal CDF, so that the fit is returned | not executed | Trend.TrendAsWritten, Trend.ErfCounterexample | Trend.TrendForDay, Trend.ExactLineRecovered |
