# StatUtil statistics kernel, modelled in Dafny

This project models `StatUtil`, the static statistics kernel of the column
library (package `com.deathrayresearch.outlier.util`). It covers the reducers
that walk a float column's cursor: `sum`, `min`, `max`, `mean`, `variance`,
`standardDeviation` and the two `stats` overloads. It also covers `product`
over a float array and the mode finder `mode` / `getMode`, which works on a
window of a float array.

Modules:

- `Numbers` (numbers.dfy) holds Java's `float` as `NaN | Num(real)`. Every
  comparison with NaN is false, and `+ - * /` propagate NaN. It also holds
  Java's 32-bit `int` with wrap-around addition, and the left-to-right float
  sum `Total`.
- `Columns` (columns.dfy) holds the cursor contract of `FloatColumn`: a class
  with the column's values and a traversal position `pos`. It offers
  `Size`, `HasNext`, `Next`, `Reset`, `FirstElement` and the column's own `Sum`.
- `Frequency` (frequency.dfy) models the Apache Commons `Frequency` table.
  The table is a `map<real, nat>` filled one value at a time. Its `Mode` query
  returns every key of highest count, least first.
- `StatUtil` (stat_util.dfy) holds the kernel. Each reducer is a method with
  the source's loop. It is proved equal to a specification function: `MinScan`,
  `MaxScan`, `Total`, `Prod`, `MeanOf` or `SampleVariance`. Lemmas then state
  what those functions mean.

Where the code and its documentation disagree, the model follows the code:

- `sum` and `product` test `value != Float.NaN`. That test is always true, so
  NaN is never skipped, and `product`'s `empty` flag is true only for a
  zero-length array. See "## Findings".
- `min` does not rewind the cursor. It visits only the elements from the
  current position on, so an exhausted cursor makes `min` return the first
  element.
- `max` seeds with the first element. A NaN first element is never replaced,
  so `max` returns NaN.
- The doc comment of `variance` promises NaN for no values and 0.0 for one
  value. The code divides by `size() - 1`. It returns 0 for an empty column
  (0 / -1) and NaN for a single value (0 / 0).
- In `getMode`, `begin + length` is Java `int` arithmetic. A sum past
  `Integer.MAX_VALUE` wraps to a negative end, so the loop reads nothing and
  the result is empty. An end past the array makes the loop fail at the first
  index that is out of range.

## Model

| member | source | states |
|---|---|---|
| `Numbers.Div` | src/main/java/com/deathrayresearch/outlier/util/StatUtil.java:99 | dividing by zero gives NaN; the precondition makes every caller show that only 0 (or NaN) is ever divided by zero, so no infinity arises |
| `Numbers.WrapAdd` | src/main/java/com/deathrayresearch/outlier/util/StatUtil.java:222 | `begin + length` as Java int addition: the result is congruent to the exact sum modulo 2^32 |
| `Numbers.TotalNaNIff` | src/main/java/com/deathrayresearch/outlier/util/StatUtil.java:21-31 | a float sum is NaN exactly when some element is NaN, and otherwise it is the exact sum |
| `Columns.FloatColumn.constructor` | src/main/java/com/deathrayresearch/outlier/util/StatUtil.java:138 | a new column holds the given values, with its cursor at the start |
| `Columns.FloatColumn.Next` | src/main/java/com/deathrayresearch/outlier/util/StatUtil.java:24-25 | returns the element at the cursor and moves the cursor one step |
| `Columns.FloatColumn.Reset` | src/main/java/com/deathrayresearch/outlier/util/StatUtil.java:67 | moves the cursor back to the first element |
| `Columns.FloatColumn.HasNext` | src/main/java/com/deathrayresearch/outlier/util/StatUtil.java:24 | on a valid cursor, the traversal has nothing left exactly when the position equals the size |
| `Columns.FloatColumn.FirstElement` | src/main/java/com/deathrayresearch/outlier/util/StatUtil.java:52 | element 0 of a non-empty column; it reads no cursor state, so it neither depends on nor moves the position |
| `Columns.FloatColumn.Size` | src/main/java/com/deathrayresearch/outlier/util/StatUtil.java:49 | the number of values, independent of the cursor position |
| `Columns.FloatColumn.Sum` | src/main/java/com/deathrayresearch/outlier/util/StatUtil.java:124 | the column's own `sum()`, taken to add every value and to leave the cursor alone: NaN exactly when some value is NaN, otherwise the exact sum |
| `Numbers.Sqrt` | src/main/java/com/deathrayresearch/outlier/util/StatUtil.java:114 | `FastMath.sqrt` and the cast to float: NaN exactly for a NaN or negative argument, otherwise the given square-root routine's value |
| `Frequency.AddValue` | src/main/java/com/deathrayresearch/outlier/util/StatUtil.java:225 | `freq.addValue`: the key set gains the value, its count goes up by one, and every other count is unchanged |
| `StatUtil.Widen` | src/main/java/com/deathrayresearch/outlier/util/StatUtil.java:138 | `ints.toFloatArray()`: same length, each int becomes the number with the same value, in order |
| `Frequency.TallyCounts` | src/main/java/com/deathrayresearch/outlier/util/StatUtil.java:221-227 | the table built from a window holds exactly the numbers that occur in it, each with its count; NaN is never a key |
| `Frequency.Mode` | src/main/java/com/deathrayresearch/outlier/util/StatUtil.java:228 | the table's mode list is strictly increasing, every entry has the highest count, and every key of highest count is listed |
| `StatUtil.Sum` | src/main/java/com/deathrayresearch/outlier/util/StatUtil.java:21-31 | sums every element from the cursor to the end, NaN included, and leaves the cursor exhausted |
| `StatUtil.SumKeepsNaN` | src/main/java/com/deathrayresearch/outlier/util/StatUtil.java:26 | as written, sum of [1, NaN, 3] is NaN |
| `StatUtil.SumSkippingNaN` | src/main/java/com/deathrayresearch/outlier/util/StatUtil.java:21-31 | sum with the NaN test as `Float.isNaN`: the sum of the non-NaN elements from the cursor on; the cursor ends exhausted |
| `StatUtil.SumSkippingNaNIgnoresNaN` | src/main/java/com/deathrayresearch/outlier/util/StatUtil.java:26 | the corrected sum is never NaN, appending a NaN does not change it, it keeps exactly the numbers, and [1, NaN, 3] sums to 4 |
| `StatUtil.Product` | src/main/java/com/deathrayresearch/outlier/util/StatUtil.java:33-46 | NaN for a zero-length array, otherwise the float product of every element |
| `StatUtil.ProdNaNIff` | src/main/java/com/deathrayresearch/outlier/util/StatUtil.java:36-41 | the float product is NaN exactly when some element is NaN |
| `StatUtil.ProductNaNIff` | src/main/java/com/deathrayresearch/outlier/util/StatUtil.java:33-46 | product as written is NaN exactly for an empty array or one holding a NaN; [1, NaN] gives NaN |
| `StatUtil.ProductSkippingNaN` | src/main/java/com/deathrayresearch/outlier/util/StatUtil.java:33-46 | product with the NaN test as `Float.isNaN`: NaN exactly when no element is a number, otherwise the product of the numbers |
| `StatUtil.Min` | src/main/java/com/deathrayresearch/outlier/util/StatUtil.java:48-60 | NaN for an empty column, with the cursor untouched; otherwise the scan from the first element over the elements from the cursor on, with no rewind; the cursor ends exhausted |
| `StatUtil.MinScanProperties` | src/main/java/com/deathrayresearch/outlier/util/StatUtil.java:52-59 | min is NaN only when the seed and every visited element are NaN; otherwise it is at most the seed and every visited number, and it is the seed or a visited element |
| `StatUtil.MinOfExhaustedColumn` | src/main/java/com/deathrayresearch/outlier/util/StatUtil.java:52-53 | from an exhausted cursor, min is the first element: for [5, 1] it is 5, while a scan from the start gives 1 |
| `StatUtil.Max` | src/main/java/com/deathrayresearch/outlier/util/StatUtil.java:62-77 | NaN for an empty column, with the cursor untouched; otherwise seeds with the first element, rewinds, and scans every element; the cursor ends exhausted |
| `StatUtil.MaxScanProperties` | src/main/java/com/deathrayresearch/outlier/util/StatUtil.java:66-76 | max is NaN exactly when the seed is NaN; otherwise it is at least the seed and every number, and it is the seed or an element |
| `StatUtil.Mean` | src/main/java/com/deathrayresearch/outlier/util/StatUtil.java:123-125 | NaN for an empty column (0 / 0) or one holding a NaN; otherwise the exact sum of the values over the size; it reads no cursor state, so the cursor does not move |
| `StatUtil.MeanProperties` | src/main/java/com/deathrayresearch/outlier/util/StatUtil.java:123-125 | mean is NaN for an empty column or one holding a NaN, and otherwise the exact sum over the size |
| `StatUtil.ColumnBounds` | src/main/java/com/deathrayresearch/outlier/util/StatUtil.java:48-77 | for a non-empty column without NaN, read from the start: min and max are elements, they bound every element, and min <= mean <= max |
| `StatUtil.MeanBetween` | src/main/java/com/deathrayresearch/outlier/util/StatUtil.java:124 | the mean of numbers that all lie in [lo, hi] lies in [lo, hi] |
| `StatUtil.Variance` | src/main/java/com/deathrayresearch/outlier/util/StatUtil.java:88-101 | takes the mean, rewinds, sums the squared deviations of all elements and divides by size - 1; the cursor ends exhausted |
| `StatUtil.SingleDeviationIsZero` | src/main/java/com/deathrayresearch/outlier/util/StatUtil.java:89-99 | for a single element, the squared deviation from the mean is 0 or NaN, so the division by zero at n = 1 is 0 / 0 |
| `StatUtil.SquaredDeviationsProperties` | src/main/java/com/deathrayresearch/outlier/util/StatUtil.java:91-97 | the sum of squared deviations is NaN if the mean or an element is NaN, and otherwise a number that is not negative |
| `StatUtil.VarianceEdgeCases` | src/main/java/com/deathrayresearch/outlier/util/StatUtil.java:99 | variance is 0 for an empty column and NaN for a single element |
| `StatUtil.VarianceProperties` | src/main/java/com/deathrayresearch/outlier/util/StatUtil.java:88-101 | with two or more elements, variance is NaN if an element is NaN and otherwise a number that is not negative |
| `StatUtil.StandardDeviation` | src/main/java/com/deathrayresearch/outlier/util/StatUtil.java:109-120 | NaN at size 0 and exactly 0.0 at size 1, both with the cursor untouched; above 1, the square root of the variance, with the cursor exhausted |
| `StatUtil.StatsOfFloats` | src/main/java/com/deathrayresearch/outlier/util/StatUtil.java:127-135 | the record holds min (from the cursor's position), max, n = size, mean and variance; the cursor ends exhausted |
| `StatUtil.StatsOfInts` | src/main/java/com/deathrayresearch/outlier/util/StatUtil.java:137-146 | over the widened ints: n = size; empty gives NaN min, max and mean; otherwise min and max are elements that bound every element, min <= mean <= max, and the variance is not negative when n > 1 |
| `StatUtil.StatsExample` | src/main/java/com/deathrayresearch/outlier/util/StatUtil.java:127-135 | stats of [1, 2, 3, 4, 5] is min 1, max 5, n 5, mean 3, variance 2.5 |
| `StatUtil.GetMode` | src/main/java/com/deathrayresearch/outlier/util/StatUtil.java:219-236 | fails exactly when the loop reaches an index past the array, at the first such index; otherwise returns a fresh array that is the mode list of the window |
| `StatUtil.ModeListFromTable` | src/main/java/com/deathrayresearch/outlier/util/StatUtil.java:228-235 | the table's mode list, copied as floats, is the mode list of the window |
| `StatUtil.Mode` | src/main/java/com/deathrayresearch/outlier/util/StatUtil.java:167-172 | a null sample fails; otherwise the result is a new array holding the mode list of the whole sample, as for getMode(sample, 0, length) |
| `StatUtil.ModeRange` | src/main/java/com/deathrayresearch/outlier/util/StatUtil.java:195-209 | a null sample, then a negative begin, then a negative length fail in that order; otherwise the outcome is getMode's, and a success is a new array holding the window's mode list |
| `StatUtil.ModeExists` | src/main/java/com/deathrayresearch/outlier/util/StatUtil.java:150-153 | a window holding a number has a mode |
| `StatUtil.ModeListEmptyIff` | src/main/java/com/deathrayresearch/outlier/util/StatUtil.java:158-160 | the mode list is empty exactly when the window is empty or all NaN |
| `StatUtil.IncreasingListsEqual` | src/main/java/com/deathrayresearch/outlier/util/StatUtil.java:163 | two strictly increasing lists with the same members are equal |
| `StatUtil.ModeListUnique` | src/main/java/com/deathrayresearch/outlier/util/StatUtil.java:149-163 | the documented contract fixes the result: two mode lists of one window are equal |
| `StatUtil.ModeExample` | src/main/java/com/deathrayresearch/outlier/util/StatUtil.java:154-156 | the modes of {0, 12, 5, 6, 0, 13, 5, 17} are exactly {0, 5} |
| `StatUtil.WindowOverflowIsEmpty` | src/main/java/com/deathrayresearch/outlier/util/StatUtil.java:222 | when begin + length passes Integer.MAX_VALUE, the end wraps negative, nothing is read, and the window is empty |
| `StatUtil.WindowInRange` | src/main/java/com/deathrayresearch/outlier/util/StatUtil.java:222-223 | without overflow and within the array, the window is the `length` elements from `begin` |

## Left out

- IEEE 754 single-precision rounding, infinities and the sign of zero. Values are exact reals, so no computation overflows to infinity and no input can hold `Float.POSITIVE_INFINITY` or `Float.NEGATIVE_INFINITY`. The empty column's variance, which is -0.0 in Java, is 0 here.
- `FastMath.sqrt` and the cast back to float. The square-root routine is the parameter `sqrt` of `StandardDeviation`, so the fact that the standard deviation squared is the variance is not stated.
- `FloatColumn` storage, `FloatColumn.create`, `IntColumn.toFloatArray` and the column's own `sum()`. These are column-layer code and not part of this model. The column's `sum()` is taken to be the float sum of all its values, read without moving the cursor.
- StatUtil.StatsOfInts: the int-to-float widening is exact here. Java rounds ints whose magnitude is above 2^24.
- The internals of Apache Commons `Frequency`. Its keys are `Float` objects, which tell 0.0 from -0.0; here both are the real 0.
- Exception classes and `LocalizedFormats` payloads. They are the `ModeError` outcomes `NullInputArray`, `NegativeStart`, `NegativeLength` and `IndexOutOfBounds`.
- StatUtil.Mode requires the sample to be shorter than 2^31 elements, the Java array limit, so that its length fits in an `int`.
- Concurrent use of one column from several threads, which races on the cursor position.

## Findings

| source | as written | input that shows it | evidently intended | confidence | as-written member | corrected member |
|---|---|---|---|---|---|---|
| src/main/java/com/deathrayresearch/outlier/util/StatUtil.java:26 | `value != Float.NaN` is always true, so `sum` adds NaN and becomes NaN | column [1, NaN, 3] sums to NaN | skip NaN with `Float.isNaN`, giving 4 | high; not executed | `StatUtil.SumKeepsNaN` | `StatUtil.SumSkippingNaNIgnoresNaN` |
| src/main/java/com/deathrayresearch/outlier/util/StatUtil.java:37 | the same test in `product`: NaN is multiplied in, and `empty` is true only for a zero-length array | array [1, NaN] gives NaN | skip NaN and return NaN only when no element is a number, giving 1 | high; not executed | `StatUtil.ProductNaNIff` | `StatUtil.ProductSkippingNaN` |

No other operation in the kernel calls `sum` or `product`: `mean` and `stats` use the column's own sum. So the corrected versions stand beside the as-written ones, and the as-written ones stay the model of the source.
