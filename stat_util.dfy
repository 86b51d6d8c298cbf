/**
 * The statistics kernel: reducers that walk a column cursor (sum, min, max,
 * mean, variance, standard deviation, the stats record), a product over a
 * float array, and the mode finder over a window of a float array.
 *
 * Each reducer is a loop over the caller's cursor and leaves the cursor where
 * its traversal ended; the specification functions below give the value each
 * loop computes, and the lemmas state what those values mean.
 */
module StatUtil {
  import opened Numbers
  import opened Columns
  import Frequency

  // ---------------------------------------------------------------------------
  // Specification functions: the folds the loops compute
  // ---------------------------------------------------------------------------

  /** Left-to-right float product of every element, starting from 1.0. */
  function Prod(s: seq<Float>): Float {
    if s == [] then Num(1.0) else Mul(Prod(s[..|s| - 1]), s[|s| - 1])
  }

  /** One step of `min`: NaN is skipped; otherwise keep the running value if it is strictly less. */
  function MinStep(acc: Float, x: Float): Float {
    if IsNaN(x) then acc else if Less(acc, x) then acc else x
  }

  /** The value `min` reaches from `seed` after visiting `s` in order. */
  function MinScan(seed: Float, s: seq<Float>): Float {
    if s == [] then seed else MinStep(MinScan(seed, s[..|s| - 1]), s[|s| - 1])
  }

  /** One step of `max`: NaN is skipped; otherwise take the value if it is strictly greater. */
  function MaxStep(acc: Float, x: Float): Float {
    if IsNaN(x) then acc else if Greater(x, acc) then x else acc
  }

  /** The value `max` reaches from `seed` after visiting `s` in order. */
  function MaxScan(seed: Float, s: seq<Float>): Float {
    if s == [] then seed else MaxStep(MaxScan(seed, s[..|s| - 1]), s[|s| - 1])
  }

  /** The column sum divided by the column size. */
  function MeanOf(s: seq<Float>): Float {
    Div(Total(s), |s|)
  }

  /** Float sum of the squared deviations of the elements of `s` from `avg`. */
  function SquaredDeviations(s: seq<Float>, avg: Float): Float {
    if s == [] then Num(0.0)
    else
      var diff := Sub(s[|s| - 1], avg);
      Add(SquaredDeviations(s[..|s| - 1], avg), Mul(diff, diff))
  }

  /** The sum of squared deviations from the mean, divided by the size minus one. */
  function SampleVariance(s: seq<Float>): Float {
    SingleDeviationIsZero(s);
    Div(SquaredDeviations(s, MeanOf(s)), |s| - 1)
  }

  /** With one element, the mean is that element, so its deviation is zero (or NaN). */
  lemma SingleDeviationIsZero(s: seq<Float>)
    ensures |s| == 1 ==> SquaredDeviations(s, MeanOf(s)) in {NaN, Num(0.0)}
  {
    if |s| == 1 {
      var x := s[0];
      assert s == [x] && s[..0] == [];
      assert Total(s[..0]) == Num(0.0);
      assert Total(s) == Add(Num(0.0), x);
      var m := MeanOf(s);
      if x.Num? {
        assert Total(s) == Num(x.v);
        assert m == Num(x.v / 1.0);
        assert x.v / 1.0 == x.v;
        var d := Sub(x, m);
        assert d == Num(0.0);
        assert SquaredDeviations(s[..0], m) == Num(0.0);
        assert SquaredDeviations(s, m) == Add(Num(0.0), Mul(d, d));
      } else {
        assert SquaredDeviations(s, m) == Add(SquaredDeviations(s[..0], m), NaN);
      }
    }
  }

  // ---------------------------------------------------------------------------
  // Single-pass reducers
  // ---------------------------------------------------------------------------

  /**
   * sum: adds every remaining element of the traversal. The test that is meant
   * to skip NaN compares with `==` against NaN and so never skips anything.
   */
  method Sum(values: FloatColumn) returns (sum: Float)
    requires values.Valid()
    modifies values
    ensures values.Valid() && values.pos == values.Size()
    ensures sum == Total(values.data[old(values.pos)..])
  {
    ghost var start := values.pos;
    sum := Num(0.0);
    while values.HasNext()
      invariant values.Valid() && start <= values.pos
      invariant sum == Total(values.data[start..values.pos])
      decreases values.Size() - values.pos
    {
      var value := values.Next();
      assert values.data[start..values.pos][..values.pos - 1 - start] == values.data[start..values.pos - 1];
      if !Equal(value, NaN) {
        sum := Add(sum, value);
      }
    }
    assert values.data[start..values.pos] == values.data[start..];
  }

  /** sum with the NaN test written as Float.isNaN, which skips NaN. */
  method SumSkippingNaN(values: FloatColumn) returns (sum: Float)
    requires values.Valid()
    modifies values
    ensures values.Valid() && values.pos == values.Size()
    ensures sum == Total(WithoutNaN(values.data[old(values.pos)..]))
  {
    ghost var start := values.pos;
    sum := Num(0.0);
    while values.HasNext()
      invariant values.Valid() && start <= values.pos
      invariant sum == Total(WithoutNaN(values.data[start..values.pos]))
      decreases values.Size() - values.pos
    {
      var value := values.Next();
      assert values.data[start..values.pos][..values.pos - 1 - start] == values.data[start..values.pos - 1];
      if !IsNaN(value) {
        sum := Add(sum, value);
      }
    }
    assert values.data[start..values.pos] == values.data[start..];
  }

  /** The elements of `s` that are not NaN, in order. */
  function WithoutNaN(s: seq<Float>): (r: seq<Float>)
    ensures NoNaN(r)
  {
    if s == [] then []
    else if s[|s| - 1].NaN? then WithoutNaN(s[..|s| - 1])
    else WithoutNaN(s[..|s| - 1]) + [s[|s| - 1]]
  }

  /**
   * product: multiplies every element. As in `sum`, the NaN test never
   * skips anything, so `empty` stays true only for a zero-length array.
   */
  method Product(values: array<Float>) returns (product: Float)
    ensures product == if values.Length == 0 then NaN else Prod(values[..])
  {
    product := Num(1.0);
    var empty := true;
    for i := 0 to values.Length
      invariant empty <==> i == 0
      invariant product == Prod(values[..i])
    {
      var value := values[i];
      assert values[..i + 1][..i] == values[..i];
      if !Equal(value, NaN) {
        empty := false;
        product := Mul(product, value);
      }
    }
    assert values[..values.Length] == values[..];
    if empty {
      return NaN;
    }
  }

  /** product with the NaN test written as Float.isNaN: NaN only when no element is a number. */
  method ProductSkippingNaN(values: array<Float>) returns (product: Float)
    ensures product.NaN? <==> forall i :: 0 <= i < values.Length ==> values[i].NaN?
    ensures product.Num? ==> product == Prod(WithoutNaN(values[..]))
  {
    product := Num(1.0);
    var empty := true;
    for i := 0 to values.Length
      invariant empty <==> forall j :: 0 <= j < i ==> values[j].NaN?
      invariant product == Prod(WithoutNaN(values[..i]))
    {
      var value := values[i];
      assert values[..i + 1][..i] == values[..i];
      if !IsNaN(value) {
        empty := false;
        product := Mul(product, value);
      }
    }
    assert values[..values.Length] == values[..];
    ProdNaNIff(WithoutNaN(values[..]));
    if empty {
      return NaN;
    }
  }

  /**
   * min: NaN for an empty column. Otherwise seeds with the first element and
   * visits the elements from the cursor's current position on, without
   * rewinding first, skipping NaN.
   */
  method Min(values: FloatColumn) returns (min: Float)
    requires values.Valid()
    modifies values
    ensures values.Valid()
    ensures values.Size() == 0 ==> min == NaN && values.pos == old(values.pos)
    ensures values.Size() > 0 ==>
      min == MinScan(values.data[0], values.data[old(values.pos)..]) && values.pos == values.Size()
  {
    if values.Size() == 0 {
      return NaN;
    }
    ghost var start := values.pos;
    min := values.FirstElement();
    while values.HasNext()
      invariant values.Valid() && start <= values.pos
      invariant min == MinScan(values.data[0], values.data[start..values.pos])
      decreases values.Size() - values.pos
    {
      var value := values.Next();
      assert values.data[start..values.pos][..values.pos - 1 - start] == values.data[start..values.pos - 1];
      if !IsNaN(value) {
        min := if Less(min, value) then min else value;
      }
    }
    assert values.data[start..values.pos] == values.data[start..];
  }

  /**
   * max: NaN for an empty column. Otherwise seeds with the first element,
   * rewinds the cursor and visits every element, skipping NaN.
   */
  method Max(values: FloatColumn) returns (max: Float)
    requires values.Valid()
    modifies values
    ensures values.Valid()
    ensures values.Size() == 0 ==> max == NaN && values.pos == old(values.pos)
    ensures values.Size() > 0 ==>
      max == MaxScan(values.data[0], values.data) && values.pos == values.Size()
  {
    if values.Size() == 0 {
      return NaN;
    }
    max := values.FirstElement();
    values.Reset();
    while values.HasNext()
      invariant values.Valid()
      invariant max == MaxScan(values.data[0], values.data[..values.pos])
      decreases values.Size() - values.pos
    {
      var value := values.Next();
      assert values.data[..values.pos][..values.pos - 1] == values.data[..values.pos - 1];
      if !IsNaN(value) {
        if Greater(value, max) {
          max := value;
        }
      }
    }
    assert values.data[..values.pos] == values.data;
  }

  // ---------------------------------------------------------------------------
  // Mean, variance, standard deviation
  // ---------------------------------------------------------------------------

  /**
   * mean: the column's own sum over its size; the cursor is not moved. NaN
   * for an empty column or one holding a NaN, otherwise the exact average.
   */
  function Mean(values: FloatColumn): (r: Float)
    ensures r == MeanOf(values.data)
    ensures values.Size() == 0 ==> r == NaN
    ensures (exists i :: 0 <= i < values.Size() && values.data[i].NaN?) ==> r == NaN
    ensures values.Size() > 0 && NoNaN(values.data) ==> r == Num(RealSum(values.data) / values.Size() as real)
  {
    MeanProperties(values.data);
    Div(values.Sum(), values.Size())
  }

  /**
   * variance: the mean, then a rewind and one pass summing the squared
   * deviations, divided by size - 1 with no guard for a single element.
   */
  method Variance(column: FloatColumn) returns (variance: Float)
    requires column.Valid()
    modifies column
    ensures column.Valid() && column.pos == column.Size()
    ensures variance == SampleVariance(column.data)
  {
    var avg := Mean(column);
    column.Reset();
    var sumSquaredDiffs := Num(0.0);
    while column.HasNext()
      invariant column.Valid()
      invariant sumSquaredDiffs == SquaredDeviations(column.data[..column.pos], avg)
      decreases column.Size() - column.pos
    {
      var next := column.Next();
      assert column.data[..column.pos][..column.pos - 1] == column.data[..column.pos - 1];
      var diff := Sub(next, avg);
      var sqrdDiff := Mul(diff, diff);
      sumSquaredDiffs := Add(sumSquaredDiffs, sqrdDiff);
    }
    assert column.data[..column.pos] == column.data;
    SingleDeviationIsZero(column.data);
    variance := Div(sumSquaredDiffs, column.Size() - 1);
  }

  /**
   * standardDeviation: NaN for an empty column, exactly 0.0 for one element
   * (the cursor is left alone in both cases), otherwise the square root of
   * the variance. The square-root routine is the parameter `sqrt`.
   */
  method StandardDeviation(values: FloatColumn, sqrt: real -> real) returns (stdDev: Float)
    requires values.Valid()
    modifies values
    ensures values.Valid()
    ensures values.Size() == 0 ==> stdDev == NaN && values.pos == old(values.pos)
    ensures values.Size() == 1 ==> stdDev == Num(0.0) && values.pos == old(values.pos)
    ensures values.Size() > 1 ==>
      stdDev == Sqrt(sqrt, SampleVariance(values.data)) && values.pos == values.Size()
  {
    stdDev := NaN;
    var n := values.Size();
    if n > 0 {
      if n > 1 {
        var variance := Variance(values);
        stdDev := Sqrt(sqrt, variance);
      } else {
        stdDev := Num(0.0);
      }
    }
  }

  // ---------------------------------------------------------------------------
  // The stats record
  // ---------------------------------------------------------------------------

  datatype Stats = Stats(min: Float, max: Float, n: int, mean: Float, variance: Float)

  /**
   * The record `stats` builds for a column holding `s` whose cursor starts at
   * `from`: `min` starts wherever the cursor is, the other fields see every element.
   */
  function ColumnStats(s: seq<Float>, from: nat): Stats
    requires from <= |s|
  {
    Stats(if s == [] then NaN else MinScan(s[0], s[from..]),
          if s == [] then NaN else MaxScan(s[0], s),
          |s|,
          MeanOf(s),
          SampleVariance(s))
  }

  /** stats(FloatColumn): min, max, n, mean and variance, each from its own traversal. */
  method StatsOfFloats(values: FloatColumn) returns (stats: Stats)
    requires values.Valid()
    modifies values
    ensures values.Valid() && values.pos == values.Size()
    ensures stats == ColumnStats(values.data, old(values.pos))
  {
    var min := Min(values);
    var max := Max(values);
    var n := values.Size();
    var mean := Div(values.Sum(), n);
    var variance := Variance(values);
    stats := Stats(min, max, n, mean, variance);
  }

  /** The int values of an int column, widened to float. */
  function Widen(ints: seq<int>): (r: seq<Float>)
    ensures |r| == |ints| && forall i :: 0 <= i < |ints| ==> r[i] == Num(ints[i] as real)
  {
    if ints == [] then [] else Widen(ints[..|ints| - 1]) + [Num(ints[|ints| - 1] as real)]
  }

  /**
   * stats(IntColumn): a fresh float column over the widened values, then the
   * same steps as stats(FloatColumn). No value is NaN, so the record is
   * fully determined by the integers.
   */
  method StatsOfInts(ints: seq<int>) returns (stats: Stats)
    ensures stats == ColumnStats(Widen(ints), 0)
    ensures stats.n == |ints|
    ensures ints == [] ==> stats.min == NaN && stats.max == NaN && stats.mean == NaN
    ensures ints != [] ==>
      stats.min.Num? && stats.max.Num? && stats.mean.Num? &&
      stats.min.v <= stats.mean.v <= stats.max.v &&
      (forall i :: 0 <= i < |ints| ==> stats.min.v <= ints[i] as real <= stats.max.v) &&
      (exists i :: 0 <= i < |ints| && stats.min.v == ints[i] as real) &&
      (exists i :: 0 <= i < |ints| && stats.max.v == ints[i] as real)
    ensures |ints| > 1 ==> stats.variance.Num? && stats.variance.v >= 0.0
  {
    var values := new FloatColumn(Widen(ints));
    var min := Min(values);
    var max := Max(values);
    var n := values.Size();
    var mean := Div(values.Sum(), n);
    var variance := Variance(values);
    stats := Stats(min, max, n, mean, variance);
    assert values.data[0..] == values.data;
    if ints != [] {
      ColumnBounds(values.data);
      var w := values.data;
      forall i | 0 <= i < |ints| ensures stats.min.v <= ints[i] as real <= stats.max.v {
        assert w[i].Num?;
      }
      var k :| 0 <= k < |w| && MinScan(w[0], w) == w[k];
      var l :| 0 <= l < |w| && MaxScan(w[0], w) == w[l];
      assert stats.min.v == ints[k] as real;
      assert stats.max.v == ints[l] as real;
    }
    if |ints| > 1 {
      VarianceProperties(values.data);
    }
  }

  // ---------------------------------------------------------------------------
  // Mode
  // ---------------------------------------------------------------------------

  /** The failures the mode finder reports, standing for the exceptions it throws. */
  datatype ModeError =
    | NullInputArray
    | NegativeStart(begin: int)
    | NegativeLength(length: int)
    | IndexOutOfBounds(index: int)

  datatype Result<T> = Success(value: T) | Failure(error: ModeError)

  /** `x` is a number of highest count among the numbers of `w`, and occurs in `w`. */
  ghost predicate IsMode(w: seq<Float>, x: real) {
    Frequency.Count(w, x) > 0 && forall y :: Frequency.Count(w, y) <= Frequency.Count(w, x)
  }

  /**
   * What the mode finder promises about its result `r` for the window `w`:
   * numbers only, strictly increasing, each a mode of `w`, and every mode present.
   */
  ghost predicate IsModeList(w: seq<Float>, r: seq<Float>) {
    (forall j :: 0 <= j < |r| ==> r[j].Num? && IsMode(w, r[j].v)) &&
    (forall i, j :: 0 <= i < j < |r| ==> Less(r[i], r[j])) &&
    (forall x :: IsMode(w, x) ==> Num(x) in r)
  }

  /** One past the last index the loop of getMode reads: `begin + length` in Java int arithmetic. */
  function End(begin: int32, length: int32): int32 {
    WrapAdd(begin, length)
  }

  /** Whether the loop of getMode reaches an index at or past the array's end. */
  predicate ReadsPastEnd(size: nat, begin: int32, length: int32) {
    begin < End(begin, length) && End(begin, length) as int > size
  }

  /** The elements the loop of getMode reads: none when the end does not exceed `begin`. */
  function Window(s: seq<Float>, begin: int32, length: int32): seq<Float>
    requires 0 <= begin && !ReadsPastEnd(|s|, begin, length)
  {
    if End(begin, length) <= begin then [] else s[begin..End(begin, length)]
  }

  /**
   * getMode: tallies the numbers of the window, asks the table for its modes
   * and copies them into a fresh array. An index past the array's end fails at
   * the first such index.
   */
  method GetMode(values: array<Float>, begin: int32, length: int32) returns (r: Result<array<Float>>)
    requires begin >= 0 && length >= 0
    ensures r.Failure? <==> ReadsPastEnd(values.Length, begin, length)
    ensures r.Failure? ==>
      r.error == IndexOutOfBounds(if begin as int >= values.Length then begin as int else values.Length)
    ensures r.Success? ==> fresh(r.value) && IsModeList(Window(values[..], begin, length), r.value[..])
  {
    var end := End(begin, length);
    var freq: map<real, nat> := map[];
    var i: int := begin as int;
    while i < end as int
      invariant begin as int <= i
      invariant i == begin as int || (i <= end as int && i <= values.Length)
      invariant i == begin as int ==> freq == map[]
      invariant i > begin as int ==> freq == Frequency.Tally(values[begin..i])
    {
      if i >= values.Length {
        return Failure(IndexOutOfBounds(i));
      }
      var value := values[i];
      assert values[begin..i + 1][..i - begin as int] == values[begin..i];
      if !IsNaN(value) {
        freq := Frequency.AddValue(freq, value.v);
      }
      i := i + 1;
    }
    ghost var w := Window(values[..], begin, length);
    if i == begin as int {
      assert w == [];
    } else {
      assert values[begin..i] == w;
    }
    assert freq == Frequency.Tally(w);
    var list := Frequency.Mode(freq);
    var modes := new Float[|list|];
    var k := 0;
    while k < |list|
      invariant 0 <= k <= |list|
      invariant forall j :: 0 <= j < k ==> modes[j] == Num(list[j])
    {
      modes[k] := Num(list[k]);
      k := k + 1;
    }
    ModeListFromTable(w, list, modes[..]);
    r := Success(modes);
  }

  /** The modes of the tally of `w`, as numbers, are a mode list of `w`. */
  lemma ModeListFromTable(w: seq<Float>, list: seq<real>, r: seq<Float>)
    requires Frequency.StrictlyIncreasing(list)
    requires forall j :: 0 <= j < |list| ==> Frequency.IsTop(Frequency.Tally(w), list[j])
    requires forall k :: Frequency.IsTop(Frequency.Tally(w), k) ==> k in list
    requires |r| == |list| && forall j :: 0 <= j < |r| ==> r[j] == Num(list[j])
    ensures IsModeList(w, r)
  {
    var freq := Frequency.Tally(w);
    Frequency.TallyCounts(w);
    forall j | 0 <= j < |r| ensures IsMode(w, r[j].v) {
      assert Frequency.IsTop(freq, list[j]);
      forall y ensures Frequency.Count(w, y) <= Frequency.Count(w, list[j]) {
        if y in freq {
          assert freq[y] <= freq[list[j]];
        }
      }
    }
    forall x | IsMode(w, x) ensures Num(x) in r {
      assert x in freq;
      assert Frequency.IsTop(freq, x) by {
        forall y | y in freq ensures freq[y] <= freq[x] {
          assert Frequency.Count(w, y) <= Frequency.Count(w, x);
        }
      }
      var j :| 0 <= j < |list| && list[j] == x;
      assert r[j] == Num(x);
    }
  }

  /**
   * mode(sample): a null sample fails; otherwise the modes of the whole
   * sample, as getMode(sample, 0, sample.length) computes them.
   */
  method Mode(sample: array?<Float>) returns (r: Result<array<Float>>)
    requires sample != null ==> sample.Length < 0x8000_0000
    ensures sample == null ==> r == Failure(NullInputArray)
    ensures sample != null ==> r.Success? && IsModeList(sample[..], r.value[..])
    ensures r.Success? ==> fresh(r.value)
  {
    if sample == null {
      return Failure(NullInputArray);
    }
    r := GetMode(sample, 0, sample.Length as int32);
    assert Window(sample[..], 0, sample.Length as int32) == sample[..];
  }

  /**
   * mode(sample, begin, length): a null sample, then a negative begin, then a
   * negative length fail in that order; otherwise getMode's outcome.
   */
  method ModeRange(sample: array?<Float>, begin: int32, length: int32) returns (r: Result<array<Float>>)
    ensures sample == null ==> r == Failure(NullInputArray)
    ensures sample != null && begin < 0 ==> r == Failure(NegativeStart(begin as int))
    ensures sample != null && begin >= 0 && length < 0 ==> r == Failure(NegativeLength(length as int))
    ensures sample != null && begin >= 0 && length >= 0 ==>
      (r.Failure? <==> ReadsPastEnd(sample.Length, begin, length)) &&
      (r.Failure? ==>
        r.error == IndexOutOfBounds(if begin as int >= sample.Length then begin as int else sample.Length)) &&
      (r.Success? ==> IsModeList(Window(sample[..], begin, length), r.value[..]))
    ensures r.Success? ==> fresh(r.value)
  {
    if sample == null {
      return Failure(NullInputArray);
    }
    if begin < 0 {
      return Failure(NegativeStart(begin as int));
    }
    if length < 0 {
      return Failure(NegativeLength(length as int));
    }
    r := GetMode(sample, begin, length);
  }

  // ---------------------------------------------------------------------------
  // Properties of sum and product
  // ---------------------------------------------------------------------------

  /** As written, sum is NaN as soon as one element is NaN: [1, NaN, 3] sums to NaN, not 4. */
  lemma SumKeepsNaN()
    ensures Total([Num(1.0), NaN, Num(3.0)]) == NaN
  {
    TotalNaNIff([Num(1.0), NaN, Num(3.0)]);
  }

  /** The corrected sum is never NaN, ignores NaN elements, and sums [1, NaN, 3] to 4. */
  lemma SumSkippingNaNIgnoresNaN(s: seq<Float>)
    ensures Total(WithoutNaN(s)).Num?
    ensures forall x :: x in WithoutNaN(s) <==> x in s && x.Num?
    ensures Total(WithoutNaN(s + [NaN])) == Total(WithoutNaN(s))
    ensures Total(WithoutNaN([Num(1.0), NaN, Num(3.0)])) == Num(4.0)
  {
    TotalNaNIff(WithoutNaN(s));
    WithoutNaNMembers(s);
    assert (s + [NaN])[..|s|] == s;
    SumSkippingNaNExample();
  }

  lemma SumSkippingNaNExample()
    ensures Total(WithoutNaN([Num(1.0), NaN, Num(3.0)])) == Num(4.0)
  {
    var e := [Num(1.0), NaN, Num(3.0)];
    assert e[..2][..1] == [Num(1.0)] && e[..2] == [Num(1.0), NaN] && e[..2][..1][..0] == [];
    assert WithoutNaN(e[..2][..1]) == [Num(1.0)];
    assert WithoutNaN(e[..2]) == [Num(1.0)];
    var r := [Num(1.0), Num(3.0)];
    assert WithoutNaN(e) == r;
    assert r[..1] == [Num(1.0)] && r[..1][..0] == [];
  }

  lemma {:induction false} WithoutNaNMembers(s: seq<Float>)
    ensures forall x :: x in WithoutNaN(s) <==> x in s && x.Num?
  {
    if s != [] {
      var p := s[..|s| - 1];
      WithoutNaNMembers(p);
      assert s == p + [s[|s| - 1]];
    }
  }

  /** The float product is NaN exactly when some element is NaN. */
  lemma {:induction false} ProdNaNIff(s: seq<Float>)
    ensures Prod(s).NaN? <==> exists i :: 0 <= i < |s| && s[i].NaN?
  {
    if s != [] {
      var p := s[..|s| - 1];
      ProdNaNIff(p);
      if exists i :: 0 <= i < |p| && p[i].NaN? {
        var i :| 0 <= i < |p| && p[i].NaN?;
        assert s[i].NaN?;
      }
      if exists i :: 0 <= i < |s| && s[i].NaN? {
        var i :| 0 <= i < |s| && s[i].NaN?;
        if i < |p| { assert p[i].NaN?; }
      }
    }
  }

  /**
   * As written, product is NaN exactly for an empty array or one holding a
   * NaN: [1, NaN] gives NaN, where skipping NaN would give 1.
   */
  lemma ProductNaNIff(s: seq<Float>)
    ensures (if s == [] then NaN else Prod(s)).NaN? <==>
      s == [] || exists i :: 0 <= i < |s| && s[i].NaN?
    ensures Prod([Num(1.0), NaN]) == NaN
  {
    ProdNaNIff(s);
    ProdNaNIff([Num(1.0), NaN]);
  }

  // ---------------------------------------------------------------------------
  // Properties of min and max
  // ---------------------------------------------------------------------------

  /**
   * min from `seed` over `s`: NaN only when the seed and every element are NaN;
   * otherwise at most the seed (if a number) and at most every number of `s`,
   * and always the seed or an element of `s`.
   */
  lemma {:induction false} MinScanProperties(seed: Float, s: seq<Float>)
    ensures MinScan(seed, s).NaN? <==> seed.NaN? && forall i :: 0 <= i < |s| ==> s[i].NaN?
    ensures MinScan(seed, s).Num? ==>
      (seed.Num? ==> MinScan(seed, s).v <= seed.v) &&
      forall i :: 0 <= i < |s| && s[i].Num? ==> MinScan(seed, s).v <= s[i].v
    ensures MinScan(seed, s) == seed || exists i :: 0 <= i < |s| && MinScan(seed, s) == s[i]
  {
    if s != [] {
      var p := s[..|s| - 1];
      MinScanProperties(seed, p);
      assert forall i :: 0 <= i < |p| ==> s[i] == p[i];
      if MinScan(seed, p) != seed && MinScan(seed, s) == MinScan(seed, p) {
        var i :| 0 <= i < |p| && MinScan(seed, p) == p[i];
        assert MinScan(seed, s) == s[i];
      }
    }
  }

  /**
   * max from `seed` over `s`: NaN exactly when the seed is NaN (a NaN seed is
   * never replaced); otherwise at least the seed and every number of `s`, and
   * always the seed or an element of `s`.
   */
  lemma {:induction false} MaxScanProperties(seed: Float, s: seq<Float>)
    ensures MaxScan(seed, s).NaN? <==> seed.NaN?
    ensures seed.Num? ==>
      seed.v <= MaxScan(seed, s).v &&
      forall i :: 0 <= i < |s| && s[i].Num? ==> s[i].v <= MaxScan(seed, s).v
    ensures MaxScan(seed, s) == seed || exists i :: 0 <= i < |s| && MaxScan(seed, s) == s[i]
  {
    if s != [] {
      var p := s[..|s| - 1];
      MaxScanProperties(seed, p);
      assert forall i :: 0 <= i < |p| ==> s[i] == p[i];
      if MaxScan(seed, p) != seed && MaxScan(seed, s) == MaxScan(seed, p) {
        var i :| 0 <= i < |p| && MaxScan(seed, p) == p[i];
        assert MaxScan(seed, s) == s[i];
      }
    }
  }

  /**
   * A column that has been traversed to its end gives min its first element,
   * whatever the other elements are: [5, 1] read from position 2 has min 5.
   */
  lemma MinOfExhaustedColumn(s: seq<Float>)
    requires s != []
    ensures MinScan(s[0], s[|s|..]) == s[0]
    ensures MinScan(Num(5.0), [Num(5.0), Num(1.0)][2..]) == Num(5.0) &&
            MinScan(Num(5.0), [Num(5.0), Num(1.0)]) == Num(1.0)
  {
    assert s[|s|..] == [];
    var t := [Num(5.0), Num(1.0)];
    assert t[..1] == [Num(5.0)] && t[..1][..0] == [];
  }

  // ---------------------------------------------------------------------------
  // Properties of mean, variance and the stats record
  // ---------------------------------------------------------------------------

  /**
   * mean is NaN for an empty column or one holding a NaN, and otherwise the
   * exact sum over the size.
   */
  lemma MeanProperties(s: seq<Float>)
    ensures s == [] ==> MeanOf(s) == NaN
    ensures (exists i :: 0 <= i < |s| && s[i].NaN?) ==> MeanOf(s) == NaN
    ensures s != [] && NoNaN(s) ==> MeanOf(s) == Num(RealSum(s) / |s| as real)
  {
    TotalNaNIff(s);
  }

  /**
   * For a non-empty column without NaN, with the cursor at the start: min and
   * max are elements, bound every element, and the mean lies between them.
   */
  lemma ColumnBounds(s: seq<Float>)
    requires s != [] && NoNaN(s)
    ensures MinScan(s[0], s).Num? && MaxScan(s[0], s).Num? && MeanOf(s).Num?
    ensures forall i :: 0 <= i < |s| ==> MinScan(s[0], s).v <= s[i].v <= MaxScan(s[0], s).v
    ensures exists i :: 0 <= i < |s| && MinScan(s[0], s) == s[i]
    ensures exists i :: 0 <= i < |s| && MaxScan(s[0], s) == s[i]
    ensures MinScan(s[0], s).v <= MeanOf(s).v <= MaxScan(s[0], s).v
  {
    MinScanProperties(s[0], s);
    MaxScanProperties(s[0], s);
    MeanBetween(s, MinScan(s[0], s).v, MaxScan(s[0], s).v);
  }

  /** The mean of numbers that all lie in [lo, hi] lies in [lo, hi]. */
  lemma MeanBetween(s: seq<Float>, lo: real, hi: real)
    requires s != [] && NoNaN(s)
    requires forall i :: 0 <= i < |s| ==> lo <= s[i].v <= hi
    ensures MeanOf(s).Num? && lo <= MeanOf(s).v <= hi
  {
    RealSumBounds(s, lo, hi);
    MeanProperties(s);
    DivideBounds(RealSum(s), |s| as real, lo, hi);
  }

  lemma DivideBounds(total: real, n: real, lo: real, hi: real)
    requires n > 0.0 && n * lo <= total <= n * hi
    ensures lo <= total / n <= hi
  {
    assert total / n * n == total;
  }

  /**
   * The squared deviations are NaN when the mean is NaN (and there is an
   * element) or an element is NaN; otherwise a number that is not negative.
   */
  lemma {:induction false} SquaredDeviationsProperties(s: seq<Float>, avg: Float)
    ensures s != [] && avg.NaN? ==> SquaredDeviations(s, avg) == NaN
    ensures (exists i :: 0 <= i < |s| && s[i].NaN?) ==> SquaredDeviations(s, avg) == NaN
    ensures avg.Num? && NoNaN(s) ==> SquaredDeviations(s, avg).Num? && SquaredDeviations(s, avg).v >= 0.0
  {
    if s != [] {
      var p := s[..|s| - 1];
      SquaredDeviationsProperties(p, avg);
      assert forall i :: 0 <= i < |p| ==> s[i] == p[i];
      if exists i :: 0 <= i < |s| && s[i].NaN? {
        var i :| 0 <= i < |s| && s[i].NaN?;
        if i < |p| { assert p[i].NaN?; }
      }
      if avg.Num? && NoNaN(s) {
        var d := s[|s| - 1].v - avg.v;
        assert d * d >= 0.0;
      }
    }
  }

  /**
   * variance of an empty column is 0 (0 / -1), and of a single element NaN
   * (0 / 0); the documented NaN-for-none and 0-for-one are not what the code does.
   */
  lemma VarianceEdgeCases(s: seq<Float>)
    ensures s == [] ==> SampleVariance(s) == Num(0.0)
    ensures |s| == 1 ==> SampleVariance(s) == NaN
  {
  }

  /**
   * With two or more elements, variance is NaN if an element is NaN and
   * otherwise a number that is not negative.
   */
  lemma VarianceProperties(s: seq<Float>)
    requires |s| >= 2
    ensures (exists i :: 0 <= i < |s| && s[i].NaN?) ==> SampleVariance(s) == NaN
    ensures NoNaN(s) ==> SampleVariance(s).Num? && SampleVariance(s).v >= 0.0
  {
    MeanProperties(s);
    SquaredDeviationsProperties(s, MeanOf(s));
    if NoNaN(s) {
      var q := SquaredDeviations(s, MeanOf(s)).v;
      assert q / (|s| - 1) as real >= 0.0;
    }
  }

  /** stats of the column [1, 2, 3, 4, 5] read from its start. */
  lemma StatsExample()
    ensures ColumnStats([Num(1.0), Num(2.0), Num(3.0), Num(4.0), Num(5.0)], 0) ==
      Stats(Num(1.0), Num(5.0), 5, Num(3.0), Num(2.5))
  {
    var s := [Num(1.0), Num(2.0), Num(3.0), Num(4.0), Num(5.0)];
    assert s[..4] == [Num(1.0), Num(2.0), Num(3.0), Num(4.0)];
    assert s[..4][..3] == [Num(1.0), Num(2.0), Num(3.0)];
    assert s[..4][..3][..2] == [Num(1.0), Num(2.0)];
    assert s[..4][..3][..2][..1] == [Num(1.0)];
    assert s[..4][..3][..2][..1][..0] == [];
    assert s[0..] == s;
    assert Total(s[..4][..3][..2][..1]) == Num(1.0);
    assert Total(s[..4][..3][..2]) == Num(3.0);
    assert Total(s[..4][..3]) == Num(6.0);
    assert Total(s[..4]) == Num(10.0);
    assert Total(s) == Num(15.0);
    assert MeanOf(s) == Num(3.0);
    assert SquaredDeviations(s[..4][..3][..2][..1], Num(3.0)) == Num(4.0);
    assert SquaredDeviations(s[..4][..3][..2], Num(3.0)) == Num(5.0);
    assert SquaredDeviations(s[..4][..3], Num(3.0)) == Num(5.0);
    assert SquaredDeviations(s[..4], Num(3.0)) == Num(6.0);
    assert SquaredDeviations(s, Num(3.0)) == Num(10.0);
    assert SampleVariance(s) == Num(2.5);
    assert MinScan(Num(1.0), s[..4][..3][..2][..1]) == Num(1.0);
    assert MinScan(Num(1.0), s[..4][..3][..2]) == Num(1.0);
    assert MinScan(Num(1.0), s[..4][..3]) == Num(1.0);
    assert MinScan(Num(1.0), s[..4]) == Num(1.0);
    assert MinScan(Num(1.0), s) == Num(1.0);
    assert MaxScan(Num(1.0), s[..4][..3][..2][..1]) == Num(1.0);
    assert MaxScan(Num(1.0), s[..4][..3][..2]) == Num(2.0);
    assert MaxScan(Num(1.0), s[..4][..3]) == Num(3.0);
    assert MaxScan(Num(1.0), s[..4]) == Num(4.0);
    assert MaxScan(Num(1.0), s) == Num(5.0);
  }

  // ---------------------------------------------------------------------------
  // Properties of mode
  // ---------------------------------------------------------------------------

  /** `w[k]` is a number whose count no number among the first `n` elements exceeds. */
  ghost predicate MostFrequentUpTo(w: seq<Float>, n: nat, k: nat) {
    k < n <= |w| && w[k].Num? &&
    forall i :: 0 <= i < n && w[i].Num? ==> Frequency.Count(w, w[i].v) <= Frequency.Count(w, w[k].v)
  }

  /** Among the first `n` elements, when one is a number, some number is most frequent. */
  lemma {:induction false} MostFrequentIndex(w: seq<Float>, n: nat, j: nat) returns (k: nat)
    requires j < n <= |w| && w[j].Num?
    ensures MostFrequentUpTo(w, n, k)
  {
    if n - 1 == j {
      if j > 0 && exists i :: 0 <= i < j && w[i].Num? {
        var i :| 0 <= i < j && w[i].Num?;
        k := MostFrequentIndex(w, n - 1, i);
        if Frequency.Count(w, w[j].v) > Frequency.Count(w, w[k].v) {
          k := j;
        }
      } else {
        k := j;
      }
    } else {
      k := MostFrequentIndex(w, n - 1, j);
      if w[n - 1].Num? && Frequency.Count(w, w[n - 1].v) > Frequency.Count(w, w[k].v) {
        k := n - 1;
      }
    }
  }

  /** A window holding a number has a mode. */
  lemma ModeExists(w: seq<Float>, j: nat)
    requires j < |w| && w[j].Num?
    ensures exists x :: IsMode(w, x)
  {
    var k := MostFrequentIndex(w, |w|, j);
    Frequency.CountAtIndex(w, k);
    forall y ensures Frequency.Count(w, y) <= Frequency.Count(w, w[k].v) {
      if Frequency.Count(w, y) > 0 {
        var i := Frequency.CountPositive(w, y);
        assert w[i].Num?;
      }
    }
    assert IsMode(w, w[k].v);
  }

  /** A mode list is empty exactly when the window holds no number (it is empty or all NaN). */
  lemma ModeListEmptyIff(w: seq<Float>, r: seq<Float>)
    requires IsModeList(w, r)
    ensures r == [] <==> forall i :: 0 <= i < |w| ==> w[i].NaN?
  {
    if exists i :: 0 <= i < |w| && w[i].Num? {
      var j :| 0 <= j < |w| && w[j].Num?;
      ModeExists(w, j);
      var x :| IsMode(w, x);
      assert Num(x) in r;
    } else if r != [] {
      assert IsMode(w, r[0].v);
      var i := Frequency.CountPositive(w, r[0].v);
    }
  }

  lemma HeadIsMember(s: seq<Float>)
    requires s != []
    ensures s[0] in s
  {
  }

  /** Two strictly increasing lists of numbers with the same members are equal. */
  lemma {:induction false} IncreasingListsEqual(a: seq<Float>, b: seq<Float>)
    requires forall i, j :: 0 <= i < j < |a| ==> Less(a[i], a[j])
    requires forall i, j :: 0 <= i < j < |b| ==> Less(b[i], b[j])
    requires forall x :: x in a <==> x in b
    ensures a == b
  {
    if a == [] {
      if b != [] {
        HeadIsMember(b);
        assert false;
      }
    } else if b == [] {
      HeadIsMember(a);
      assert false;
    } else {
      assert a[0] in b;
      assert b[0] in a;
      var i :| 0 <= i < |b| && b[i] == a[0];
      var j :| 0 <= j < |a| && a[j] == b[0];
      assert a[0] == b[0];
      forall x ensures x in a[1..] <==> x in b[1..] {
        if x in a[1..] {
          var k :| 1 <= k < |a| && a[k] == x;
          assert Less(a[0], a[k]);
          assert x in b;
        }
        if x in b[1..] {
          var k :| 1 <= k < |b| && b[k] == x;
          assert Less(b[0], b[k]);
          assert x in a;
        }
      }
      IncreasingListsEqual(a[1..], b[1..]);
      assert a == [a[0]] + a[1..] && b == [b[0]] + b[1..];
    }
  }

  /** The mode list of a window is unique: mode(sample) and getMode(sample, 0, length) agree. */
  lemma ModeListUnique(w: seq<Float>, r1: seq<Float>, r2: seq<Float>)
    requires IsModeList(w, r1) && IsModeList(w, r2)
    ensures r1 == r2
  {
    forall x ensures x in r1 <==> x in r2 {
      if x in r1 {
        var j :| 0 <= j < |r1| && r1[j] == x;
        assert IsMode(w, x.v);
      }
      if x in r2 {
        var j :| 0 <= j < |r2| && r2[j] == x;
        assert IsMode(w, x.v);
      }
    }
    IncreasingListsEqual(r1, r2);
  }

  /** Occurrence counts in the documented sample {0, 12, 5, 6, 0, 13, 5, 17}. */
  lemma ExampleCounts(y: real)
    ensures Frequency.Count(ExampleSample(), y) ==
      (if y == 0.0 then 2 else 0) + (if y == 12.0 then 1 else 0) + (if y == 5.0 then 2 else 0) +
      (if y == 6.0 then 1 else 0) + (if y == 13.0 then 1 else 0) + (if y == 17.0 then 1 else 0)
  {
    var w := ExampleSample();
    var w7, w6, w5, w4, w3, w2, w1 := w[..7], w[..6], w[..5], w[..4], w[..3], w[..2], w[..1];
    assert w7[..6] == w6 && w6[..5] == w5 && w5[..4] == w4 && w4[..3] == w3;
    assert w3[..2] == w2 && w2[..1] == w1 && w1[..0] == [];
    var one := (a: real) => if y == a then 1 else 0;
    assert Frequency.Count(w1, y) == one(0.0);
    assert Frequency.Count(w2, y) == one(0.0) + one(12.0);
    assert Frequency.Count(w3, y) == one(0.0) + one(12.0) + one(5.0);
    assert Frequency.Count(w4, y) == one(0.0) + one(12.0) + one(5.0) + one(6.0);
    assert Frequency.Count(w5, y) == 2 * one(0.0) + one(12.0) + one(5.0) + one(6.0);
    assert Frequency.Count(w6, y) == 2 * one(0.0) + one(12.0) + one(5.0) + one(6.0) + one(13.0);
    assert Frequency.Count(w7, y) == 2 * one(0.0) + one(12.0) + 2 * one(5.0) + one(6.0) + one(13.0);
  }

  function ExampleSample(): seq<Float> {
    [Num(0.0), Num(12.0), Num(5.0), Num(6.0), Num(0.0), Num(13.0), Num(5.0), Num(17.0)]
  }

  /** The documented example: the modes of {0, 12, 5, 6, 0, 13, 5, 17} are {0, 5}. */
  lemma ModeExample(r: seq<Float>)
    requires IsModeList(ExampleSample(), r)
    ensures r == [Num(0.0), Num(5.0)]
  {
    var w := ExampleSample();
    var m := [Num(0.0), Num(5.0)];
    forall y ensures Frequency.Count(w, y) <= 2 {
      ExampleCounts(y);
    }
    ExampleCounts(0.0);
    ExampleCounts(5.0);
    assert IsMode(w, 0.0) && IsMode(w, 5.0);
    forall x | IsMode(w, x) ensures Num(x) in m {
      ExampleCounts(x);
    }
    assert IsModeList(w, m);
    ModeListUnique(w, r, m);
  }

  /**
   * A begin + length past Integer.MAX_VALUE wraps to a negative end, so the
   * loop of getMode reads nothing and the window is empty, however long the array.
   */
  lemma WindowOverflowIsEmpty(size: nat, begin: int32, length: int32)
    requires begin >= 0 && length >= 0 && begin as int + length as int >= 0x8000_0000
    ensures End(begin, length) < 0
    ensures !ReadsPastEnd(size, begin, length)
    ensures forall s: seq<Float> :: |s| == size ==> Window(s, begin, length) == []
  {
  }

  /** Without overflow, the window is exactly the `length` elements from `begin`. */
  lemma WindowInRange(s: seq<Float>, begin: int32, length: int32)
    requires begin >= 0 && length >= 0 && begin as int + length as int <= |s|
    requires begin as int + length as int < 0x8000_0000
    ensures !ReadsPastEnd(|s|, begin, length)
    ensures Window(s, begin, length) == s[begin..begin as int + length as int]
  {
    assert End(begin, length) as int == begin as int + length as int;
  }
}
