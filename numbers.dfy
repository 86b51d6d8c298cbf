/**
 * Java's numeric primitives as the statistics kernel uses them.
 *
 * A `float` is either NaN or a number; the number is kept as an exact real, so
 * single-precision rounding, overflow to infinity and the sign of zero are not
 * represented. Every comparison that involves NaN is false, and arithmetic on
 * NaN yields NaN, as in IEEE 754.
 */
module Numbers {

  datatype Float = NaN | Num(v: real)

  /** Float.isNaN */
  predicate IsNaN(x: Float) {
    x.NaN?
  }

  /** The `==` operator on floats: false as soon as one side is NaN, so `x == NaN` never holds. */
  predicate Equal(a: Float, b: Float) {
    a.Num? && b.Num? && a.v == b.v
  }

  /** The `<` operator on floats. */
  predicate Less(a: Float, b: Float) {
    a.Num? && b.Num? && a.v < b.v
  }

  /** The `>` operator on floats. */
  predicate Greater(a: Float, b: Float) {
    a.Num? && b.Num? && a.v > b.v
  }

  function Add(a: Float, b: Float): Float {
    if a.NaN? || b.NaN? then NaN else Num(a.v + b.v)
  }

  function Sub(a: Float, b: Float): Float {
    if a.NaN? || b.NaN? then NaN else Num(a.v - b.v)
  }

  function Mul(a: Float, b: Float): Float {
    if a.NaN? || b.NaN? then NaN else Num(a.v * b.v)
  }

  /**
   * A float divided by an int widened to float. Zero divided by zero is NaN.
   * A non-zero number divided by zero would be an infinity, which this model
   * does not carry; the precondition makes the verifier show that the kernel
   * never divides a non-zero number by zero.
   */
  function Div(x: Float, d: int): (r: Float)
    requires d != 0 || x == NaN || x == Num(0.0)
    ensures d == 0 ==> r == NaN
  {
    if x.NaN? || d == 0 then NaN else Num(x.v / d as real)
  }

  /**
   * FastMath.sqrt followed by the cast to float. The square root itself is a
   * library routine outside this model and is passed in as `sqrt`; a negative
   * or NaN argument gives NaN.
   */
  function Sqrt(sqrt: real -> real, x: Float): (r: Float)
    ensures r.NaN? <==> x.NaN? || x.v < 0.0
    ensures r.Num? ==> r.v == sqrt(x.v)
  {
    if x.NaN? || x.v < 0.0 then NaN else Num(sqrt(x.v))
  }

  /** Java's 32-bit `int`. */
  newtype int32 = x: int | -0x8000_0000 <= x < 0x8000_0000

  /** Java's `int` addition, which wraps around modulo 2^32. */
  function WrapAdd(a: int32, b: int32): (r: int32)
    ensures (r as int - (a as int + b as int)) % 0x1_0000_0000 == 0
  {
    var s := a as int + b as int;
    if s >= 0x8000_0000 then (s - 0x1_0000_0000) as int32
    else if s < -0x8000_0000 then (s + 0x1_0000_0000) as int32
    else s as int32
  }

  /** Left-to-right float sum of every element, starting from 0.0; one NaN makes it NaN. */
  function Total(s: seq<Float>): Float {
    if s == [] then Num(0.0) else Add(Total(s[..|s| - 1]), s[|s| - 1])
  }

  /** Holds when no element is NaN. */
  predicate NoNaN(s: seq<Float>) {
    forall i :: 0 <= i < |s| ==> s[i].Num?
  }

  /** The exact sum of the numbers in `s`, read as reals. */
  function RealSum(s: seq<Float>): real
    requires NoNaN(s)
  {
    if s == [] then 0.0 else RealSum(s[..|s| - 1]) + s[|s| - 1].v
  }

  /** The float sum is NaN exactly when some element is NaN, and otherwise the exact sum. */
  lemma {:induction false} TotalNaNIff(s: seq<Float>)
    ensures Total(s).NaN? <==> exists i :: 0 <= i < |s| && s[i].NaN?
    ensures NoNaN(s) ==> Total(s) == Num(RealSum(s))
  {
    if s != [] {
      var p := s[..|s| - 1];
      TotalNaNIff(p);
      if Total(p).NaN? {
        var i :| 0 <= i < |p| && p[i].NaN?;
        assert s[i].NaN?;
      }
      if exists i :: 0 <= i < |s| && s[i].NaN? {
        var i :| 0 <= i < |s| && s[i].NaN?;
        if i < |p| { assert p[i].NaN?; }
      }
      if NoNaN(s) {
        assert NoNaN(p) by { forall i | 0 <= i < |p| ensures p[i].Num? { assert p[i] == s[i]; } }
      }
    }
  }

  /** Bounds on the exact sum: every element at least `lo` and at most `hi`. */
  lemma {:induction false} RealSumBounds(s: seq<Float>, lo: real, hi: real)
    requires NoNaN(s)
    requires forall i :: 0 <= i < |s| ==> lo <= s[i].v <= hi
    ensures |s| as real * lo <= RealSum(s) <= |s| as real * hi
  {
    if s != [] {
      var p := s[..|s| - 1];
      assert forall i :: 0 <= i < |p| ==> p[i] == s[i];
      RealSumBounds(p, lo, hi);
      assert |s| as real * lo == |p| as real * lo + lo;
      assert |s| as real * hi == |p| as real * hi + hi;
    }
  }
}
