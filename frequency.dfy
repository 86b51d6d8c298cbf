/**
 * The frequency table the mode finder fills: a map from each distinct non-NaN
 * value to its number of occurrences, and the table's mode query, which lists
 * every value of highest count in increasing order.
 */
module Frequency {
  import opened Numbers

  /** Number of elements of `s` equal to the number `x`; NaN elements are never counted. */
  function Count(s: seq<Float>, x: real): nat {
    if s == [] then 0
    else Count(s[..|s| - 1], x) + (if s[|s| - 1] == Num(x) then 1 else 0)
  }

  /** Adds one occurrence of `x` to the table; every other entry is unchanged. */
  function AddValue(freq: map<real, nat>, x: real): (r: map<real, nat>)
    ensures r.Keys == freq.Keys + {x}
    ensures r[x] == (if x in freq then freq[x] else 0) + 1
    ensures forall k :: k in freq && k != x ==> r[k] == freq[k]
  {
    freq[x := (if x in freq then freq[x] else 0) + 1]
  }

  /** The table obtained by adding the non-NaN elements of `s` in order. */
  function Tally(s: seq<Float>): map<real, nat> {
    if s == [] then map[]
    else
      var freq := Tally(s[..|s| - 1]);
      if s[|s| - 1].NaN? then freq else AddValue(freq, s[|s| - 1].v)
  }

  /** The table holds exactly the numbers that occur in `s`, each with its count. */
  lemma {:induction false} TallyCounts(s: seq<Float>)
    ensures forall x :: x in Tally(s) <==> Count(s, x) > 0
    ensures forall x :: x in Tally(s) ==> Tally(s)[x] == Count(s, x)
  {
    if s != [] {
      TallyCounts(s[..|s| - 1]);
    }
  }

  /** A number occurs in `s` once its count is positive; `i` is an index where it does. */
  lemma {:induction false} CountPositive(s: seq<Float>, x: real) returns (i: nat)
    requires Count(s, x) > 0
    ensures i < |s| && s[i] == Num(x)
  {
    var p := s[..|s| - 1];
    if s[|s| - 1] == Num(x) {
      i := |s| - 1;
    } else {
      i := CountPositive(p, x);
      assert s[i] == p[i];
    }
  }

  /** A number at some index of `s` has a positive count. */
  lemma {:induction false} CountAtIndex(s: seq<Float>, i: nat)
    requires i < |s| && s[i].Num?
    ensures Count(s, s[i].v) > 0
  {
    if i < |s| - 1 {
      CountAtIndex(s[..|s| - 1], i);
    }
  }

  /** `k` is a key of highest count in the table. */
  ghost predicate IsTop(freq: map<real, nat>, k: real) {
    k in freq && forall k' :: k' in freq ==> freq[k'] <= freq[k]
  }

  ghost predicate StrictlyIncreasing(list: seq<real>) {
    forall i, j :: 0 <= i < j < |list| ==> list[i] < list[j]
  }

  lemma NonEmptyHasElement(s: set<real>)
    requires s != {}
    ensures exists x :: x in s
  {
    if forall x :: x !in s {
      assert false;
    }
  }

  /** Every non-empty finite set of reals has a least element; `m` is it. */
  lemma {:induction false} Least(s: set<real>) returns (m: real)
    requires s != {}
    ensures m in s && forall y :: y in s ==> m <= y
  {
    NonEmptyHasElement(s);
    var x :| x in s;
    if s == {x} {
      m := x;
    } else {
      var rest := s - {x};
      assert s == rest + {x};
      if rest == {} {
        assert false;
      }
      var least := Least(rest);
      m := if x < least then x else least;
      forall y | y in s ensures m <= y {
        if y != x { assert y in rest; }
      }
    }
  }

  /**
   * Frequency.getMode: every key of highest count, in increasing order. An
   * empty table gives an empty list.
   */
  method Mode(freq: map<real, nat>) returns (list: seq<real>)
    ensures StrictlyIncreasing(list)
    ensures forall j :: 0 <= j < |list| ==> IsTop(freq, list[j])
    ensures forall k :: IsTop(freq, k) ==> k in list
  {
    // Pass 1: the highest count.
    var top := 0;
    var keys := freq.Keys;
    while keys != {}
      invariant keys <= freq.Keys
      invariant forall k :: k in freq && k !in keys ==> freq[k] <= top
      invariant top == 0 || exists k :: k in freq && k !in keys && freq[k] == top
      decreases keys
    {
      NonEmptyHasElement(keys);
      var k :| k in keys;
      if freq[k] > top {
        top := freq[k];
      }
      keys := keys - {k};
    }
    assert forall k :: IsTop(freq, k) <==> k in freq && freq[k] == top;

    // Pass 2: the keys of that count, least first.
    var rest := set k | k in freq && freq[k] == top;
    list := [];
    while rest != {}
      invariant forall k :: k in rest ==> k in freq && freq[k] == top
      invariant StrictlyIncreasing(list)
      invariant forall j :: 0 <= j < |list| ==> list[j] in freq && freq[list[j]] == top
      invariant forall j, k :: 0 <= j < |list| && k in rest ==> list[j] < k
      invariant forall k :: k in freq && freq[k] == top ==> k in rest || k in list
      decreases rest
    {
      ghost var least := Least(rest);
      var m :| m in rest && forall y :: y in rest ==> m <= y;
      list := list + [m];
      rest := rest - {m};
    }
  }
}
