/**
 * The column cursor the statistics kernel consumes: a fixed sequence of floats
 * with a traversal position. Storage, construction and type conversion belong
 * to the column layer and are not modelled; only the cursor contract is.
 */
module Columns {
  import opened Numbers

  class FloatColumn {
    /** The column's values, in order; the kernel never changes them. */
    const data: seq<Float>
    /** Index of the element the next call to `Next` returns. */
    var pos: nat

    ghost predicate Valid()
      reads this
    {
      pos <= |data|
    }

    /** A column over `values`, positioned at its first element. */
    constructor (values: seq<Float>)
      ensures Valid() && data == values && pos == 0
    {
      data := values;
      pos := 0;
    }

    /** The number of elements; it reads no state, so the position does not affect it. */
    function Size(): (n: nat)
      ensures n == |data|
    {
      |data|
    }

    /** Whether the current traversal has elements left: false exactly once the cursor is at the end. */
    predicate HasNext()
      reads this
      ensures Valid() ==> (!HasNext() <==> pos == Size())
    {
      pos < |data|
    }

    /** Returns the element at the position and moves past it. */
    method Next() returns (x: Float)
      requires Valid() && HasNext()
      modifies this
      ensures Valid()
      ensures x == data[old(pos)] && pos == old(pos) + 1
    {
      x := data[pos];
      pos := pos + 1;
    }

    /** Rewinds the traversal to the first element. */
    method Reset()
      modifies this
      ensures Valid() && pos == 0
    {
      pos := 0;
    }

    /** The element at index 0; it reads no state, so the position neither affects it nor moves. */
    function FirstElement(): (x: Float)
      requires Size() > 0
      ensures x == data[0]
    {
      data[0]
    }

    /**
     * The column's own float sum of all its values, which `mean` and `stats`
     * call. It reads the values without moving the traversal position: NaN
     * when some value is NaN, and otherwise the exact sum.
     */
    function Sum(): (s: Float)
      ensures s.NaN? <==> exists i :: 0 <= i < |data| && data[i].NaN?
      ensures NoNaN(data) ==> s == Num(RealSum(data))
    {
      TotalNaNIff(data);
      Total(data)
    }
  }
}
