/** signals/functions.py: list_udim, which flattens a matrix-like list.
    (make_list and closest_to_average are the to_list and
    closest_to_average of dsp/functions.py, modelled there.) */
module SignalsFunctions {
  import opened Common

  /** The argument of list_udim: a list of numbers or a list of rows. */
  datatype NestedList = Flat(xs: seq<real>) | Rows(rows: seq<seq<real>>)

  /** numpy sees a list of rows as two-dimensional only when the rows have
      one common length. */
  predicate Rectangular(rows: seq<seq<real>>) {
    forall i :: 0 <= i < |rows| ==> |rows[i]| == |rows[0]|
  }

  /** The first n entries of every row, row after row. */
  function SquareFlatten(rows: seq<seq<real>>, n: nat): (r: seq<real>)
    requires forall i :: 0 <= i < |rows| ==> |rows[i]| >= n
    ensures |r| == |rows| * n
  {
    if rows == [] then []
    else SquareFlatten(rows[..|rows| - 1], n) + rows[|rows| - 1][..n]
  }

  /** Entry y of row x lands at position x * n + y. */
  lemma {:induction false} SquareFlattenAt(rows: seq<seq<real>>, n: nat, x: int, y: int)
    requires forall i :: 0 <= i < |rows| ==> |rows[i]| >= n
    requires 0 <= x < |rows| && 0 <= y < n
    ensures 0 <= x * n + y < |SquareFlatten(rows, n)|
    ensures SquareFlatten(rows, n)[x * n + y] == rows[x][y]
  {
    var init := rows[..|rows| - 1];
    assert |SquareFlatten(init, n)| == (|rows| - 1) * n;
    if x < |rows| - 1 {
      SquareFlattenAt(init, n, x, y);
      assert x * n + y < (|rows| - 1) * n by { MulLess(x, |rows| - 1, n, y); }
    } else {
      assert x * n == (|rows| - 1) * n;
    }
  }

  lemma MulLess(x: int, m: int, n: int, y: int)
    requires 0 <= x < m && 0 <= y < n
    ensures x * n + y < m * n
  {
    assert (x + 1) * n <= m * n;
  }

  /** list_udim: a one-dimensional list is returned as it is; a list of
      rows is read with both loops running over the number of rows, so a
      square list flattens completely, a wider one loses its extra columns
      and a narrower one fails. numpy refuses ragged rows. */
  method ListUdim(listIn: NestedList) returns (r: Result<seq<real>>)
    ensures listIn.Flat? ==> r == Ok(listIn.xs)
    ensures listIn.Rows? && listIn.rows == [] ==> r == Ok([])
    ensures listIn.Rows? && listIn.rows != [] && !Rectangular(listIn.rows) ==> r == Err(InhomogeneousShape)
    ensures listIn.Rows? && listIn.rows != [] && Rectangular(listIn.rows) ==>
              var n := |listIn.rows|;
              (|listIn.rows[0]| < n ==> r == Err(IndexError)) &&
              (|listIn.rows[0]| >= n ==> r == Ok(SquareFlatten(listIn.rows, n)))
  {
    match listIn
    case Flat(xs) =>
      return Ok(xs);
    case Rows(rows) =>
      if rows == [] {
        return Ok([]);
      }
      if !Rectangular(rows) {
        return Err(InhomogeneousShape);
      }
      var n := |rows|;
      var listOut: seq<real> := [];
      for x := 0 to n
        invariant x > 0 ==> |rows[0]| >= n
        invariant x > 0 ==> listOut == SquareFlatten(rows[..x], n)
        invariant x == 0 ==> listOut == []
      {
        for y := 0 to n
          invariant y <= |rows[x]|
          invariant listOut == (if x > 0 then SquareFlatten(rows[..x], n) else []) + rows[x][..y]
        {
          if y >= |rows[x]| {
            return Err(IndexError);
          }
          listOut := listOut + [rows[x][y]];
        }
        assert rows[..x + 1][..x] == rows[..x];
        assert rows[x][..n] == rows[x][..n];
      }
      assert rows[..n] == rows;
      return Ok(listOut);
  }
}
