/** Tables as sequences of rows: bulk UPDATE, sums over a column, search by a condition. */
module Rows {

  /** UPDATE: the same assignment on every row. */
  function Update<T>(rows: seq<T>, f: T -> T): (r: seq<T>)
    ensures |r| == |rows| && forall i :: 0 <= i < |rows| ==> r[i] == f(rows[i])
  {
    seq(|rows|, i requires 0 <= i < |rows| => f(rows[i]))
  }

  /** SELECT sum(f). */
  ghost function Sum<T>(rows: seq<T>, f: T -> int): int {
    if rows == [] then 0 else Sum(rows[..|rows| - 1], f) + f(rows[|rows| - 1])
  }

  lemma {:induction false} SumUpdate<T>(rows: seq<T>, i: nat, row: T, f: T -> int)
    requires i < |rows|
    ensures Sum(rows[i := row], f) == Sum(rows, f) - f(rows[i]) + f(row)
  {
    var last := |rows| - 1;
    if i == last {
      assert rows[i := row][..last] == rows[..last];
    } else {
      assert rows[i := row][..last] == rows[..last][i := row];
      SumUpdate(rows[..last], i, row, f);
    }
  }

  lemma SumAppend<T>(rows: seq<T>, row: T, f: T -> int)
    ensures Sum(rows + [row], f) == Sum(rows, f) + f(row)
  {
    assert (rows + [row])[..|rows|] == rows;
  }

  lemma {:induction false} SumSame<T>(rows: seq<T>, rows': seq<T>, f: T -> int)
    requires |rows| == |rows'| && forall i :: 0 <= i < |rows| ==> f(rows[i]) == f(rows'[i])
    ensures Sum(rows, f) == Sum(rows', f)
  {
    if rows != [] {
      var last := |rows| - 1;
      assert forall i :: 0 <= i < last ==> f(rows[..last][i]) == f(rows'[..last][i]);
      SumSame(rows[..last], rows'[..last], f);
    }
  }

  lemma {:induction false} SumZero<T>(rows: seq<T>, f: T -> int)
    requires forall i :: 0 <= i < |rows| ==> f(rows[i]) == 0
    ensures Sum(rows, f) == 0
  {
    if rows != [] {
      var last := |rows| - 1;
      assert forall i :: 0 <= i < last ==> f(rows[..last][i]) == 0;
      SumZero(rows[..last], f);
    }
  }

  /** With non-negative entries no entry exceeds the sum. */
  lemma {:induction false} SumBounds<T>(rows: seq<T>, i: nat, f: T -> int)
    requires i < |rows| && forall k :: 0 <= k < |rows| ==> f(rows[k]) >= 0
    ensures 0 <= f(rows[i]) <= Sum(rows, f)
  {
    var last := |rows| - 1;
    assert forall k :: 0 <= k < last ==> f(rows[..last][k]) >= 0;
    if i < last {
      SumBounds(rows[..last], i, f);
    } else if last > 0 {
      SumBounds(rows[..last], 0, f);
    }
  }
}
