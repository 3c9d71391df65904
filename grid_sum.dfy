/**
 * Sums of a per-cell weight over a grid stored as rows, and how a single-cell update
 * changes them. Used for the counting measures of the traversal days.
 */
module GridSum {

  function RowSum<T>(row: seq<T>, w: T -> nat): nat {
    if row == [] then 0 else w(row[0]) + RowSum(row[1..], w)
  }

  function Sum<T>(rows: seq<seq<T>>, w: T -> nat): nat {
    if rows == [] then 0 else RowSum(rows[0], w) + Sum(rows[1..], w)
  }

  /** The number of cells. */
  function Cells<T>(rows: seq<seq<T>>): nat {
    if rows == [] then 0 else |rows[0]| + Cells(rows[1..])
  }

  lemma {:induction false} RowSumUpdate<T>(row: seq<T>, x: nat, v: T, w: T -> nat)
    requires x < |row|
    ensures RowSum(row[x := v], w) + w(row[x]) == RowSum(row, w) + w(v)
    decreases x
  {
    if x > 0 {
      assert row[x := v][1..] == row[1..][x - 1 := v];
      RowSumUpdate(row[1..], x - 1, v, w);
    }
  }

  lemma {:induction false} SumUpdateRow<T>(rows: seq<seq<T>>, y: nat, row: seq<T>, w: T -> nat)
    requires y < |rows|
    ensures Sum(rows[y := row], w) + RowSum(rows[y], w) == Sum(rows, w) + RowSum(row, w)
    ensures |rows[y]| == |row| ==> Cells(rows[y := row]) == Cells(rows)
    decreases y
  {
    if y > 0 {
      assert rows[y := row][1..] == rows[1..][y - 1 := row];
      SumUpdateRow(rows[1..], y - 1, row, w);
    }
  }

  /** Replacing one cell changes the sum by the difference of the two weights. */
  lemma SumUpdate<T>(rows: seq<seq<T>>, y: nat, x: nat, v: T, w: T -> nat)
    requires y < |rows| && x < |rows[y]|
    ensures Sum(rows[y := rows[y][x := v]], w) + w(rows[y][x]) == Sum(rows, w) + w(v)
    ensures Cells(rows[y := rows[y][x := v]]) == Cells(rows)
  {
    RowSumUpdate(rows[y], x, v, w);
    SumUpdateRow(rows, y, rows[y][x := v], w);
  }

  lemma {:induction false} RowSumBounded<T>(row: seq<T>, w: T -> nat, k: nat)
    requires forall i :: 0 <= i < |row| ==> w(row[i]) <= k
    ensures RowSum(row, w) <= k * |row|
    decreases |row|
  {
    if row != [] {
      RowSumBounded(row[1..], w, k);
    }
  }

  /** A weight bounded by `k` per cell sums to at most `k` per cell. */
  lemma {:induction false} SumBounded<T>(rows: seq<seq<T>>, w: T -> nat, k: nat)
    requires forall y, x :: 0 <= y < |rows| && 0 <= x < |rows[y]| ==> w(rows[y][x]) <= k
    ensures Sum(rows, w) <= k * Cells(rows)
    decreases |rows|
  {
    if rows != [] {
      RowSumBounded(rows[0], w, k);
      SumBounded(rows[1..], w, k);
    }
  }
}
