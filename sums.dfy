/**
 * Sums over a rectangular grid in the order the source's nested loops visit
 * it: columns x = 0, 1, ... outside, rows y = 0, 1, ... inside.  Every
 * counter and accumulator of the board and the evaluator (disk_no, the disk
 * difference, the static and stability scores) is one of these sums.
 */
module Sums {

  /** f(x, 0) + ... + f(x, n - 1). */
  function ColumnSum(f: (int, int) -> int, x: int, n: nat): int
  {
    if n == 0 then 0 else ColumnSum(f, x, n - 1) + f(x, n - 1)
  }

  /** The sum of f over the columns 0 .. m - 1 and rows 0 .. n - 1. */
  function GridSum(f: (int, int) -> int, m: nat, n: nat): int
  {
    if m == 0 then 0 else GridSum(f, m - 1, n) + ColumnSum(f, m - 1, n)
  }

  /** Sums of functions that agree on the grid are equal. */
  lemma {:induction false} GridSumEqual(f: (int, int) -> int, g: (int, int) -> int, m: nat, n: nat)
    requires forall x, y :: 0 <= x < m && 0 <= y < n ==> f(x, y) == g(x, y)
    ensures GridSum(f, m, n) == GridSum(g, m, n)
  {
    if m > 0 {
      GridSumEqual(f, g, m - 1, n);
      ColumnSumMono(f, g, m - 1, n, -1, -1);
      ColumnSumMono(g, f, m - 1, n, -1, -1);
    }
  }

  /**
   * A sum grows with its function; if f exceeds g by at least one at the
   * cell (cx, cy) of column x, the column sum exceeds by at least one.
   */
  lemma {:induction false} ColumnSumMono(f: (int, int) -> int, g: (int, int) -> int, x: int, n: nat, cx: int, cy: int)
    requires forall y :: 0 <= y < n ==> f(x, y) >= g(x, y)
    requires x == cx && 0 <= cy < n ==> f(cx, cy) >= g(cx, cy) + 1
    ensures ColumnSum(f, x, n) >= ColumnSum(g, x, n) + (if x == cx && 0 <= cy < n then 1 else 0)
  {
    if n > 0 {
      ColumnSumMono(f, g, x, n - 1, cx, cy);
    }
  }

  lemma {:induction false} GridSumMono(f: (int, int) -> int, g: (int, int) -> int, m: nat, n: nat, cx: int, cy: int)
    requires forall x, y :: 0 <= x < m && 0 <= y < n ==> f(x, y) >= g(x, y)
    requires 0 <= cx < m && 0 <= cy < n ==> f(cx, cy) >= g(cx, cy) + 1
    ensures GridSum(f, m, n) >= GridSum(g, m, n) + (if 0 <= cx < m && 0 <= cy < n then 1 else 0)
  {
    if m > 0 {
      GridSumMono(f, g, m - 1, n, cx, cy);
      ColumnSumMono(f, g, m - 1, n, cx, cy);
    }
  }

  /** Changing f at one cell changes the sum by the difference at that cell. */
  lemma {:induction false} ColumnSumUpdate(f: (int, int) -> int, g: (int, int) -> int, x: int, n: nat, cx: int, cy: int)
    requires forall y :: 0 <= y < n && (x, y) != (cx, cy) ==> f(x, y) == g(x, y)
    ensures ColumnSum(f, x, n) == ColumnSum(g, x, n) + (if x == cx && 0 <= cy < n then f(cx, cy) - g(cx, cy) else 0)
  {
    if n > 0 {
      ColumnSumUpdate(f, g, x, n - 1, cx, cy);
    }
  }

  lemma {:induction false} GridSumUpdate(f: (int, int) -> int, g: (int, int) -> int, m: nat, n: nat, cx: int, cy: int)
    requires forall x, y :: 0 <= x < m && 0 <= y < n && (x, y) != (cx, cy) ==> f(x, y) == g(x, y)
    ensures GridSum(f, m, n) == GridSum(g, m, n) + (if 0 <= cx < m && 0 <= cy < n then f(cx, cy) - g(cx, cy) else 0)
  {
    if m > 0 {
      GridSumUpdate(f, g, m - 1, n, cx, cy);
      ColumnSumUpdate(f, g, m - 1, n, cx, cy);
    }
  }

  /** The sum of f is the sum of g plus the sum of h when f = g + h on the grid. */
  lemma {:induction false} ColumnSumAdd(f: (int, int) -> int, g: (int, int) -> int, h: (int, int) -> int, x: int, n: nat)
    requires forall y :: 0 <= y < n ==> f(x, y) == g(x, y) + h(x, y)
    ensures ColumnSum(f, x, n) == ColumnSum(g, x, n) + ColumnSum(h, x, n)
  {
    if n > 0 {
      ColumnSumAdd(f, g, h, x, n - 1);
    }
  }

  lemma {:induction false} GridSumAdd(f: (int, int) -> int, g: (int, int) -> int, h: (int, int) -> int, m: nat, n: nat)
    requires forall x, y :: 0 <= x < m && 0 <= y < n ==> f(x, y) == g(x, y) + h(x, y)
    ensures GridSum(f, m, n) == GridSum(g, m, n) + GridSum(h, m, n)
  {
    if m > 0 {
      GridSumAdd(f, g, h, m - 1, n);
      ColumnSumAdd(f, g, h, m - 1, n);
    }
  }

  /** A sum of values in [lo, hi] lies in [lo * cells, hi * cells]. */
  lemma {:induction false} ColumnSumBounds(f: (int, int) -> int, x: int, n: nat, lo: int, hi: int)
    requires forall y :: 0 <= y < n ==> lo <= f(x, y) <= hi
    ensures lo * n <= ColumnSum(f, x, n) <= hi * n
  {
    if n > 0 {
      ColumnSumBounds(f, x, n - 1, lo, hi);
    }
  }

  lemma {:induction false} GridSumBounds(f: (int, int) -> int, m: nat, n: nat, lo: int, hi: int)
    requires forall x, y :: 0 <= x < m && 0 <= y < n ==> lo <= f(x, y) <= hi
    ensures lo * (m * n) <= GridSum(f, m, n) <= hi * (m * n)
  {
    if m > 0 {
      GridSumBounds(f, m - 1, n, lo, hi);
      ColumnSumBounds(f, m - 1, n, lo, hi);
      var k := (m - 1) * n;
      assert m * n == k + n;
      Distribute(lo, k, n);
      Distribute(hi, k, n);
    }
  }

  /** The sum of -f is minus the sum of f. */
  lemma {:induction false} ColumnSumNegate(f: (int, int) -> int, g: (int, int) -> int, x: int, n: nat)
    requires forall y :: 0 <= y < n ==> g(x, y) == -f(x, y)
    ensures ColumnSum(g, x, n) == -ColumnSum(f, x, n)
  {
    if n > 0 {
      ColumnSumNegate(f, g, x, n - 1);
    }
  }

  lemma {:induction false} GridSumNegate(f: (int, int) -> int, g: (int, int) -> int, m: nat, n: nat)
    requires forall x, y :: 0 <= x < m && 0 <= y < n ==> g(x, y) == -f(x, y)
    ensures GridSum(g, m, n) == -GridSum(f, m, n)
  {
    if m > 0 {
      GridSumNegate(f, g, m - 1, n);
      ColumnSumNegate(f, g, m - 1, n);
    }
  }

  /** The sum of the indicator of distinct cells of the grid is the number of those cells. */
  lemma {:induction false} GridSumCount(f: (int, int) -> int, cells: seq<(int, int)>, m: nat, n: nat)
    requires forall i :: 0 <= i < |cells| ==> 0 <= cells[i].0 < m && 0 <= cells[i].1 < n
    requires forall i, j :: 0 <= i < j < |cells| ==> cells[i] != cells[j]
    requires forall x, y :: 0 <= x < m && 0 <= y < n ==> f(x, y) == if (x, y) in cells then 1 else 0
    ensures GridSum(f, m, n) == |cells|
  {
    if cells == [] {
      GridSumBounds(f, m, n, 0, 0);
    } else {
      var init, c := cells[..|cells| - 1], cells[|cells| - 1];
      assert cells == init + [c];
      var g := (x: int, y: int) => if (x, y) in init then 1 else 0;
      GridSumCount(g, init, m, n);
      assert c !in init by {
        forall i | 0 <= i < |init|
          ensures init[i] != c
        {
          assert init[i] == cells[i];
        }
      }
      GridSumUpdate(f, g, m, n, c.0, c.1);
    }
  }

  lemma Distribute(a: int, k: int, n: int)
    ensures a * (k + n) == a * k + a * n
  {
  }
}
