/** Option, for the `null` results of the games' helpers. */
module Wrappers {
  datatype Option<+T> = None | Some(value: T)
}

/**
 * Counting over the rectangular boards the games keep as arrays of rows
 * (`grid[row][column]`): per-cell weights summed row by row, and the effect
 * of overwriting one cell.
 */
module Grids {

  /** Every row of `g` has `cols` entries and there are `rows` rows. */
  predicate IsRect<T>(g: seq<seq<T>>, rows: int, cols: int)
  {
    |g| == rows && forall i :: 0 <= i < |g| ==> |g[i]| == cols
  }

  /** `g` with the entry at row `i`, column `j` replaced by `v`. */
  function Set2<T>(g: seq<seq<T>>, i: int, j: int, v: T): (r: seq<seq<T>>)
    requires 0 <= i < |g| && 0 <= j < |g[i]|
    ensures |r| == |g| && |r[i]| == |g[i]| && r[i][j] == v
    ensures forall a :: 0 <= a < |g| ==> |r[a]| == |g[a]|
    ensures forall a, b :: 0 <= a < |g| && 0 <= b < |g[a]| && (a != i || b != j) ==> r[a][b] == g[a][b]
  {
    g[i := g[i][j := v]]
  }

  function RowSum<T>(row: seq<T>, w: T -> nat): nat
  {
    if row == [] then 0 else RowSum(row[..|row| - 1], w) + w(row[|row| - 1])
  }

  function GridSum<T>(g: seq<seq<T>>, w: T -> nat): nat
  {
    if g == [] then 0 else GridSum(g[..|g| - 1], w) + RowSum(g[|g| - 1], w)
  }

  lemma {:induction false} RowSumUpdate<T>(row: seq<T>, j: int, v: T, w: T -> nat)
    requires 0 <= j < |row|
    ensures RowSum(row[j := v], w) == RowSum(row, w) - w(row[j]) + w(v)
  {
    var n := |row|;
    if j < n - 1 {
      assert row[j := v][..n - 1] == row[..n - 1][j := v];
      RowSumUpdate(row[..n - 1], j, v, w);
    } else {
      assert row[j := v][..n - 1] == row[..n - 1];
    }
  }

  lemma {:induction false} GridSumUpdate<T>(g: seq<seq<T>>, i: int, j: int, v: T, w: T -> nat)
    requires 0 <= i < |g| && 0 <= j < |g[i]|
    ensures GridSum(Set2(g, i, j, v), w) == GridSum(g, w) - w(g[i][j]) + w(v)
  {
    var n := |g|;
    var h := Set2(g, i, j, v);
    if i < n - 1 {
      assert h[..n - 1] == Set2(g[..n - 1], i, j, v);
      GridSumUpdate(g[..n - 1], i, j, v, w);
    } else {
      assert h[..n - 1] == g[..n - 1];
      RowSumUpdate(g[i], j, v, w);
    }
  }

  lemma {:induction false} RowSumBound<T>(row: seq<T>, w: T -> nat, k: nat)
    requires forall a :: 0 <= a < |row| ==> w(row[a]) <= k
    ensures RowSum(row, w) <= k * |row|
  {
    if row != [] {
      RowSumBound(row[..|row| - 1], w, k);
    }
  }

  lemma {:induction false} GridSumBound<T>(g: seq<seq<T>>, w: T -> nat, rows: int, cols: int)
    requires IsRect(g, rows, cols)
    requires forall a, b :: 0 <= a < |g| && 0 <= b < |g[a]| ==> w(g[a][b]) <= 1
    ensures GridSum(g, w) <= rows * cols
  {
    if g != [] {
      GridSumBound(g[..|g| - 1], w, rows - 1, cols);
      RowSumBound(g[|g| - 1], w, 1);
      assert rows * cols == (rows - 1) * cols + cols;
    }
  }

  lemma {:induction false} GridSumFull<T>(g: seq<seq<T>>, w: T -> nat, rows: int, cols: int)
    requires IsRect(g, rows, cols)
    requires forall a, b :: 0 <= a < |g| && 0 <= b < |g[a]| ==> w(g[a][b]) == 1
    ensures GridSum(g, w) == rows * cols
  {
    if g != [] {
      GridSumFull(g[..|g| - 1], w, rows - 1, cols);
      RowSumFull(g[|g| - 1], w);
      assert rows * cols == (rows - 1) * cols + cols;
    }
  }

  lemma {:induction false} RowSumFull<T>(row: seq<T>, w: T -> nat)
    requires forall a :: 0 <= a < |row| ==> w(row[a]) == 1
    ensures RowSum(row, w) == |row|
  {
    if row != [] {
      RowSumFull(row[..|row| - 1], w);
    }
  }

  lemma {:induction false} GridSumZero<T>(g: seq<seq<T>>, w: T -> nat)
    requires forall a, b :: 0 <= a < |g| && 0 <= b < |g[a]| ==> w(g[a][b]) == 0
    ensures GridSum(g, w) == 0
  {
    if g != [] {
      GridSumZero(g[..|g| - 1], w);
      RowSumZero(g[|g| - 1], w);
    }
  }

  lemma {:induction false} RowSumZero<T>(row: seq<T>, w: T -> nat)
    requires forall a :: 0 <= a < |row| ==> w(row[a]) == 0
    ensures RowSum(row, w) == 0
  {
    if row != [] {
      RowSumZero(row[..|row| - 1], w);
    }
  }

  /** A `rows` by `cols` board with every entry `v` (`Array.from(..., () => Array(c).fill(v))`). */
  function Filled<T>(rows: nat, cols: nat, v: T): (g: seq<seq<T>>)
    ensures IsRect(g, rows, cols)
    ensures forall a, b :: 0 <= a < rows && 0 <= b < cols ==> g[a][b] == v
  {
    seq(rows, _ => seq(cols, _ => v))
  }

  /** A `rows` by `cols` board whose every entry is `v` is the filled board. */
  lemma FilledUnique<T>(g: seq<seq<T>>, rows: nat, cols: nat, v: T)
    requires IsRect(g, rows, cols)
    requires forall a, b :: 0 <= a < rows && 0 <= b < cols ==> g[a][b] == v
    ensures g == Filled(rows, cols, v)
  {
    var f := Filled(rows, cols, v);
    forall a | 0 <= a < rows
      ensures g[a] == f[a]
    {
      assert |g[a]| == |f[a]|;
    }
  }

  lemma {:induction false} RowSumMono<T>(row: seq<T>, v: T -> nat, w: T -> nat)
    requires forall a :: 0 <= a < |row| ==> v(row[a]) <= w(row[a])
    ensures RowSum(row, v) <= RowSum(row, w)
  {
    if row != [] {
      RowSumMono(row[..|row| - 1], v, w);
    }
  }

  /** Sums respect a pointwise order of the weights. */
  lemma {:induction false} GridSumMono<T>(g: seq<seq<T>>, v: T -> nat, w: T -> nat)
    requires forall a, b :: 0 <= a < |g| && 0 <= b < |g[a]| ==> v(g[a][b]) <= w(g[a][b])
    ensures GridSum(g, v) <= GridSum(g, w)
  {
    if g != [] {
      GridSumMono(g[..|g| - 1], v, w);
      RowSumMono(g[|g| - 1], v, w);
    }
  }

  /** The weight counting every entry. */
  function One<T>(t: T): nat { 1 }

  /** Two weights that split every entry between them split the whole count. */
  lemma GridSumSplit<T>(g: seq<seq<T>>, v: T -> nat, w: T -> nat, rows: int, cols: int)
    requires IsRect(g, rows, cols)
    requires forall a, b :: 0 <= a < |g| && 0 <= b < |g[a]| ==> v(g[a][b]) + w(g[a][b]) == 1
    ensures GridSum(g, v) + GridSum(g, w) == rows * cols
  {
    GridSumPlus(g, One, v, w);
    GridSumFull(g, One, rows, cols);
  }

  lemma {:induction false} RowSumAt<T>(row: seq<T>, w: T -> nat, j: int)
    requires 0 <= j < |row|
    ensures w(row[j]) <= RowSum(row, w)
  {
    if j < |row| - 1 {
      RowSumAt(row[..|row| - 1], w, j);
    }
  }

  /** No entry weighs more than the whole sum. */
  lemma {:induction false} GridSumAt<T>(g: seq<seq<T>>, w: T -> nat, i: int, j: int)
    requires 0 <= i < |g| && 0 <= j < |g[i]|
    ensures w(g[i][j]) <= GridSum(g, w)
  {
    if i < |g| - 1 {
      GridSumAt(g[..|g| - 1], w, i, j);
    } else {
      RowSumAt(g[i], w, j);
    }
  }

  lemma {:induction false} RowSumPlus<T>(row: seq<T>, u: T -> nat, v: T -> nat, w: T -> nat)
    requires forall a :: 0 <= a < |row| ==> u(row[a]) == v(row[a]) + w(row[a])
    ensures RowSum(row, u) == RowSum(row, v) + RowSum(row, w)
  {
    if row != [] {
      RowSumPlus(row[..|row| - 1], u, v, w);
    }
  }

  /** A weight that is the sum of two others sums to the sum of their sums. */
  lemma {:induction false} GridSumPlus<T>(g: seq<seq<T>>, u: T -> nat, v: T -> nat, w: T -> nat)
    requires forall a, b :: 0 <= a < |g| && 0 <= b < |g[a]| ==> u(g[a][b]) == v(g[a][b]) + w(g[a][b])
    ensures GridSum(g, u) == GridSum(g, v) + GridSum(g, w)
  {
    if g != [] {
      GridSumPlus(g[..|g| - 1], u, v, w);
      RowSumPlus(g[|g| - 1], u, v, w);
    }
  }

  lemma {:induction false} RowSumMatch<T>(row: seq<T>, other: seq<T>, w: T -> nat)
    requires |row| == |other|
    requires forall a :: 0 <= a < |row| ==> w(row[a]) == w(other[a])
    ensures RowSum(row, w) == RowSum(other, w)
  {
    if row != [] {
      RowSumMatch(row[..|row| - 1], other[..|other| - 1], w);
    }
  }

  /** Two boards of one shape whose entries weigh the same have the same sum. */
  lemma {:induction false} GridSumMatch<T>(g: seq<seq<T>>, h: seq<seq<T>>, w: T -> nat)
    requires |g| == |h| && forall a :: 0 <= a < |g| ==> |g[a]| == |h[a]|
    requires forall a, b :: 0 <= a < |g| && 0 <= b < |g[a]| ==> w(g[a][b]) == w(h[a][b])
    ensures GridSum(g, w) == GridSum(h, w)
  {
    if g != [] {
      GridSumMatch(g[..|g| - 1], h[..|h| - 1], w);
      RowSumMatch(g[|g| - 1], h[|h| - 1], w);
    }
  }

  lemma {:induction false} RowSumAcross<T>(row: seq<T>, other: seq<T>, v: T -> nat, w: T -> nat)
    requires |row| == |other|
    requires forall a :: 0 <= a < |row| ==> v(row[a]) == w(other[a])
    ensures RowSum(row, v) == RowSum(other, w)
  {
    if row != [] {
      RowSumAcross(row[..|row| - 1], other[..|other| - 1], v, w);
    }
  }

  /** Two boards of one shape whose entries weigh the same under `v` and `w` have the same sums. */
  lemma {:induction false} GridSumAcross<T>(g: seq<seq<T>>, h: seq<seq<T>>, v: T -> nat, w: T -> nat)
    requires |g| == |h| && forall a :: 0 <= a < |g| ==> |g[a]| == |h[a]|
    requires forall a, b :: 0 <= a < |g| && 0 <= b < |g[a]| ==> v(g[a][b]) == w(h[a][b])
    ensures GridSum(g, v) == GridSum(h, w)
  {
    if g != [] {
      GridSumAcross(g[..|g| - 1], h[..|h| - 1], v, w);
      RowSumAcross(g[|g| - 1], h[|h| - 1], v, w);
    }
  }

  /** The weight of the entries before `(i, j)` in row-major order. */
  function SumUpTo<T>(g: seq<seq<T>>, w: T -> nat, rows: nat, cols: nat, i: int, j: int): nat
    requires IsRect(g, rows, cols) && 0 <= i <= rows && 0 <= j <= cols && (i == rows ==> j == 0)
  {
    GridSum(g[..i], w) + if i < rows then RowSum(g[i][..j], w) else 0
  }

  lemma SumUpToStep<T>(g: seq<seq<T>>, w: T -> nat, rows: nat, cols: nat, i: int, j: int)
    requires IsRect(g, rows, cols) && 0 <= i < rows && 0 <= j < cols
    ensures SumUpTo(g, w, rows, cols, i, j + 1) == SumUpTo(g, w, rows, cols, i, j) + w(g[i][j])
  {
    assert g[i][..j + 1][..j] == g[i][..j];
  }

  lemma SumUpToRow<T>(g: seq<seq<T>>, w: T -> nat, rows: nat, cols: nat, i: int)
    requires IsRect(g, rows, cols) && 0 <= i < rows
    ensures SumUpTo(g, w, rows, cols, i, cols) == SumUpTo(g, w, rows, cols, i + 1, 0)
  {
    assert g[..i + 1][..i] == g[..i];
    assert g[i][..cols] == g[i];
    if i + 1 < rows {
      assert |g[i + 1][..0]| == 0;
    }
  }

  lemma SumUpToEnds<T>(g: seq<seq<T>>, w: T -> nat, rows: nat, cols: nat)
    requires IsRect(g, rows, cols)
    ensures SumUpTo(g, w, rows, cols, 0, 0) == 0
    ensures SumUpTo(g, w, rows, cols, rows, 0) == GridSum(g, w)
  {
    assert |g[..0]| == 0;
    assert g[..rows] == g;
    if 0 < rows {
      assert |g[0][..0]| == 0;
    }
  }

  /** `f` applied to every entry. */
  function MapAll<T>(g: seq<seq<T>>, f: T -> T): (h: seq<seq<T>>)
    ensures |h| == |g| && forall a :: 0 <= a < |g| ==> |h[a]| == |g[a]|
    ensures forall a, b :: 0 <= a < |g| && 0 <= b < |g[a]| ==> h[a][b] == f(g[a][b])
  {
    seq(|g|, a requires 0 <= a < |g| => seq(|g[a]|, b requires 0 <= b < |g[a]| => f(g[a][b])))
  }

  /** `f` applied to the entries before `(i, j)` in row-major order: a row-by-row pass stopped there. */
  function MapUpTo<T>(g: seq<seq<T>>, rows: nat, cols: nat, f: T -> T, i: int, j: int): (h: seq<seq<T>>)
    requires IsRect(g, rows, cols)
    ensures IsRect(h, rows, cols)
  {
    seq(rows, a requires 0 <= a < rows => seq(cols, b requires 0 <= b < cols =>
      if a < i || (a == i && b < j) then f(g[a][b]) else g[a][b]))
  }

  lemma MapUpToNone<T>(g: seq<seq<T>>, rows: nat, cols: nat, f: T -> T)
    requires IsRect(g, rows, cols)
    ensures MapUpTo(g, rows, cols, f, 0, 0) == g
  {
    var h := MapUpTo(g, rows, cols, f, 0, 0);
    forall a | 0 <= a < rows
      ensures h[a] == g[a]
    {
    }
  }

  /** One more entry of the pass. */
  lemma MapUpToStep<T>(g: seq<seq<T>>, rows: nat, cols: nat, f: T -> T, i: int, j: int)
    requires IsRect(g, rows, cols) && 0 <= i < rows && 0 <= j < cols
    ensures MapUpTo(g, rows, cols, f, i, j)[i][j] == g[i][j]
    ensures MapUpTo(g, rows, cols, f, i, j + 1) == Set2(MapUpTo(g, rows, cols, f, i, j), i, j, f(g[i][j]))
  {
    var h, h' := MapUpTo(g, rows, cols, f, i, j), MapUpTo(g, rows, cols, f, i, j + 1);
    var s := Set2(h, i, j, f(g[i][j]));
    forall a | 0 <= a < rows
      ensures h'[a] == s[a]
    {
      forall b | 0 <= b < cols
        ensures h'[a][b] == s[a][b]
      {
      }
    }
  }

  /** The entry at `(i, j)` is left as it was when `f` keeps it. */
  lemma MapUpToKeep<T>(g: seq<seq<T>>, rows: nat, cols: nat, f: T -> T, i: int, j: int)
    requires IsRect(g, rows, cols) && 0 <= i < rows && 0 <= j < cols && f(g[i][j]) == g[i][j]
    ensures MapUpTo(g, rows, cols, f, i, j + 1) == MapUpTo(g, rows, cols, f, i, j)
  {
    var h, h' := MapUpTo(g, rows, cols, f, i, j), MapUpTo(g, rows, cols, f, i, j + 1);
    forall a | 0 <= a < rows
      ensures h'[a] == h[a]
    {
      forall b | 0 <= b < cols
        ensures h'[a][b] == h[a][b]
      {
      }
    }
  }

  /** The end of a row is the start of the next. */
  lemma MapUpToRow<T>(g: seq<seq<T>>, rows: nat, cols: nat, f: T -> T, i: int)
    requires IsRect(g, rows, cols) && 0 <= i
    ensures MapUpTo(g, rows, cols, f, i, cols) == MapUpTo(g, rows, cols, f, i + 1, 0)
  {
    var h, h' := MapUpTo(g, rows, cols, f, i, cols), MapUpTo(g, rows, cols, f, i + 1, 0);
    forall a | 0 <= a < rows
      ensures h[a] == h'[a]
    {
    }
  }

  /** The finished pass is `MapAll`. */
  lemma MapUpToAll<T>(g: seq<seq<T>>, rows: nat, cols: nat, f: T -> T)
    requires IsRect(g, rows, cols)
    ensures MapUpTo(g, rows, cols, f, rows, 0) == MapAll(g, f)
  {
    var h, h' := MapUpTo(g, rows, cols, f, rows, 0), MapAll(g, f);
    forall a | 0 <= a < rows
      ensures h[a] == h'[a]
    {
    }
  }
}

/**
 * The games draw their random choices as `Math.floor(Math.random() * n)`.
 * Here the value of `Math.random()` is supplied by the caller as a real in
 * [0, 1), and `Pick` turns it into an index.
 */
module Draws {

  predicate IsUnit(r: real) { 0.0 <= r < 1.0 }

  /** `Math.floor(r * n)`: an index below `n` for any draw `r` in [0, 1). */
  function Pick(r: real, n: nat): (k: nat)
    requires IsUnit(r) && n > 0
    ensures k < n
  {
    var p := r * (n as real);
    assert 0.0 <= p;
    assert p < n as real by { assert (n as real) - p == (1.0 - r) * (n as real); }
    p.Floor
  }
}
