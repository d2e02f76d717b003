/**
 * Counting the cells of a grid that hold a given value, two ways: by the
 * row-major accumulation a loop performs, and as the size of the set of
 * coordinates holding the value. The set view makes "a transform moves cells
 * around without creating or losing any" a statement about injective maps.
 */
module Grids {
  import opened Types

  /** At least one row, all rows of the first row's length. */
  predicate IsRect(m: Grid)
  {
    |m| > 0 && forall i :: 0 <= i < |m| ==> |m[i]| == |m[0]|
  }

  /** A rectangle with at least one row and one column, as every catalog shape is. */
  predicate IsShape(m: Grid)
  {
    IsRect(m) && |m[0]| > 0
  }

  /** Number of entries of `row` equal to `v`, counted from the left. */
  function RowCount(row: seq<int>, v: int): nat
  {
    if |row| == 0 then 0
    else RowCount(row[..|row| - 1], v) + (if row[|row| - 1] == v then 1 else 0)
  }

  /** Number of entries of `g` equal to `v`, counted row by row. */
  function GridCount(g: Grid, v: int): nat
  {
    if |g| == 0 then 0
    else GridCount(g[..|g| - 1], v) + RowCount(g[|g| - 1], v)
  }

  /** The coordinates of the entries of `g` equal to `v`. */
  function Cells(g: Grid, v: int): set<(int, int)>
  {
    set i, j | 0 <= i < |g| && 0 <= j < |g[i]| && g[i][j] == v :: (i, j)
  }

  /** The coordinates, in row `i`, of the entries of `row` equal to `v`. */
  function RowCells(row: seq<int>, i: int, v: int): set<(int, int)>
  {
    set j | 0 <= j < |row| && row[j] == v :: (i, j)
  }

  lemma {:induction false} RowCountIsCard(row: seq<int>, i: int, v: int)
    ensures RowCount(row, v) == |RowCells(row, i, v)|
  {
    if |row| > 0 {
      var n := |row| - 1;
      RowCountIsCard(row[..n], i, v);
      var last := if row[n] == v then {(i, n)} else {};
      assert RowCells(row, i, v) == RowCells(row[..n], i, v) + last;
      assert (i, n) !in RowCells(row[..n], i, v);
    }
  }

  /** The accumulated count is the number of coordinates holding `v`. */
  lemma {:induction false} GridCountIsCard(g: Grid, v: int)
    ensures GridCount(g, v) == |Cells(g, v)|
  {
    if |g| > 0 {
      var n := |g| - 1;
      GridCountIsCard(g[..n], v);
      RowCountIsCard(g[n], n, v);
      assert Cells(g, v) == Cells(g[..n], v) + RowCells(g[n], n, v);
      assert Cells(g[..n], v) * RowCells(g[n], n, v) == {};
    }
  }

  lemma {:induction false} RowCountBound(row: seq<int>, v: int)
    ensures RowCount(row, v) <= |row|
  {
    if |row| > 0 {
      RowCountBound(row[..|row| - 1], v);
    }
  }

  /** A count on a grid whose rows are at most `w` long is at most `|g| * w`. */
  lemma {:induction false} GridCountBoundBy(g: Grid, v: int, w: nat)
    requires forall i :: 0 <= i < |g| ==> |g[i]| <= w
    ensures GridCount(g, v) <= |g| * w
  {
    if |g| > 0 {
      var n := |g| - 1;
      GridCountBoundBy(g[..n], v, w);
      RowCountBound(g[n], v);
      assert |g| * w == n * w + w;
    }
  }

  /** A count on a rectangle lies between 0 and its area. */
  lemma GridCountBound(g: Grid, v: int)
    requires IsRect(g)
    ensures 0 <= GridCount(g, v) <= |g| * |g[0]|
  {
    GridCountBoundBy(g, v, |g[0]|);
  }

  /** The image of `s` under `f`. */
  function Image<T, U>(s: set<T>, f: T -> U): set<U>
  {
    set x | x in s :: f(x)
  }

  /** An injective map neither merges nor loses elements. */
  lemma {:induction false} InjectiveImageCard<T, U>(s: set<T>, f: T -> U)
    requires forall x, y :: x in s && y in s && f(x) == f(y) ==> x == y
    ensures |Image(s, f)| == |s|
  {
    if s != {} {
      var x :| x in s;
      var rest := s - {x};
      InjectiveImageCard(rest, f);
      assert Image(s, f) == Image(rest, f) + {f(x)};
      assert f(x) !in Image(rest, f);
    }
  }
}
