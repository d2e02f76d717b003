/**
 * The catalog of the 21 Blokus pieces every player starts with: one
 * monomino, one domino, two trominoes, five tetrominoes and twelve
 * pentominoes, each as a 0/1 shape in its base orientation.
 */
module Pieces {
  import opened Types
  import opened Grids

  // monomino
  const SHAPE_I1: Grid := [[1]]
  // domino
  const SHAPE_I2: Grid := [[1, 1]]
  // trominoes
  const SHAPE_I3: Grid := [[1, 1, 1]]
  const SHAPE_V3: Grid := [[1, 0],
                           [1, 1]]
  // tetrominoes
  const SHAPE_I4: Grid := [[1, 1, 1, 1]]
  const SHAPE_L4: Grid := [[1, 0, 0],
                           [1, 1, 1]]
  const SHAPE_T4: Grid := [[1, 1, 1],
                           [0, 1, 0]]
  const SHAPE_O4: Grid := [[1, 1],
                           [1, 1]]
  const SHAPE_Z4: Grid := [[1, 1, 0],
                           [0, 1, 1]]
  // pentominoes
  const SHAPE_I5: Grid := [[1, 1, 1, 1, 1]]
  const SHAPE_F5: Grid := [[0, 1, 1],
                           [1, 1, 0],
                           [0, 1, 0]]
  const SHAPE_L5: Grid := [[1, 0, 0, 0],
                           [1, 1, 1, 1]]
  const SHAPE_N5: Grid := [[0, 1, 1, 1],
                           [1, 1, 0, 0]]
  const SHAPE_P5: Grid := [[1, 1],
                           [1, 1],
                           [1, 0]]
  const SHAPE_T5: Grid := [[1, 1, 1],
                           [0, 1, 0],
                           [0, 1, 0]]
  const SHAPE_U5: Grid := [[1, 0, 1],
                           [1, 1, 1]]
  const SHAPE_V5: Grid := [[1, 0, 0],
                           [1, 0, 0],
                           [1, 1, 1]]
  const SHAPE_W5: Grid := [[1, 0, 0],
                           [1, 1, 0],
                           [0, 1, 1]]
  const SHAPE_X5: Grid := [[0, 1, 0],
                           [1, 1, 1],
                           [0, 1, 0]]
  const SHAPE_Y5: Grid := [[0, 1, 0, 0],
                           [1, 1, 1, 1]]
  const SHAPE_Z5: Grid := [[1, 1, 0],
                           [0, 1, 0],
                           [0, 1, 1]]

  /** The catalog: the 21 templates, smallest group first. */
  const PIECE_LIBRARY: seq<PieceTemplate> := [
    PieceTemplate("I1", SHAPE_I1),
    PieceTemplate("I2", SHAPE_I2),
    PieceTemplate("I3", SHAPE_I3),
    PieceTemplate("V3", SHAPE_V3),
    PieceTemplate("I4", SHAPE_I4),
    PieceTemplate("L4", SHAPE_L4),
    PieceTemplate("T4", SHAPE_T4),
    PieceTemplate("O4", SHAPE_O4),
    PieceTemplate("Z4", SHAPE_Z4),
    PieceTemplate("I5", SHAPE_I5),
    PieceTemplate("F5", SHAPE_F5),
    PieceTemplate("L5", SHAPE_L5),
    PieceTemplate("N5", SHAPE_N5),
    PieceTemplate("P5", SHAPE_P5),
    PieceTemplate("T5", SHAPE_T5),
    PieceTemplate("U5", SHAPE_U5),
    PieceTemplate("V5", SHAPE_V5),
    PieceTemplate("W5", SHAPE_W5),
    PieceTemplate("X5", SHAPE_X5),
    PieceTemplate("Y5", SHAPE_Y5),
    PieceTemplate("Z5", SHAPE_Z5)
  ]

  /** Every entry of the matrix is 0 or 1. */
  predicate IsBinary(m: Grid)
  {
    forall i, j :: 0 <= i < |m| && 0 <= j < |m[i]| ==> m[i][j] == 0 || m[i][j] == 1
  }

  /** The number of squares of the group the catalog lists its `i`-th entry under. */
  function GroupSize(i: int): int
  {
    if i == 0 then 1
    else if i == 1 then 2
    else if i <= 3 then 3
    else if i <= 8 then 4
    else 5
  }

  /** The squares of all the templates of `lib` together. */
  function TotalCells(lib: seq<PieceTemplate>): nat
  {
    if |lib| == 0 then 0 else TotalCells(lib[..|lib| - 1]) + GridCount(lib[|lib| - 1].shape, 1)
  }

  /** 1 when `row` has `v` at position `j`, else 0 (also off the row). */
  function At(row: seq<int>, j: int, v: int): nat
  {
    if 0 <= j < |row| && row[j] == v then 1 else 0
  }

  /** The count of `v` in a row of at most five entries, written out position by position. */
  function RowSum(row: seq<int>, v: int): nat
  {
    At(row, 0, v) + At(row, 1, v) + At(row, 2, v) + At(row, 3, v) + At(row, 4, v)
  }

  /** 0 past the last row, else the count of `v` in row `i`. */
  function RowAt(g: Grid, i: int, v: int): nat
  {
    if 0 <= i < |g| then RowSum(g[i], v) else 0
  }

  /** The count of `v` in a grid of at most five rows, written out row by row. */
  function GridSum(g: Grid, v: int): nat
  {
    RowAt(g, 0, v) + RowAt(g, 1, v) + RowAt(g, 2, v) + RowAt(g, 3, v) + RowAt(g, 4, v)
  }

  /** On rows of at most five entries the counting loop adds up the written-out count. */
  lemma {:induction false} RowCountIsSum(row: seq<int>, v: int)
    requires |row| <= 5
    ensures RowCount(row, v) == RowSum(row, v)
    decreases |row|
  {
    if |row| > 0 {
      var init := row[..|row| - 1];
      RowCountIsSum(init, v);
      assert forall j :: 0 <= j < |init| ==> At(init, j, v) == At(row, j, v);
    }
  }

  /** On shapes of at most 5 × 5 cells the counting loops add up the written-out count. */
  lemma {:induction false} GridCountIsSum(g: Grid, v: int)
    requires |g| <= 5 && forall i :: 0 <= i < |g| ==> |g[i]| <= 5
    ensures GridCount(g, v) == GridSum(g, v)
    decreases |g|
  {
    if |g| > 0 {
      var init := g[..|g| - 1];
      GridCountIsSum(init, v);
      RowCountIsSum(g[|g| - 1], v);
      assert forall i :: 0 <= i < |init| ==> RowAt(init, i, v) == RowAt(g, i, v);
    }
  }

  /** A catalog shape: a rectangular 0/1 matrix of at most 5 × 5 cells. */
  predicate WellShaped(m: Grid)
  {
    IsShape(m) && IsBinary(m) && |m| <= 5 && |m[0]| <= 5
  }

  /** A shape of one, two or three rows has `n` cells holding `v` when its rows' counts add up to `n`. */
  lemma CountByRows(m: Grid, r0: seq<int>, r1: seq<int>, r2: seq<int>, v: int, n: int)
    requires |r0| <= 5 && |r1| <= 5 && |r2| <= 5
    requires m == [r0] || m == [r0, r1] || m == [r0, r1, r2]
    requires n == RowSum(r0, v) + (if |m| > 1 then RowSum(r1, v) else 0) + (if |m| > 2 then RowSum(r2, v) else 0)
    ensures GridCount(m, v) == n
  {
    GridCountIsSum(m, v);
  }

  // The squares of each template, counted row by row.

  lemma SquaresOfI1()
    ensures GridCount(SHAPE_I1, 1) == 1
  {
    CountByRows(SHAPE_I1, [1], [], [], 1, 1);
  }

  lemma SquaresOfI2()
    ensures GridCount(SHAPE_I2, 1) == 2
  {
    CountByRows(SHAPE_I2, [1, 1], [], [], 1, 2);
  }

  lemma SquaresOfI3()
    ensures GridCount(SHAPE_I3, 1) == 3
  {
    CountByRows(SHAPE_I3, [1, 1, 1], [], [], 1, 3);
  }

  lemma SquaresOfV3()
    ensures GridCount(SHAPE_V3, 1) == 3
  {
    CountByRows(SHAPE_V3, [1, 0], [1, 1], [], 1, 3);
  }

  lemma SquaresOfI4()
    ensures GridCount(SHAPE_I4, 1) == 4
  {
    CountByRows(SHAPE_I4, [1, 1, 1, 1], [], [], 1, 4);
  }

  lemma SquaresOfL4()
    ensures GridCount(SHAPE_L4, 1) == 4
  {
    CountByRows(SHAPE_L4, [1, 0, 0], [1, 1, 1], [], 1, 4);
  }

  lemma SquaresOfT4()
    ensures GridCount(SHAPE_T4, 1) == 4
  {
    CountByRows(SHAPE_T4, [1, 1, 1], [0, 1, 0], [], 1, 4);
  }

  lemma SquaresOfO4()
    ensures GridCount(SHAPE_O4, 1) == 4
  {
    CountByRows(SHAPE_O4, [1, 1], [1, 1], [], 1, 4);
  }

  lemma SquaresOfZ4()
    ensures GridCount(SHAPE_Z4, 1) == 4
  {
    CountByRows(SHAPE_Z4, [1, 1, 0], [0, 1, 1], [], 1, 4);
  }

  lemma SquaresOfI5()
    ensures GridCount(SHAPE_I5, 1) == 5
  {
    CountByRows(SHAPE_I5, [1, 1, 1, 1, 1], [], [], 1, 5);
  }

  lemma SquaresOfF5()
    ensures GridCount(SHAPE_F5, 1) == 5
  {
    CountByRows(SHAPE_F5, [0, 1, 1], [1, 1, 0], [0, 1, 0], 1, 5);
  }

  lemma SquaresOfL5()
    ensures GridCount(SHAPE_L5, 1) == 5
  {
    CountByRows(SHAPE_L5, [1, 0, 0, 0], [1, 1, 1, 1], [], 1, 5);
  }

  lemma SquaresOfN5()
    ensures GridCount(SHAPE_N5, 1) == 5
  {
    CountByRows(SHAPE_N5, [0, 1, 1, 1], [1, 1, 0, 0], [], 1, 5);
  }

  lemma SquaresOfP5()
    ensures GridCount(SHAPE_P5, 1) == 5
  {
    CountByRows(SHAPE_P5, [1, 1], [1, 1], [1, 0], 1, 5);
  }

  lemma SquaresOfT5()
    ensures GridCount(SHAPE_T5, 1) == 5
  {
    CountByRows(SHAPE_T5, [1, 1, 1], [0, 1, 0], [0, 1, 0], 1, 5);
  }

  lemma SquaresOfU5()
    ensures GridCount(SHAPE_U5, 1) == 5
  {
    CountByRows(SHAPE_U5, [1, 0, 1], [1, 1, 1], [], 1, 5);
  }

  lemma SquaresOfV5()
    ensures GridCount(SHAPE_V5, 1) == 5
  {
    CountByRows(SHAPE_V5, [1, 0, 0], [1, 0, 0], [1, 1, 1], 1, 5);
  }

  lemma SquaresOfW5()
    ensures GridCount(SHAPE_W5, 1) == 5
  {
    CountByRows(SHAPE_W5, [1, 0, 0], [1, 1, 0], [0, 1, 1], 1, 5);
  }

  lemma SquaresOfX5()
    ensures GridCount(SHAPE_X5, 1) == 5
  {
    CountByRows(SHAPE_X5, [0, 1, 0], [1, 1, 1], [0, 1, 0], 1, 5);
  }

  lemma SquaresOfY5()
    ensures GridCount(SHAPE_Y5, 1) == 5
  {
    CountByRows(SHAPE_Y5, [0, 1, 0, 0], [1, 1, 1, 1], [], 1, 5);
  }

  lemma SquaresOfZ5()
    ensures GridCount(SHAPE_Z5, 1) == 5
  {
    CountByRows(SHAPE_Z5, [1, 1, 0], [0, 1, 0], [0, 1, 1], 1, 5);
  }

  /** The monomino, the domino and the two trominoes. */
  lemma SmallSquares(i: int)
    requires 0 <= i < 4
    ensures GridCount(PIECE_LIBRARY[i].shape, 1) == GroupSize(i)
  {
    if i == 0 { SquaresOfI1(); }
    else if i == 1 { SquaresOfI2(); }
    else if i == 2 { SquaresOfI3(); }
    else { SquaresOfV3(); }
  }

  /** The five tetrominoes have four squares each. */
  lemma TetrominoSquares(i: int)
    requires 4 <= i < 9
    ensures GridCount(PIECE_LIBRARY[i].shape, 1) == GroupSize(i)
  {
    if i == 4 { SquaresOfI4(); }
    else if i == 5 { SquaresOfL4(); }
    else if i == 6 { SquaresOfT4(); }
    else if i == 7 { SquaresOfO4(); }
    else { SquaresOfZ4(); }
  }

  /** The pentominoes I5 to T5 have five squares each. */
  lemma PentominoSquaresFirst(i: int)
    requires 9 <= i < 15
    ensures GridCount(PIECE_LIBRARY[i].shape, 1) == GroupSize(i)
  {
    if i == 9 { SquaresOfI5(); }
    else if i == 10 { SquaresOfF5(); }
    else if i == 11 { SquaresOfL5(); }
    else if i == 12 { SquaresOfN5(); }
    else if i == 13 { SquaresOfP5(); }
    else { SquaresOfT5(); }
  }

  /** The pentominoes U5 to Z5 have five squares each. */
  lemma PentominoSquaresLast(i: int)
    requires 15 <= i < 21
    ensures GridCount(PIECE_LIBRARY[i].shape, 1) == GroupSize(i)
  {
    if i == 15 { SquaresOfU5(); }
    else if i == 16 { SquaresOfV5(); }
    else if i == 17 { SquaresOfW5(); }
    else if i == 18 { SquaresOfX5(); }
    else if i == 19 { SquaresOfY5(); }
    else { SquaresOfZ5(); }
  }

  /** The `i`-th template has as many squares as its group says. */
  lemma TemplateCount(i: int)
    requires 0 <= i < |PIECE_LIBRARY|
    ensures GridCount(PIECE_LIBRARY[i].shape, 1) == GroupSize(i)
  {
    if i < 4 { SmallSquares(i); }
    else if i < 9 { TetrominoSquares(i); }
    else if i < 15 { PentominoSquaresFirst(i); }
    else { PentominoSquaresLast(i); }
  }

  /** 21 templates, no two with the same identifier. */
  lemma LibraryIds()
    ensures |PIECE_LIBRARY| == 21
    ensures forall i, j :: 0 <= i < j < |PIECE_LIBRARY| ==> PIECE_LIBRARY[i].id != PIECE_LIBRARY[j].id
  {
  }

  /** The first eleven templates are well shaped. */
  lemma ShapesFirst()
    ensures forall i :: 0 <= i < 11 ==> WellShaped(PIECE_LIBRARY[i].shape)
  {
  }

  /** The last ten templates are well shaped. */
  lemma ShapesLast()
    ensures forall i :: 11 <= i < 21 ==> WellShaped(PIECE_LIBRARY[i].shape)
  {
  }

  /** Every template is a rectangular 0/1 shape of at most 5 × 5 cells. */
  lemma LibraryShapes()
    ensures forall i :: 0 <= i < |PIECE_LIBRARY| ==> WellShaped(PIECE_LIBRARY[i].shape)
  {
    ShapesFirst();
    ShapesLast();
  }

  /** Each template has as many squares as its group says. */
  lemma LibraryCellCounts()
    ensures forall i :: 0 <= i < |PIECE_LIBRARY| ==> GridCount(PIECE_LIBRARY[i].shape, 1) == GroupSize(i)
  {
    forall i | 0 <= i < |PIECE_LIBRARY|
      ensures GridCount(PIECE_LIBRARY[i].shape, 1) == GroupSize(i)
    {
      TemplateCount(i);
    }
  }

  /** The squares of the first `k` groups' entries, by the group sizes alone. */
  function GroupTotal(k: nat): nat
  {
    if k == 0 then 0 else GroupTotal(k - 1) + GroupSize(k - 1)
  }

  /** When each template has its group's size, the first `k` of them cover what their groups say. */
  lemma {:induction false} TotalOfPrefix(lib: seq<PieceTemplate>, k: nat)
    requires k <= |lib|
    requires forall j :: 0 <= j < |lib| ==> GridCount(lib[j].shape, 1) == GroupSize(j)
    ensures TotalCells(lib[..k]) == GroupTotal(k)
  {
    if k > 0 {
      var prefix := lib[..k];
      TotalOfPrefix(lib, k - 1);
      assert prefix[..k - 1] == lib[..k - 1];
      assert prefix[k - 1] == lib[k - 1];
    }
  }

  /** One monomino, one domino, two trominoes, five tetrominoes and twelve pentominoes make 89 squares. */
  lemma GroupTotalIs89()
    ensures GroupTotal(21) == 89
  {
    // the group sizes, four entries at a time
    assert GroupTotal(1) == 1;
    assert GroupTotal(5) == 13;
    assert GroupTotal(9) == 29;
    assert GroupTotal(13) == 49;
    assert GroupTotal(17) == 69;
  }

  /** Any 21 templates with the catalog's group sizes cover 89 squares. */
  lemma TotalOfGroups(lib: seq<PieceTemplate>)
    requires |lib| == 21
    requires forall j :: 0 <= j < |lib| ==> GridCount(lib[j].shape, 1) == GroupSize(j)
    ensures TotalCells(lib) == 89
  {
    TotalOfPrefix(lib, 21);
    assert lib[..21] == lib;
    GroupTotalIs89();
  }

  /** The 21 pieces cover 89 squares together. */
  lemma LibraryTotal()
    ensures TotalCells(PIECE_LIBRARY) == 89
  {
    LibraryIds();
    LibraryCellCounts();
    TotalOfGroups(PIECE_LIBRARY);
  }

  /** The monomino "I1" is the only one-square template. */
  lemma OnlyMonomino()
    ensures forall i :: 0 <= i < |PIECE_LIBRARY| ==>
      (GridCount(PIECE_LIBRARY[i].shape, 1) == 1 <==> PIECE_LIBRARY[i].id == "I1")
  {
    LibraryIds();
    LibraryCellCounts();
  }
}
