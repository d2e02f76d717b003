/**
 * Shape transforms, scoring and the placement rules of Blokus Duo.
 *
 * Each operation the game's TypeScript code writes as a loop is a method proved equal to a
 * specification function or predicate; the laws the rules rely on (four
 * quarter turns are the identity, a mirror is an involution, transforms keep
 * the number of occupied cells) are lemmas about those functions.
 */
module PieceUtils {
  import opened Types
  import opened Grids

  // ---------------------------------------------------------------------
  // Shape transforms
  // ---------------------------------------------------------------------

  /** A quarter turn clockwise: row `j` of the result is column `j` read bottom-up. */
  function Rotated(m: Grid): (r: Grid)
    requires IsRect(m)
    ensures |r| == |m[0]| && forall j :: 0 <= j < |r| ==> |r[j]| == |m|
  {
    seq(|m[0]|, j requires 0 <= j < |m[0]| => seq(|m|, k requires 0 <= k < |m| => m[|m| - 1 - k][j]))
  }

  /** Cell (i, j) of an r × c shape moves to (j, r - 1 - i) of the c × r result. */
  lemma RotatedAt(m: Grid)
    requires IsRect(m)
    ensures IsRect(Rotated(m)) || |m[0]| == 0
    ensures forall i, j :: 0 <= i < |m| && 0 <= j < |m[0]| ==> Rotated(m)[j][|m| - 1 - i] == m[i][j]
  {
  }

  function Reversed(row: seq<int>): seq<int>
  {
    seq(|row|, k requires 0 <= k < |row| => row[|row| - 1 - k])
  }

  /** The horizontal mirror image: every row reversed. */
  function Flipped(m: Grid): (r: Grid)
    ensures |r| == |m| && forall i :: 0 <= i < |m| ==> |r[i]| == |m[i]|
  {
    seq(|m|, i requires 0 <= i < |m| => Reversed(m[i]))
  }

  /** `n` quarter turns. */
  function RotatedTimes(m: Grid, n: nat): (r: Grid)
    requires n > 0 ==> IsShape(m)
    ensures IsShape(m) ==> IsShape(r)
    ensures IsShape(m) ==> |r| == (if n % 2 == 0 then |m| else |m[0]|)
    ensures IsShape(m) ==> |r[0]| == (if n % 2 == 0 then |m[0]| else |m|)
  {
    if n == 0 then m else Rotated(RotatedTimes(m, n - 1))
  }

  /**
   * The number of quarter turns a rotation in degrees stands for:
   * `(rotation / 90) % 4` with the remainder of JavaScript, which keeps the
   * sign of the dividend (a negative count performs no turn).
   */
  function RotationCount(rotation: int): (n: int)
    requires rotation % 90 == 0
    ensures -4 < n < 4 && (rotation / 90 - n) % 4 == 0
    ensures rotation >= 0 ==> n >= 0
    ensures rotation < 0 ==> n <= 0
  {
    var q := rotation / 90;
    if q >= 0 then q % 4 else -((-q) % 4)
  }

  /** The turns the rotation loop actually performs. */
  function Turns(rotation: int): nat
    requires rotation % 90 == 0
  {
    var n := RotationCount(rotation);
    if n > 0 then n else 0
  }

  /** What the transform needs of a piece: a right-angle rotation, and a proper shape if it turns. */
  predicate WellFormedPiece(p: Piece)
  {
    p.rotation % 90 == 0 && (Turns(p.rotation) > 0 ==> IsShape(p.baseShape))
  }

  /** The displayed shape: the mirror (if any) first, then the quarter turns. */
  function TransformedShape(p: Piece): Grid
    requires WellFormedPiece(p)
  {
    var start := if p.isFlipped then Flipped(p.baseShape) else p.baseShape;
    RotatedTimes(start, Turns(p.rotation))
  }

  method RotateMatrix(matrix: Grid) returns (newMatrix: Grid)
    requires IsRect(matrix)
    ensures newMatrix == Rotated(matrix)
  {
    var rows := |matrix|;
    var cols := |matrix[0]|;
    newMatrix := seq(cols, _ => seq(rows, _ => 0));
    for i := 0 to rows
      invariant |newMatrix| == cols && forall j :: 0 <= j < cols ==> |newMatrix[j]| == rows
      invariant forall j, k :: 0 <= j < cols && 0 <= k < rows ==>
        newMatrix[j][k] == if rows - 1 - k < i then matrix[rows - 1 - k][j] else 0
    {
      for j := 0 to cols
        invariant |newMatrix| == cols && forall j' :: 0 <= j' < cols ==> |newMatrix[j']| == rows
        invariant forall j', k :: 0 <= j' < cols && 0 <= k < rows ==>
          newMatrix[j'][k] ==
            if rows - 1 - k < i || (rows - 1 - k == i && j' < j) then matrix[rows - 1 - k][j'] else 0
      {
        newMatrix := newMatrix[j := newMatrix[j][rows - 1 - i := matrix[i][j]]];
      }
    }
    forall j | 0 <= j < cols
      ensures newMatrix[j] == Rotated(matrix)[j]
    {
    }
  }

  method FlipMatrix(matrix: Grid) returns (newMatrix: Grid)
    ensures newMatrix == Flipped(matrix)
  {
    newMatrix := matrix;
    for i := 0 to |newMatrix|
      invariant |newMatrix| == |matrix|
      invariant forall i' :: 0 <= i' < i ==> newMatrix[i'] == Reversed(matrix[i'])
      invariant forall i' :: i <= i' < |matrix| ==> newMatrix[i'] == matrix[i']
    {
      newMatrix := newMatrix[i := Reversed(newMatrix[i])];
    }
  }

  method GetTransformedShape(piece: Piece) returns (shape: Grid)
    requires WellFormedPiece(piece)
    ensures shape == TransformedShape(piece)
  {
    shape := piece.baseShape;
    var rotationCount := RotationCount(piece.rotation);
    if piece.isFlipped {
      shape := FlipMatrix(shape);
    }
    ghost var start := shape;
    FlippedShape(piece.baseShape);
    assert Turns(piece.rotation) > 0 ==> IsShape(start);
    ghost var turns := Turns(piece.rotation);
    assert rotationCount <= 0 ==> turns == 0;
    assert rotationCount > 0 ==> turns == rotationCount;
    var i := 0;
    while i < rotationCount
      invariant 0 <= i <= turns
      invariant shape == RotatedTimes(start, i)
    {
      assert IsShape(start);
      shape := RotateMatrix(shape);
      i := i + 1;
    }
  }

  /** A mirror image of a proper shape is a proper shape. */
  lemma FlippedShape(m: Grid)
    ensures IsShape(m) ==> IsShape(Flipped(m))
  {
  }

  /** A half turn sends cell (i, j) to the opposite corner. */
  lemma RotatedTwice(m: Grid)
    requires IsShape(m)
    ensures IsShape(Rotated(Rotated(m)))
    ensures |Rotated(Rotated(m))| == |m| && |Rotated(Rotated(m))[0]| == |m[0]|
    ensures forall i, j :: 0 <= i < |m| && 0 <= j < |m[0]| ==>
      Rotated(Rotated(m))[i][j] == m[|m| - 1 - i][|m[0]| - 1 - j]
  {
    var r := Rotated(m);
    var h := Rotated(r);
    forall i, j | 0 <= i < |m| && 0 <= j < |m[0]|
      ensures h[i][j] == m[|m| - 1 - i][|m[0]| - 1 - j]
    {
      assert h[i][j] == r[|r| - 1 - j][i];
    }
  }

  /** Two half turns give back the shape. */
  lemma HalfTurnTwice(m: Grid)
    requires IsShape(m)
    ensures Rotated(Rotated(Rotated(Rotated(m)))) == m
  {
    var h := Rotated(Rotated(m));
    RotatedTwice(m);
    RotatedTwice(h);
    var f := Rotated(Rotated(h));
    forall i | 0 <= i < |m|
      ensures f[i] == m[i]
    {
      forall j | 0 <= j < |m[0]|
        ensures f[i][j] == m[i][j]
      {
        assert f[i][j] == h[|h| - 1 - i][|h[0]| - 1 - j];
      }
    }
  }

  /** Four quarter turns give back the shape. */
  lemma RotateFourTimes(m: Grid)
    requires IsShape(m)
    ensures RotatedTimes(m, 4) == m
  {
    HalfTurnTwice(m);
    assert RotatedTimes(m, 1) == Rotated(m);
    assert RotatedTimes(m, 2) == Rotated(Rotated(m));
    assert RotatedTimes(m, 3) == Rotated(Rotated(Rotated(m)));
  }

  /** Mirroring twice gives back the shape, whatever its row lengths. */
  lemma FlipTwice(m: Grid)
    ensures Flipped(Flipped(m)) == m
  {
    forall i | 0 <= i < |m|
      ensures Flipped(Flipped(m))[i] == m[i]
    {
    }
  }

  /** An unturned, unmirrored piece shows its base shape. */
  lemma TransformIdentity(p: Piece)
    requires p.rotation == 0 && !p.isFlipped
    ensures WellFormedPiece(p) && TransformedShape(p) == p.baseShape
  {
  }

  /** The dimensions swap exactly when the number of turns is odd. */
  lemma TransformDimensions(p: Piece)
    requires WellFormedPiece(p) && IsShape(p.baseShape)
    ensures IsShape(TransformedShape(p))
    ensures Turns(p.rotation) % 2 == 1 ==>
      |TransformedShape(p)| == |p.baseShape[0]| && |TransformedShape(p)[0]| == |p.baseShape|
    ensures Turns(p.rotation) % 2 == 0 ==>
      |TransformedShape(p)| == |p.baseShape| && |TransformedShape(p)[0]| == |p.baseShape[0]|
  {
    var start := if p.isFlipped then Flipped(p.baseShape) else p.baseShape;
    assert IsShape(start);
  }

  // ---------------------------------------------------------------------
  // Counting under transforms
  // ---------------------------------------------------------------------

  /** A quarter turn moves every cell, so it keeps the number of cells holding `v`. */
  lemma RotatedCount(m: Grid, v: int)
    requires IsRect(m)
    ensures GridCount(Rotated(m), v) == GridCount(m, v)
  {
    var rows := |m|;
    var f := (p: (int, int)) => (p.1, rows - 1 - p.0);
    var r := Rotated(m);
    forall q | q in Cells(r, v)
      ensures q in Image(Cells(m, v), f)
    {
      var (a, b) := q;
      assert (rows - 1 - b, a) in Cells(m, v);
      assert f((rows - 1 - b, a)) == q;
    }
    forall q | q in Image(Cells(m, v), f)
      ensures q in Cells(r, v)
    {
      var p :| p in Cells(m, v) && f(p) == q;
      assert r[p.1][rows - 1 - p.0] == m[p.0][p.1];
    }
    assert Cells(r, v) == Image(Cells(m, v), f);
    InjectiveImageCard(Cells(m, v), f);
    GridCountIsCard(r, v);
    GridCountIsCard(m, v);
  }

  /** A mirror moves every cell within its row, so it keeps the count. */
  lemma FlippedCount(m: Grid, v: int)
    ensures GridCount(Flipped(m), v) == GridCount(m, v)
  {
    var f := (p: (int, int)) => if 0 <= p.0 < |m| then (p.0, |m[p.0]| - 1 - p.1) else p;
    var r := Flipped(m);
    forall q | q in Cells(r, v)
      ensures q in Image(Cells(m, v), f)
    {
      var (a, b) := q;
      assert (a, |m[a]| - 1 - b) in Cells(m, v);
      assert f((a, |m[a]| - 1 - b)) == q;
    }
    forall q | q in Image(Cells(m, v), f)
      ensures q in Cells(r, v)
    {
      var p :| p in Cells(m, v) && f(p) == q;
      assert r[p.0][|m[p.0]| - 1 - p.1] == m[p.0][p.1];
    }
    assert Cells(r, v) == Image(Cells(m, v), f);
    InjectiveImageCard(Cells(m, v), f);
    GridCountIsCard(r, v);
    GridCountIsCard(m, v);
  }

  lemma {:induction false} RotatedTimesCount(m: Grid, n: nat, v: int)
    requires IsShape(m)
    ensures GridCount(RotatedTimes(m, n), v) == GridCount(m, v)
  {
    if n > 0 {
      RotatedTimesCount(m, n - 1, v);
      RotatedCount(RotatedTimes(m, n - 1), v);
    }
  }

  /** The displayed shape has as many occupied cells as the base shape. */
  lemma TransformPreservesCount(p: Piece, v: int)
    requires WellFormedPiece(p) && IsShape(p.baseShape)
    ensures GridCount(TransformedShape(p), v) == GridCount(p.baseShape, v)
  {
    var start := if p.isFlipped then Flipped(p.baseShape) else p.baseShape;
    FlippedCount(p.baseShape, v);
    assert IsShape(start);
    RotatedTimesCount(start, Turns(p.rotation), v);
  }

  // ---------------------------------------------------------------------
  // Scoring
  // ---------------------------------------------------------------------

  /** Counts, row by row, the squares of `board` that hold `player`. */
  method CalculatePlacedScore(board: Grid, player: Player) returns (score: nat)
    ensures score == GridCount(board, player)
    ensures score == |Cells(board, player)|
  {
    score := 0;
    for r := 0 to |board|
      invariant score == GridCount(board[..r], player)
    {
      for c := 0 to |board[r]|
        invariant score == GridCount(board[..r], player) + RowCount(board[r][..c], player)
      {
        assert board[r][..c + 1][..c] == board[r][..c];
        if board[r][c] == player {
          score := score + 1;
        }
      }
      assert board[r][..|board[r]|] == board[r];
      assert board[..r + 1][..r] == board[..r];
    }
    assert board[..|board|] == board;
    GridCountIsCard(board, player);
  }

  /** On a rectangular board the score lies between 0 and the board's area. */
  lemma PlacedScoreBound(board: Grid, player: Player)
    requires IsRect(board)
    ensures 0 <= |Cells(board, player)| <= |board| * |board[0]|
  {
    GridCountIsCard(board, player);
    GridCountBound(board, player);
  }

  // ---------------------------------------------------------------------
  // Placement rules
  // ---------------------------------------------------------------------

  /** Offsets of the four edge neighbours, in the order the check visits them. */
  const ORTHOGONAL: seq<(int, int)> := [(-1, 0), (1, 0), (0, -1), (0, 1)]

  /** Offsets of the four corner neighbours, in the order the check visits them. */
  const DIAGONAL: seq<(int, int)> := [(-1, -1), (-1, 1), (1, -1), (1, 1)]

  /** Bounds as the check computes them: the height of the board and the width of its first row. */
  predicate InBounds(board: Grid, r: int, c: int)
    requires IsRect(board)
  {
    0 <= r < |board| && 0 <= c < |board[0]|
  }

  predicate OwnedBy(board: Grid, r: int, c: int, player: Player)
    requires IsRect(board)
  {
    InBounds(board, r, c) && board[r][c] == player
  }

  /** Some in-bounds edge neighbour of (r, c) belongs to `player`. */
  predicate HasEdgeNeighbor(board: Grid, r: int, c: int, player: Player)
    requires IsRect(board)
  {
    OwnedBy(board, r - 1, c, player) || OwnedBy(board, r + 1, c, player) ||
    OwnedBy(board, r, c - 1, player) || OwnedBy(board, r, c + 1, player)
  }

  /** Some in-bounds corner neighbour of (r, c) belongs to `player`. */
  predicate HasCornerNeighbor(board: Grid, r: int, c: int, player: Player)
    requires IsRect(board)
  {
    OwnedBy(board, r - 1, c - 1, player) || OwnedBy(board, r - 1, c + 1, player) ||
    OwnedBy(board, r + 1, c - 1, player) || OwnedBy(board, r + 1, c + 1, player)
  }

  /** The square a player's first piece must cover. */
  function StartPoint(player: Player): (int, int)
  {
    if player == 1 then (4, 4) else (9, 9)
  }

  /** Cell (r, c) of the shape is part of the piece. */
  predicate Occupied(shape: Grid, r: int, c: int)
  {
    0 <= r < |shape| && 0 <= c < |shape[r]| && shape[r][c] == 1
  }

  /** A piece square may land on (br, bc): on the board, empty, touching no own edge. */
  predicate CellAllowed(board: Grid, br: int, bc: int, player: Player)
    requires IsRect(board)
  {
    InBounds(board, br, bc) && board[br][bc] == EMPTY && !HasEdgeNeighbor(board, br, bc, player)
  }

  /** With its top-left corner at (row, col), the shape covers board square (br, bc). */
  predicate Covers(shape: Grid, row: int, col: int, br: int, bc: int)
  {
    Occupied(shape, br - row, bc - col)
  }

  /**
   * The rules of a placement with the shape's top-left corner at (row, col):
   * every covered square allowed, and the first piece covering the start
   * point or a later piece touching an own piece at a corner.
   */
  ghost predicate IsLegal(board: Grid, shape: Grid, row: int, col: int, player: Player, isFirstMove: bool)
    requires IsRect(board)
  {
    && AllAllowed(board, shape, row, col, player)
    && if isFirstMove then CoversStart(shape, row, col, player) else TouchesCorner(board, shape, row, col, player)
  }

  /** Every square the placement covers may take a piece square. */
  ghost predicate AllAllowed(board: Grid, shape: Grid, row: int, col: int, player: Player)
    requires IsRect(board)
  {
    forall br, bc :: Covers(shape, row, col, br, bc) ==> CellAllowed(board, br, bc, player)
  }

  /** The placement covers the player's start point. */
  ghost predicate CoversStart(shape: Grid, row: int, col: int, player: Player)
  {
    Covers(shape, row, col, StartPoint(player).0, StartPoint(player).1)
  }

  /** Some covered square touches an own square at a corner. */
  ghost predicate TouchesCorner(board: Grid, shape: Grid, row: int, col: int, player: Player)
    requires IsRect(board)
  {
    exists br, bc :: Covers(shape, row, col, br, bc) && HasCornerNeighbor(board, br, bc, player)
  }

  /** Shape cell (r', c') comes before (r, c) in row-major order. */
  predicate Before(r': int, c': int, r: int, c: int)
  {
    r' < r || (r' == r && c' < c)
  }

  /** Every covered square whose shape cell comes before (r, c) may be placed. */
  ghost predicate AllowedBefore(board: Grid, shape: Grid, row: int, col: int, player: Player, r: int, c: int)
    requires IsRect(board)
  {
    forall br, bc :: Covers(shape, row, col, br, bc) && Before(br - row, bc - col, r, c) ==>
      CellAllowed(board, br, bc, player)
  }

  /** Some shape cell before (r, c) lands on the start point. */
  ghost predicate CoversBefore(shape: Grid, row: int, col: int, player: Player, r: int, c: int)
  {
    var (sr, sc) := StartPoint(player);
    Covers(shape, row, col, sr, sc) && Before(sr - row, sc - col, r, c)
  }

  /** Some shape cell before (r, c) touches an own square at a corner. */
  ghost predicate TouchesBefore(board: Grid, shape: Grid, row: int, col: int, player: Player, r: int, c: int)
    requires IsRect(board)
  {
    exists br, bc :: Covers(shape, row, col, br, bc) && Before(br - row, bc - col, r, c) &&
      HasCornerNeighbor(board, br, bc, player)
  }

  /** The edge-neighbour loop of the placement check: does an own square share an edge with (r, c)? */
  method TouchesOwnEdge(board: Grid, r: int, c: int, player: Player) returns (contact: bool)
    requires IsRect(board)
    ensures contact == HasEdgeNeighbor(board, r, c, player)
  {
    for k := 0 to 4
      invariant forall k' :: 0 <= k' < k ==> !OwnedBy(board, r + ORTHOGONAL[k'].0, c + ORTHOGONAL[k'].1, player)
    {
      var (nr, nc) := (r + ORTHOGONAL[k].0, c + ORTHOGONAL[k].1);
      if 0 <= nr < |board| && 0 <= nc < |board[0]| && board[nr][nc] == player {
        assert OwnedBy(board, r + ORTHOGONAL[k].0, c + ORTHOGONAL[k].1, player);
        EdgeOffsets(board, r, c, player);
        return true;
      }
    }
    EdgeOffsets(board, r, c, player);
    return false;
  }

  /** The corner-neighbour loop of the placement check: does an own square touch (r, c) at a corner? */
  method TouchesOwnCorner(board: Grid, r: int, c: int, player: Player) returns (contact: bool)
    requires IsRect(board)
    ensures contact == HasCornerNeighbor(board, r, c, player)
  {
    contact := false;
    for k := 0 to 4
      invariant contact == CornerOwnedUpTo(board, r, c, player, k)
    {
      var (nr, nc) := (r + DIAGONAL[k].0, c + DIAGONAL[k].1);
      if 0 <= nr < |board| && 0 <= nc < |board[0]| && board[nr][nc] == player {
        contact := true;
      }
    }
    CornerOffsets(board, r, c, player);
  }

  method IsMoveValid(board: Grid, shape: Grid, row: int, col: int, player: Player, isFirstMove: bool)
    returns (valid: bool)
    requires IsRect(board)
    ensures valid == IsLegal(board, shape, row, col, player, isFirstMove)
  {
    var boardHeight := |board|;
    var boardWidth := |board[0]|;
    var touchesCorner := false;
    var coversStartPoint := false;

    for r := 0 to |shape|
      invariant AllowedBefore(board, shape, row, col, player, r, 0)
      invariant coversStartPoint == (isFirstMove && CoversBefore(shape, row, col, player, r, 0))
      invariant touchesCorner == (!isFirstMove && TouchesBefore(board, shape, row, col, player, r, 0))
    {
      for c := 0 to |shape[r]|
        invariant AllowedBefore(board, shape, row, col, player, r, c)
        invariant coversStartPoint == (isFirstMove && CoversBefore(shape, row, col, player, r, c))
        invariant touchesCorner == (!isFirstMove && TouchesBefore(board, shape, row, col, player, r, c))
      {
        if shape[r][c] == 1 {
          var boardRow := row + r;
          var boardCol := col + c;
          assert Occupied(shape, r, c);

          if boardRow < 0 || boardRow >= boardHeight || boardCol < 0 || boardCol >= boardWidth {
            assert !CellAllowed(board, boardRow, boardCol, player);
            return false;
          }

          if board[boardRow][boardCol] != EMPTY {
            assert !CellAllowed(board, boardRow, boardCol, player);
            return false;
          }

          var edgeContact := TouchesOwnEdge(board, boardRow, boardCol, player);
          if edgeContact {
            assert !CellAllowed(board, boardRow, boardCol, player);
            return false;
          }
          assert CellAllowed(board, boardRow, boardCol, player);

          if isFirstMove {
            var (startRow, startCol) := StartPoint(player);
            if boardRow == startRow && boardCol == startCol {
              coversStartPoint := true;
            }
          } else {
            var cornerContact := TouchesOwnCorner(board, boardRow, boardCol, player);
            if cornerContact {
              touchesCorner := true;
            }
          }
        }
        BeforeStep(board, shape, row, col, player, r, c);
      }
      BeforeNextRow(board, shape, row, col, player, r);
    }

    if isFirstMove {
      return coversStartPoint;
    }
    return touchesCorner;
  }

  /** One of the first `k` corner neighbours of (r, c) belongs to `player`. */
  ghost predicate CornerOwnedUpTo(board: Grid, r: int, c: int, player: Player, k: int)
    requires IsRect(board)
  {
    exists k' :: 0 <= k' < k && k' < 4 && OwnedBy(board, r + DIAGONAL[k'].0, c + DIAGONAL[k'].1, player)
  }

  /** Moving past cell (r, c) adds exactly that cell to the processed part. */
  lemma BeforeStep(board: Grid, shape: Grid, row: int, col: int, player: Player, r: int, c: int)
    requires IsRect(board)
    ensures AllowedBefore(board, shape, row, col, player, r, c + 1) <==>
      AllowedBefore(board, shape, row, col, player, r, c) &&
      (Occupied(shape, r, c) ==> CellAllowed(board, row + r, col + c, player))
    ensures CoversBefore(shape, row, col, player, r, c + 1) <==>
      CoversBefore(shape, row, col, player, r, c) ||
      (Occupied(shape, r, c) && (row + r, col + c) == StartPoint(player))
    ensures TouchesBefore(board, shape, row, col, player, r, c + 1) <==>
      TouchesBefore(board, shape, row, col, player, r, c) ||
      (Occupied(shape, r, c) && HasCornerNeighbor(board, row + r, col + c, player))
  {
  }

  /** Past the end of row r, the processed part is everything above row r + 1. */
  lemma BeforeNextRow(board: Grid, shape: Grid, row: int, col: int, player: Player, r: int)
    requires IsRect(board) && 0 <= r < |shape|
    ensures AllowedBefore(board, shape, row, col, player, r, |shape[r]|) <==>
      AllowedBefore(board, shape, row, col, player, r + 1, 0)
    ensures CoversBefore(shape, row, col, player, r, |shape[r]|) <==>
      CoversBefore(shape, row, col, player, r + 1, 0)
    ensures TouchesBefore(board, shape, row, col, player, r, |shape[r]|) <==>
      TouchesBefore(board, shape, row, col, player, r + 1, 0)
  {
  }

  /** The offset table lists exactly the four edge neighbours. */
  lemma EdgeOffsets(board: Grid, r: int, c: int, player: Player)
    requires IsRect(board)
    ensures HasEdgeNeighbor(board, r, c, player) <==>
      exists k :: 0 <= k < 4 && OwnedBy(board, r + ORTHOGONAL[k].0, c + ORTHOGONAL[k].1, player)
  {
    assert ORTHOGONAL[0] == (-1, 0) && ORTHOGONAL[1] == (1, 0);
    assert ORTHOGONAL[2] == (0, -1) && ORTHOGONAL[3] == (0, 1);
  }

  /** The offset table lists exactly the four corner neighbours. */
  lemma CornerOffsets(board: Grid, r: int, c: int, player: Player)
    requires IsRect(board)
    ensures HasCornerNeighbor(board, r, c, player) <==> CornerOwnedUpTo(board, r, c, player, 4)
  {
    assert DIAGONAL[0] == (-1, -1) && DIAGONAL[1] == (-1, 1);
    assert DIAGONAL[2] == (1, -1) && DIAGONAL[3] == (1, 1);
  }

  /** An occupied cell off the board or on a non-empty square rules the placement out. */
  lemma RejectsOffBoardOrOverlap(board: Grid, shape: Grid, row: int, col: int, player: Player, isFirstMove: bool,
                                 r: int, c: int)
    requires IsRect(board) && Occupied(shape, r, c)
    requires !InBounds(board, row + r, col + c) || board[row + r][col + c] != EMPTY
    ensures !IsLegal(board, shape, row, col, player, isFirstMove)
  {
    assert Covers(shape, row, col, row + r, col + c);
  }

  /**
   * An occupied cell with an own piece along an edge rules the placement out,
   * even when another cell of the shape touches an own piece at a corner.
   */
  lemma RejectsEdgeContact(board: Grid, shape: Grid, row: int, col: int, player: Player, isFirstMove: bool,
                           r: int, c: int)
    requires IsRect(board) && Occupied(shape, r, c)
    requires HasEdgeNeighbor(board, row + r, col + c, player)
    ensures !IsLegal(board, shape, row, col, player, isFirstMove)
  {
    assert Covers(shape, row, col, row + r, col + c);
  }

  /**
   * Once every occupied cell may be placed, a first placement is legal exactly
   * when it covers the start point, a later one exactly when it touches an own
   * piece at a corner.
   */
  lemma LegalOnceAllowed(board: Grid, shape: Grid, row: int, col: int, player: Player, isFirstMove: bool)
    requires IsRect(board)
    requires forall r, c :: Occupied(shape, r, c) ==> CellAllowed(board, row + r, col + c, player)
    ensures isFirstMove ==> (IsLegal(board, shape, row, col, player, isFirstMove) <==>
      exists r, c :: Occupied(shape, r, c) && row + r == StartPoint(player).0 && col + c == StartPoint(player).1)
    ensures !isFirstMove ==> (IsLegal(board, shape, row, col, player, isFirstMove) <==>
      exists r, c :: Occupied(shape, r, c) && HasCornerNeighbor(board, row + r, col + c, player))
  {
    forall br, bc | Covers(shape, row, col, br, bc)
      ensures CellAllowed(board, br, bc, player)
    {
      assert Occupied(shape, br - row, bc - col);
    }
    var (sr, sc) := StartPoint(player);
    if Covers(shape, row, col, sr, sc) {
      assert Occupied(shape, sr - row, sc - col);
    }
    if exists r, c :: Occupied(shape, r, c) && HasCornerNeighbor(board, row + r, col + c, player) {
      var r, c :| Occupied(shape, r, c) && HasCornerNeighbor(board, row + r, col + c, player);
      assert Covers(shape, row, col, row + r, col + c);
    }
    if TouchesCorner(board, shape, row, col, player) {
      var br, bc :| Covers(shape, row, col, br, bc) && HasCornerNeighbor(board, br, bc, player);
      assert Occupied(shape, br - row, bc - col) && HasCornerNeighbor(board, row + (br - row), col + (bc - col), player);
    }
  }

  /** A shape without occupied cells is never a legal placement. */
  lemma RejectsEmptyShape(board: Grid, shape: Grid, row: int, col: int, player: Player, isFirstMove: bool)
    requires IsRect(board)
    ensures IsLegal(board, shape, row, col, player, isFirstMove) ==> GridCount(shape, 1) > 0
  {
    if IsLegal(board, shape, row, col, player, isFirstMove) {
      var br, bc :| Covers(shape, row, col, br, bc);
      var r, c := br - row, bc - col;
      assert (r, c) in Cells(shape, 1);
      GridCountIsCard(shape, 1);
    }
  }

  // ---------------------------------------------------------------------
  // Existence of a legal move
  // ---------------------------------------------------------------------

  /** The mirror flag of pass `flipCount` of the search loops. */
  function FlipOf(flipCount: int): bool
  {
    flipCount == 1
  }

  /** The piece with the mirror flag and rotation the search loops assign it. */
  function Orient(p: Piece, flip: bool, k: int): Piece
  {
    p.(isFlipped := flip, rotation := k * 90)
  }

  lemma TurnsOfQuarter(k: int)
    requires 0 <= k < 4
    ensures (k * 90) % 90 == 0 && RotationCount(k * 90) == k && Turns(k * 90) == k
  {
    assert k == 0 || k == 1 || k == 2 || k == 3;
  }

  /** The shape of `p` mirrored if `flip` and turned `k` times, as the search loops compute it. */
  function OrientedShape(p: Piece, flip: bool, k: int): (shape: Grid)
    requires IsShape(p.baseShape) && 0 <= k < 4
    ensures IsShape(shape)
  {
    FlippedShape(p.baseShape);
    RotatedTimes(if flip then Flipped(p.baseShape) else p.baseShape, k)
  }

  /** The oriented shape is the one the transform computes for the oriented piece. */
  lemma OrientedShapeIsTransformed(p: Piece, flip: bool, k: int)
    requires IsShape(p.baseShape) && 0 <= k < 4
    ensures WellFormedPiece(Orient(p, flip, k))
    ensures OrientedShape(p, flip, k) == TransformedShape(Orient(p, flip, k))
  {
    TurnsOfQuarter(k);
    FlippedShape(p.baseShape);
  }

  /** The origins the search tries: every origin that leaves some cell of the shape's box on the board. */
  predicate InWindow(shape: Grid, r: int, c: int, height: int, width: int)
    requires |shape| > 0
  {
    -|shape| + 1 <= r < height && -|shape[0]| + 1 <= c < width
  }

  ghost predicate OrientationHasMove(board: Grid, shape: Grid, player: Player, isFirstMove: bool,
                                     height: int, width: int)
    requires IsRect(board) && |shape| > 0
  {
    exists r, c :: InWindow(shape, r, c, height, width) && IsLegal(board, shape, r, c, player, isFirstMove)
  }

  /** Some quarter turn of the piece, mirrored or not as `flip` says, has a legal origin. */
  ghost predicate FlipHasMove(board: Grid, piece: Piece, flip: bool, player: Player, isFirstMove: bool,
                              height: int, width: int)
    requires IsRect(board) && IsShape(piece.baseShape)
  {
    exists k :: 0 <= k < 4 &&
      OrientationHasMove(board, OrientedShape(piece, flip, k), player, isFirstMove, height, width)
  }

  /** Some orientation of the piece has a legal origin. */
  ghost predicate PieceHasMove(board: Grid, piece: Piece, player: Player, isFirstMove: bool,
                               height: int, width: int)
    requires IsRect(board) && IsShape(piece.baseShape)
  {
    FlipHasMove(board, piece, false, player, isFirstMove, height, width) ||
    FlipHasMove(board, piece, true, player, isFirstMove, height, width)
  }

  predicate AllShapes(pieces: seq<Piece>)
  {
    forall i :: 0 <= i < |pieces| ==> IsShape(pieces[i].baseShape)
  }

  /** Some piece, in some orientation, at some origin of the window, is a legal placement. */
  ghost predicate HasLegalPlacement(board: Grid, pieces: seq<Piece>, player: Player, isFirstMove: bool,
                                    height: int, width: int)
    requires IsRect(board) && AllShapes(pieces)
  {
    exists i :: 0 <= i < |pieces| && PieceHasMove(board, pieces[i], player, isFirstMove, height, width)
  }

  /**
   * The two innermost loops of the move search: every origin of the window,
   * row by row, stopping at the first legal one.
   */
  method SearchWindow(board: Grid, shape: Grid, player: Player, isFirstMove: bool,
                      boardHeight: int, boardWidth: int) returns (found: bool)
    requires IsRect(board) && IsShape(shape) && boardHeight >= 0 && boardWidth >= 0
    ensures found == OrientationHasMove(board, shape, player, isFirstMove, boardHeight, boardWidth)
  {
    var row := -|shape| + 1;
    while row < boardHeight
      invariant -|shape| + 1 <= row <= boardHeight
      invariant forall r, c :: r < row && InWindow(shape, r, c, boardHeight, boardWidth) ==>
        !IsLegal(board, shape, r, c, player, isFirstMove)
    {
      var col := -|shape[0]| + 1;
      while col < boardWidth
        invariant -|shape[0]| + 1 <= col <= boardWidth
        invariant forall r, c ::
          (r < row || (r == row && c < col)) && InWindow(shape, r, c, boardHeight, boardWidth) ==>
          !IsLegal(board, shape, r, c, player, isFirstMove)
      {
        var valid := IsMoveValid(board, shape, row, col, player, isFirstMove);
        if valid {
          assert InWindow(shape, row, col, boardHeight, boardWidth);
          return true;
        }
        col := col + 1;
      }
      row := row + 1;
    }
    return false;
  }

  /**
   * The body of the rotation loop of the move search: transform the oriented
   * piece, then scan the window for a legal origin.
   */
  method SearchOrientation(board: Grid, ghost piece: Piece, flippedPiece: Piece, finalPiece: Piece,
                           ghost flip: bool, rotationCount: int, player: Player, isFirstMove: bool,
                           boardHeight: int, boardWidth: int) returns (found: bool)
    requires IsRect(board) && IsShape(piece.baseShape) && 0 <= rotationCount < 4
    requires flippedPiece == piece.(isFlipped := flip)
    requires finalPiece == flippedPiece.(rotation := rotationCount * 90)
    requires boardHeight >= 0 && boardWidth >= 0
    ensures found == OrientationHasMove(board, OrientedShape(piece, flip, rotationCount), player, isFirstMove,
                                        boardHeight, boardWidth)
  {
    assert finalPiece == Orient(piece, flip, rotationCount);
    OrientedShapeIsTransformed(piece, flip, rotationCount);
    var shape := GetTransformedShape(finalPiece);
    found := SearchWindow(board, shape, player, isFirstMove, boardHeight, boardWidth);
  }

  /** The flip and rotation loops of the move search for one piece. */
  method SearchPiece(board: Grid, piece: Piece, player: Player, isFirstMove: bool,
                     boardHeight: int, boardWidth: int) returns (found: bool)
    requires IsRect(board) && IsShape(piece.baseShape) && boardHeight >= 0 && boardWidth >= 0
    ensures found == PieceHasMove(board, piece, player, isFirstMove, boardHeight, boardWidth)
  {
    for flipCount := 0 to 2
      invariant forall f :: 0 <= f < flipCount ==>
        !FlipHasMove(board, piece, FlipOf(f), player, isFirstMove, boardHeight, boardWidth)
    {
      var flippedPiece := piece.(isFlipped := FlipOf(flipCount));
      ghost var flip := FlipOf(flipCount);
      for rotationCount := 0 to 4
        invariant forall k :: 0 <= k < rotationCount ==>
          !OrientationHasMove(board, OrientedShape(piece, flip, k), player, isFirstMove, boardHeight, boardWidth)
      {
        var finalPiece := flippedPiece.(rotation := rotationCount * 90);
        var hasOrigin := SearchOrientation(board, piece, flippedPiece, finalPiece, flip, rotationCount,
                                           player, isFirstMove, boardHeight, boardWidth);
        if hasOrigin {
          assert FlipHasMove(board, piece, flip, player, isFirstMove, boardHeight, boardWidth);
          return true;
        }
      }
    }
    assert !FlipHasMove(board, piece, FlipOf(0), player, isFirstMove, boardHeight, boardWidth);
    assert !FlipHasMove(board, piece, FlipOf(1), player, isFirstMove, boardHeight, boardWidth);
    return false;
  }

  method PlayerHasValidMoves(player: Player, board: Grid, pieces: seq<Piece>) returns (found: bool)
    requires IsRect(board) && AllShapes(pieces)
    ensures found == HasLegalPlacement(board, pieces, player, |pieces| == 21, |board|, |board[0]|)
  {
    var boardHeight := |board|;
    var boardWidth := |board[0]|;
    var isFirstMove := |pieces| == 21;

    for i := 0 to |pieces|
      invariant forall i' :: 0 <= i' < i ==>
        !PieceHasMove(board, pieces[i'], player, isFirstMove, boardHeight, boardWidth)
    {
      found := SearchPiece(board, pieces[i], player, isFirstMove, boardHeight, boardWidth);
      if found {
        return true;
      }
    }
    return false;
  }
}
