/**
 * The computer opponent: move generation, move application, the static
 * evaluation and minimax search with alpha-beta pruning.
 *
 * Every loop of the game's TypeScript code is a method proved equal to a specification
 * function; soundness and completeness of generation, the frame of a move and
 * the agreement of alpha-beta with plain minimax are lemmas about those
 * functions (or, for the search, the method's own contract).
 */
module Ai {
  import opened Types
  import opened Grids
  import opened PieceUtils

  // ---------------------------------------------------------------------
  // States the search can run on
  // ---------------------------------------------------------------------

  /** Every piece of `pool` is a proper shape belonging to `owner`. */
  predicate PoolOwnedBy(pool: seq<Piece>, owner: Player)
  {
    AllShapes(pool) && forall i :: 0 <= i < |pool| ==> pool[i].player == owner
  }

  /**
   * What the game keeps true of every state it hands to the search: a
   * rectangular board, and each pool holding its own player's pieces.
   */
  predicate ValidState(s: GameState)
  {
    IsRect(s.board) && PoolOwnedBy(s.player1Pieces, 1) && PoolOwnedBy(s.player2Pieces, 2)
  }

  /** A player's first move is the one made with all 21 pieces still in the pool. */
  predicate IsFirstMove(pool: seq<Piece>)
  {
    |pool| == 21
  }

  // ---------------------------------------------------------------------
  // Evaluation
  // ---------------------------------------------------------------------

  /** The running score of `player` minus that of the opponent. */
  function Evaluate(state: GameState, player: Player): int
  {
    var opponent := Opponent(player);
    ScoreOf(state.scores, player) - ScoreOf(state.scores, opponent)
  }

  /** What is good for one player is equally bad for the other. */
  lemma EvaluateAntisymmetric(state: GameState)
    ensures Evaluate(state, 1) == -Evaluate(state, 2)
    ensures Evaluate(state, 1) == state.scores.player1 - state.scores.player2
  {
  }

  // ---------------------------------------------------------------------
  // Move generation: the candidates, in the order the loops visit them
  // ---------------------------------------------------------------------

  /** Rows of the piece's shape after `k` quarter turns (a mirror keeps the dimensions). */
  function OrientedHeight(p: Piece, k: int): int
    requires |p.baseShape| > 0
  {
    if k % 2 == 0 then |p.baseShape| else |p.baseShape[0]|
  }

  /** Columns of the piece's shape after `k` quarter turns. */
  function OrientedWidth(p: Piece, k: int): int
    requires |p.baseShape| > 0
  {
    if k % 2 == 0 then |p.baseShape[0]| else |p.baseShape|
  }

  /**
   * A loop of the generation nest, stopped partway: the column loop of one
   * origin row (columns `c0` up to `c`), the row loop of one oriented piece
   * (rows `r0` up to `r`, each over the columns from `c0` to the board's
   * edge), the rotation loop of one mirror pass (the first `k` turns), or the
   * loop over the pool (its first `n` pieces).
   */
  datatype Loop =
    | Cols(piece: Piece, row: int, c0: int, c: int)
    | Rows(piece: Piece, r0: int, r: int, c0: int)
    | Rotations(piece: Piece, flip: bool, k: int)
    | Pool(pieces: seq<Piece>, n: int)
  {
    /** How deep the loop is nested, innermost first. */
    function Depth(): nat
    {
      match this
      case Cols(_, _, _, _) => 0
      case Rows(_, _, _, _) => 1
      case Rotations(_, _, _) => 2
      case Pool(_, _) => 3
    }

    /** The iterations the loop has done. */
    function Done(): int
    {
      match this
      case Cols(_, _, c0, c) => c - c0
      case Rows(_, r0, r, _) => r - r0
      case Rotations(_, _, k) => k
      case Pool(_, n) => n
    }

    /** What the loop needs of its pieces: proper shapes, and no more pool pieces than there are. */
    predicate Valid()
    {
      match this
      case Cols(_, _, _, _) => true
      case Rows(_, _, _, _) => true
      case Rotations(piece, _, _) => |piece.baseShape| > 0
      case Pool(pieces, n) => AllShapes(pieces) && n <= |pieces|
    }
  }

  /** The candidate moves the loop `l` has visited so far, in visiting order. */
  function Candidates(l: Loop): seq<Move>
    requires l.Valid()
    decreases l.Depth(), l.Done()
  {
    match l
    case Cols(piece, row, c0, c) =>
      if c <= c0 then [] else Candidates(Cols(piece, row, c0, c - 1)) + [Move(piece, Position(row, c - 1))]
    case Rows(piece, r0, r, c0) =>
      if r <= r0 then [] else Candidates(Rows(piece, r0, r - 1, c0)) + Candidates(Cols(piece, r - 1, c0, BOARD_SIZE))
    case Rotations(piece, flip, k) =>
      if k <= 0 then []
      else Candidates(Rotations(piece, flip, k - 1)) + Candidates(Window(Orient(piece, flip, k - 1),
                                                                     OrientedHeight(piece, k - 1),
                                                                     OrientedWidth(piece, k - 1)))
    case Pool(pieces, n) =>
      if n <= 0 then []
      else Candidates(Pool(pieces, n - 1)) +
           Candidates(Rotations(pieces[n - 1], false, 4)) + Candidates(Rotations(pieces[n - 1], true, 4))
  }

  /**
   * The row loop over the whole window of a `height` × `width` shape on the
   * 14 × 14 board: every origin that leaves at least one cell of the shape's
   * bounding box on the board.
   */
  function Window(piece: Piece, height: int, width: int): Loop
  {
    Rows(piece, -height + 1, BOARD_SIZE, -width + 1)
  }

  /** The candidates of one pool piece: the four unmirrored turns, then the four mirrored ones. */
  function PieceCandidates(piece: Piece): seq<Move>
    requires |piece.baseShape| > 0
  {
    Candidates(Rotations(piece, false, 4)) + Candidates(Rotations(piece, true, 4))
  }

  // ---------------------------------------------------------------------
  // Move generation: keeping the legal candidates
  // ---------------------------------------------------------------------

  /** The placement check accepts the shape the move's own piece resolves to, at the move's origin. */
  ghost predicate MoveLegal(board: Grid, player: Player, isFirstMove: bool, m: Move)
    requires IsRect(board)
  {
    WellFormedPiece(m.piece) &&
    IsLegal(board, TransformedShape(m.piece), m.position.row, m.position.col, player, isFirstMove)
  }

  /** `acc` followed by the legal moves of `cands`, in order: what the loops push. */
  ghost function KeepLegal(acc: seq<Move>, board: Grid, player: Player, isFirstMove: bool,
                           cands: seq<Move>): seq<Move>
    requires IsRect(board)
    decreases |cands|
  {
    if |cands| == 0 then acc
    else
      var before := KeepLegal(acc, board, player, isFirstMove, cands[..|cands| - 1]);
      var m := cands[|cands| - 1];
      if MoveLegal(board, player, isFirstMove, m) then before + [m] else before
  }

  /** Every legal move of the player to move, in generation order. */
  ghost function AllMoves(s: GameState): seq<Move>
    requires ValidState(s)
  {
    var pool := PoolOf(s, s.currentPlayer);
    KeepLegal([], s.board, s.currentPlayer, IsFirstMove(pool), Candidates(Pool(pool, |pool|)))
  }

  /** Keeping the legal moves of `cands` exactly adds those of its members the check accepts. */
  lemma {:induction false} KeepLegalMember(acc: seq<Move>, board: Grid, player: Player, isFirstMove: bool,
                                           cands: seq<Move>, m: Move)
    requires IsRect(board)
    ensures m in KeepLegal(acc, board, player, isFirstMove, cands) <==>
      m in acc || (m in cands && MoveLegal(board, player, isFirstMove, m))
    decreases |cands|
  {
    if |cands| > 0 {
      var init := cands[..|cands| - 1];
      KeepLegalMember(acc, board, player, isFirstMove, init, m);
      assert cands == init + [cands[|cands| - 1]];
      assert m in cands <==> m in init || m == cands[|cands| - 1];
    }
  }

  /** Filtering two lists one after the other is filtering their concatenation. */
  lemma {:induction false} KeepLegalAppend(acc: seq<Move>, board: Grid, player: Player, isFirstMove: bool,
                                           a: seq<Move>, b: seq<Move>)
    requires IsRect(board)
    ensures KeepLegal(KeepLegal(acc, board, player, isFirstMove, a), board, player, isFirstMove, b) ==
            KeepLegal(acc, board, player, isFirstMove, a + b)
    decreases |b|
  {
    if |b| > 0 {
      var init := b[..|b| - 1];
      var last := b[|b| - 1];
      KeepLegalAppend(acc, board, player, isFirstMove, a, init);
      assert (a + b)[..|a + b| - 1] == a + init;
      assert (a + b)[|a + b| - 1] == last;
    } else {
      assert a + b == a;
    }
  }

  // ---------------------------------------------------------------------
  // Move generation: what a candidate is
  // ---------------------------------------------------------------------

  lemma {:induction false} ColsMember(piece: Piece, row: int, c0: int, c: int, m: Move)
    ensures m in Candidates(Cols(piece, row, c0, c)) <==>
      m.piece == piece && m.position.row == row && c0 <= m.position.col < c
    decreases c - c0
  {
    if c > c0 {
      ColsMember(piece, row, c0, c - 1, m);
    }
  }

  lemma {:induction false} RowsMember(piece: Piece, r0: int, r: int, c0: int, m: Move)
    ensures m in Candidates(Rows(piece, r0, r, c0)) <==>
      m.piece == piece && r0 <= m.position.row < r && c0 <= m.position.col < BOARD_SIZE
    decreases r - r0
  {
    if r > r0 {
      RowsMember(piece, r0, r - 1, c0, m);
      ColsMember(piece, r - 1, c0, BOARD_SIZE, m);
    }
  }

  /**
   * `m` places `piece`, mirrored or not, turned 0, 90, 180 or 270 degrees, at
   * an origin of the window of that orientation.
   */
  predicate Candidate(piece: Piece, m: Move)
    requires |piece.baseShape| > 0
  {
    var k := m.piece.rotation / 90;
    m.piece == Orient(piece, m.piece.isFlipped, k) && 0 <= k < 4 &&
    -OrientedHeight(piece, k) + 1 <= m.position.row < BOARD_SIZE &&
    -OrientedWidth(piece, k) + 1 <= m.position.col < BOARD_SIZE
  }

  lemma {:induction false} RotationsMember(piece: Piece, flip: bool, k: int, m: Move)
    requires |piece.baseShape| > 0 && k <= 4
    ensures m in Candidates(Rotations(piece, flip, k)) <==>
      Candidate(piece, m) && m.piece.isFlipped == flip && m.piece.rotation < 90 * k
    decreases k
  {
    if k > 0 {
      RotationsMember(piece, flip, k - 1, m);
      RowsMember(Orient(piece, flip, k - 1), -OrientedHeight(piece, k - 1) + 1, BOARD_SIZE,
                 -OrientedWidth(piece, k - 1) + 1, m);
    }
  }

  lemma PieceCandidatesMember(piece: Piece, m: Move)
    requires |piece.baseShape| > 0
    ensures m in PieceCandidates(piece) <==> Candidate(piece, m)
  {
    RotationsMember(piece, false, 4, m);
    RotationsMember(piece, true, 4, m);
  }

  lemma {:induction false} PoolMember(pieces: seq<Piece>, n: int, m: Move)
    requires AllShapes(pieces) && n <= |pieces|
    ensures m in Candidates(Pool(pieces, n)) <==>
      exists i {:trigger Candidate(pieces[i], m)} :: 0 <= i < n && Candidate(pieces[i], m)
    decreases n
  {
    if n > 0 {
      PoolMember(pieces, n - 1, m);
      PieceCandidatesMember(pieces[n - 1], m);
      assert Candidates(Pool(pieces, n)) == Candidates(Pool(pieces, n - 1)) + PieceCandidates(pieces[n - 1]);
      if Candidate(pieces[n - 1], m) {
        assert exists i :: 0 <= i < n && Candidate(pieces[i], m);
      }
    }
  }

  // ---------------------------------------------------------------------
  // Move generation: what a generated move is
  // ---------------------------------------------------------------------

  /**
   * Soundness and completeness of generation: a move is generated exactly
   * when it places some pool piece, unmirrored or mirrored, turned 0, 90, 180
   * or 270 degrees, at an origin of the window, and the placement check
   * accepts the shape that piece resolves to there (with "first move"
   * meaning a full pool).
   */
  lemma AllMovesMember(s: GameState, m: Move)
    requires ValidState(s)
    ensures m in AllMoves(s) <==>
      MoveLegal(s.board, s.currentPlayer, IsFirstMove(PoolOf(s, s.currentPlayer)), m) &&
      exists i {:trigger Candidate(PoolOf(s, s.currentPlayer)[i], m)} ::
        0 <= i < |PoolOf(s, s.currentPlayer)| && Candidate(PoolOf(s, s.currentPlayer)[i], m)
  {
    var pool := PoolOf(s, s.currentPlayer);
    KeepLegalMember([], s.board, s.currentPlayer, IsFirstMove(pool), Candidates(Pool(pool, |pool|)), m);
    PoolMember(pool, |pool|, m);
  }

  /** Dimensions of an oriented shape, read off the base shape. */
  lemma OrientedDims(p: Piece, flip: bool, k: int)
    requires IsShape(p.baseShape) && 0 <= k < 4
    ensures |OrientedShape(p, flip, k)| == OrientedHeight(p, k)
    ensures |OrientedShape(p, flip, k)[0]| == OrientedWidth(p, k)
  {
    FlippedShape(p.baseShape);
  }

  /** A candidate's piece is the piece turned and mirrored as the search loops do it. */
  lemma CandidateShape(piece: Piece, m: Move)
    requires IsShape(piece.baseShape) && Candidate(piece, m)
    ensures 0 <= m.piece.rotation / 90 < 4
    ensures WellFormedPiece(m.piece)
    ensures TransformedShape(m.piece) == OrientedShape(piece, m.piece.isFlipped, m.piece.rotation / 90)
    ensures InWindow(OrientedShape(piece, m.piece.isFlipped, m.piece.rotation / 90),
                     m.position.row, m.position.col, BOARD_SIZE, BOARD_SIZE)
  {
    var k := m.piece.rotation / 90;
    OrientedShapeIsTransformed(piece, m.piece.isFlipped, k);
    OrientedDims(piece, m.piece.isFlipped, k);
  }

  /**
   * Every generated move passes the placement check on the shape the move's
   * own piece resolves to, and that piece is a pool piece with a right-angle
   * rotation and its owner unchanged.
   */
  lemma GeneratedMoveIsLegal(s: GameState, m: Move)
    requires ValidState(s) && m in AllMoves(s)
    ensures WellFormedPiece(m.piece)
    ensures m.piece.rotation in {0, 90, 180, 270}
    ensures m.piece.player == s.currentPlayer
    ensures exists i :: (0 <= i < |PoolOf(s, s.currentPlayer)| &&
      m.piece == PoolOf(s, s.currentPlayer)[i].(isFlipped := m.piece.isFlipped, rotation := m.piece.rotation))
    ensures IsLegal(s.board, TransformedShape(m.piece), m.position.row, m.position.col, s.currentPlayer,
                    IsFirstMove(PoolOf(s, s.currentPlayer)))
  {
    var pool := PoolOf(s, s.currentPlayer);
    AllMovesMember(s, m);
    var i :| 0 <= i < |pool| && Candidate(pool[i], m);
    var k := m.piece.rotation / 90;
    assert k == 0 || k == 1 || k == 2 || k == 3;
  }

  /** A generated move witnesses the existence search's predicate. */
  lemma FoundMoveIsPlacement(board: Grid, pool: seq<Piece>, i: int, player: Player, isFirstMove: bool, m: Move)
    requires IsRect(board) && AllShapes(pool) && 0 <= i < |pool|
    requires Candidate(pool[i], m) && MoveLegal(board, player, isFirstMove, m)
    ensures HasLegalPlacement(board, pool, player, isFirstMove, BOARD_SIZE, BOARD_SIZE)
  {
    CandidateShape(pool[i], m);
    var flip, k := m.piece.isFlipped, m.piece.rotation / 90;
    assert OrientationHasMove(board, OrientedShape(pool[i], flip, k), player, isFirstMove, BOARD_SIZE, BOARD_SIZE);
    assert FlipHasMove(board, pool[i], flip, player, isFirstMove, BOARD_SIZE, BOARD_SIZE);
    assert PieceHasMove(board, pool[i], player, isFirstMove, BOARD_SIZE, BOARD_SIZE);
  }

  /** A legal origin of one orientation of `piece` is a legal candidate of `piece`. */
  lemma OrientationIsFound(board: Grid, piece: Piece, flip: bool, k: int, player: Player, isFirstMove: bool)
    returns (m: Move)
    requires IsRect(board) && IsShape(piece.baseShape) && 0 <= k < 4
    requires OrientationHasMove(board, OrientedShape(piece, flip, k), player, isFirstMove, BOARD_SIZE, BOARD_SIZE)
    ensures Candidate(piece, m) && MoveLegal(board, player, isFirstMove, m)
  {
    var shape := OrientedShape(piece, flip, k);
    var r, c :| InWindow(shape, r, c, BOARD_SIZE, BOARD_SIZE) && IsLegal(board, shape, r, c, player, isFirstMove);
    m := Move(Orient(piece, flip, k), Position(r, c));
    OrientedShapeIsTransformed(piece, flip, k);
    OrientedDims(piece, flip, k);
    assert m.piece.rotation / 90 == k;
  }

  /** A placement the existence search sees is a legal candidate of some pool piece. */
  lemma PlacementIsFound(board: Grid, pool: seq<Piece>, player: Player, isFirstMove: bool) returns (i: int, m: Move)
    requires IsRect(board) && AllShapes(pool)
    requires HasLegalPlacement(board, pool, player, isFirstMove, BOARD_SIZE, BOARD_SIZE)
    ensures 0 <= i < |pool| && Candidate(pool[i], m) && MoveLegal(board, player, isFirstMove, m)
  {
    i :| 0 <= i < |pool| && PieceHasMove(board, pool[i], player, isFirstMove, BOARD_SIZE, BOARD_SIZE);
    var flip := FlipHasMove(board, pool[i], true, player, isFirstMove, BOARD_SIZE, BOARD_SIZE);
    var k :| 0 <= k < 4 &&
      OrientationHasMove(board, OrientedShape(pool[i], flip, k), player, isFirstMove, BOARD_SIZE, BOARD_SIZE);
    m := OrientationIsFound(board, pool[i], flip, k, player, isFirstMove);
  }

  /**
   * On a 14 × 14 board generation finds nothing exactly when the move-existence
   * search reports that the player to move has no valid move.
   */
  lemma AllMovesEmptyIffNoPlacement(s: GameState)
    requires ValidState(s) && |s.board| == BOARD_SIZE && |s.board[0]| == BOARD_SIZE
    ensures AllMoves(s) == [] <==>
      !HasLegalPlacement(s.board, PoolOf(s, s.currentPlayer), s.currentPlayer,
                         IsFirstMove(PoolOf(s, s.currentPlayer)), |s.board|, |s.board[0]|)
  {
    var pool := PoolOf(s, s.currentPlayer);
    var p, first := s.currentPlayer, IsFirstMove(pool);
    if AllMoves(s) != [] {
      var m := AllMoves(s)[0];
      AllMovesMember(s, m);
      var i :| 0 <= i < |pool| && Candidate(pool[i], m);
      FoundMoveIsPlacement(s.board, pool, i, p, first, m);
    }
    if HasLegalPlacement(s.board, pool, p, first, BOARD_SIZE, BOARD_SIZE) {
      var i, m := PlacementIsFound(s.board, pool, p, first);
      AllMovesMember(s, m);
    }
  }

  // ---------------------------------------------------------------------
  // Move generation: the loops
  // ---------------------------------------------------------------------

  /** The column loop for one origin row, appending each legal move. */
  method GenerateRow(board: Grid, shape: Grid, finalPiece: Piece, player: Player, isFirstMove: bool,
                     row: int, moves0: seq<Move>) returns (moves: seq<Move>)
    requires IsRect(board) && IsShape(shape)
    requires WellFormedPiece(finalPiece) && shape == TransformedShape(finalPiece)
    ensures moves == KeepLegal(moves0, board, player, isFirstMove,
                               Candidates(Cols(finalPiece, row, -|shape[0]| + 1, BOARD_SIZE)))
  {
    moves := moves0;
    var c0 := -|shape[0]| + 1;
    var col := c0;
    while col < BOARD_SIZE
      invariant c0 <= col <= BOARD_SIZE
      invariant moves == KeepLegal(moves0, board, player, isFirstMove, Candidates(Cols(finalPiece, row, c0, col)))
    {
      var valid := IsMoveValid(board, shape, row, col, player, isFirstMove);
      ghost var cands := Candidates(Cols(finalPiece, row, c0, col + 1));
      assert cands[..|cands| - 1] == Candidates(Cols(finalPiece, row, c0, col));
      if valid {
        var move := Move(finalPiece, Position(row, col));
        moves := moves + [move];
      }
      col := col + 1;
    }
  }

  /** The origin loops for one oriented piece, appending each legal move. */
  method GenerateWindow(board: Grid, shape: Grid, finalPiece: Piece, player: Player, isFirstMove: bool,
                        moves0: seq<Move>) returns (moves: seq<Move>)
    requires IsRect(board) && IsShape(shape)
    requires WellFormedPiece(finalPiece) && shape == TransformedShape(finalPiece)
    ensures moves == KeepLegal(moves0, board, player, isFirstMove,
                               Candidates(Window(finalPiece, |shape|, |shape[0]|)))
  {
    moves := moves0;
    var r0, c0 := -|shape| + 1, -|shape[0]| + 1;
    var row := r0;
    while row < BOARD_SIZE
      invariant r0 <= row <= BOARD_SIZE
      invariant moves == KeepLegal(moves0, board, player, isFirstMove,
                                   Candidates(Rows(finalPiece, r0, row, c0)))
    {
      moves := GenerateRow(board, shape, finalPiece, player, isFirstMove, row, moves);
      KeepLegalAppend(moves0, board, player, isFirstMove, Candidates(Rows(finalPiece, r0, row, c0)),
                      Candidates(Cols(finalPiece, row, c0, BOARD_SIZE)));
      row := row + 1;
    }
  }

  /** The flip and rotation loops for one pool piece. */
  method GeneratePiece(board: Grid, piece: Piece, player: Player, isFirstMove: bool, moves0: seq<Move>)
    returns (moves: seq<Move>)
    requires IsRect(board) && IsShape(piece.baseShape)
    ensures moves == KeepLegal(moves0, board, player, isFirstMove, PieceCandidates(piece))
  {
    moves := moves0;
    for flipCount := 0 to 2
      invariant flipCount == 1 ==>
        moves == KeepLegal(moves0, board, player, isFirstMove, Candidates(Rotations(piece, false, 4)))
      invariant flipCount == 2 ==> moves == KeepLegal(moves0, board, player, isFirstMove, PieceCandidates(piece))
      invariant flipCount == 0 ==> moves == moves0
    {
      var flippedPiece := piece.(isFlipped := flipCount == 1);
      ghost var flip := FlipOf(flipCount);
      ghost var before := moves;
      for rotationCount := 0 to 4
        invariant moves == KeepLegal(before, board, player, isFirstMove, Candidates(Rotations(piece, flip, rotationCount)))
      {
        var finalPiece := flippedPiece.(rotation := rotationCount * 90);
        assert finalPiece == Orient(piece, flip, rotationCount);
        OrientedShapeIsTransformed(piece, flip, rotationCount);
        OrientedDims(piece, flip, rotationCount);
        var shape := GetTransformedShape(finalPiece);
        assert Window(finalPiece, |shape|, |shape[0]|) ==
               Window(Orient(piece, flip, rotationCount), OrientedHeight(piece, rotationCount),
                      OrientedWidth(piece, rotationCount));
        moves := GenerateWindow(board, shape, finalPiece, player, isFirstMove, moves);
        KeepLegalAppend(before, board, player, isFirstMove, Candidates(Rotations(piece, flip, rotationCount)),
                        Candidates(Window(finalPiece, |shape|, |shape[0]|)));
      }
      if flipCount == 1 {
        KeepLegalAppend(moves0, board, player, isFirstMove, Candidates(Rotations(piece, false, 4)),
                        Candidates(Rotations(piece, true, 4)));
      }
    }
  }

  /** Keeping the legal moves of one more pool piece extends those of the pieces before it. */
  lemma KeepPoolStep(board: Grid, player: Player, isFirstMove: bool, pieces: seq<Piece>, i: int)
    requires IsRect(board) && AllShapes(pieces) && 0 <= i < |pieces|
    ensures KeepLegal(KeepLegal([], board, player, isFirstMove, Candidates(Pool(pieces, i))),
                      board, player, isFirstMove, PieceCandidates(pieces[i])) ==
            KeepLegal([], board, player, isFirstMove, Candidates(Pool(pieces, i + 1)))
  {
    KeepLegalAppend([], board, player, isFirstMove, Candidates(Pool(pieces, i)), PieceCandidates(pieces[i]));
    assert Candidates(Pool(pieces, i + 1)) == Candidates(Pool(pieces, i)) + PieceCandidates(pieces[i]);
  }

  /** Every legal move of the player to move, in the order of the nested loops. */
  method GenerateMoves(state: GameState) returns (moves: seq<Move>)
    requires ValidState(state)
    ensures moves == AllMoves(state)
  {
    moves := [];
    var player := state.currentPlayer;
    var pieces := if player == 1 then state.player1Pieces else state.player2Pieces;
    var isFirstMove := |pieces| == 21;

    for i := 0 to |pieces|
      invariant moves == KeepLegal([], state.board, player, isFirstMove, Candidates(Pool(pieces, i)))
    {
      moves := GeneratePiece(state.board, pieces[i], player, isFirstMove, moves);
      KeepPoolStep(state.board, player, isFirstMove, pieces, i);
    }
  }

  // ---------------------------------------------------------------------
  // Applying a move
  // ---------------------------------------------------------------------

  /**
   * The board with `v` written on every square the shape covers from origin
   * (row, col) that exists on the board; covered squares off the board are
   * skipped.
   */
  function Stamp(board: Grid, shape: Grid, row: int, col: int, v: int): (b: Grid)
    ensures |b| == |board| && forall i :: 0 <= i < |b| ==> |b[i]| == |board[i]|
  {
    seq(|board|, i requires 0 <= i < |board| =>
      seq(|board[i]|, j requires 0 <= j < |board[i]| => if Covers(shape, row, col, i, j) then v else board[i][j]))
  }

  /** The pool without the pieces carrying identifier `id`, the others in their order. */
  function Without(pool: seq<Piece>, id: string): (r: seq<Piece>)
    ensures |r| <= |pool|
  {
    if |pool| == 0 then []
    else if pool[0].id == id then Without(pool[1..], id)
    else [pool[0]] + Without(pool[1..], id)
  }

  /**
   * Removal keeps exactly the pieces with another identifier, and shrinks the
   * pool exactly when some piece carries the identifier.
   */
  lemma {:induction false} WithoutMembers(pool: seq<Piece>, id: string)
    ensures forall p :: p in Without(pool, id) <==> p in pool && p.id != id
    ensures |Without(pool, id)| < |pool| <==> exists i :: 0 <= i < |pool| && pool[i].id == id
  {
    if |pool| > 0 {
      WithoutMembers(pool[1..], id);
      if pool[0].id != id {
        assert [pool[0]] + Without(pool[1..], id) == Without(pool, id);
      }
      assert forall i :: 1 <= i < |pool| ==> pool[i] == pool[1..][i - 1];
    }
  }

  /**
   * The state after `m`: the piece stamped onto the board in its owner's
   * value, every piece with its identifier gone from its owner's pool, the
   * owner's last placed piece recorded, the scores recounted on the board as
   * it was before the move, and the turn passed to the other player.
   */
  function Applied(s: GameState, m: Move): GameState
    requires WellFormedPiece(m.piece)
  {
    var p := m.piece.player;
    var id := m.piece.id;
    s.(board := Stamp(s.board, TransformedShape(m.piece), m.position.row, m.position.col, p),
       player1Pieces := if p == 1 then Without(s.player1Pieces, id) else s.player1Pieces,
       player2Pieces := if p == 2 then Without(s.player2Pieces, id) else s.player2Pieces,
       lastPiecePlaced := if p == 1 then s.lastPiecePlaced.(player1 := Some(id))
                          else s.lastPiecePlaced.(player2 := Some(id)),
       scores := Scores(GridCount(s.board, 1), GridCount(s.board, 2)),
       currentPlayer := Opponent(p))
  }

  /** The stamping loops of the move: write `v` on every covered square that exists on the board. */
  method StampShape(board0: Grid, shape: Grid, row: int, col: int, v: int) returns (board: Grid)
    ensures board == Stamp(board0, shape, row, col, v)
  {
    board := board0;
    for r := 0 to |shape|
      invariant |board| == |board0| && forall i :: 0 <= i < |board| ==> |board[i]| == |board0[i]|
      invariant forall i, j :: 0 <= i < |board| && 0 <= j < |board[i]| ==>
        board[i][j] == if Covers(shape, row, col, i, j) && i - row < r then v else board0[i][j]
    {
      for c := 0 to |shape[r]|
        invariant |board| == |board0| && forall i :: 0 <= i < |board| ==> |board[i]| == |board0[i]|
        invariant forall i, j :: 0 <= i < |board| && 0 <= j < |board[i]| ==>
          board[i][j] == if Covers(shape, row, col, i, j) && Before(i - row, j - col, r, c) then v else board0[i][j]
      {
        if shape[r][c] == 1 {
          var boardRow := row + r;
          var boardCol := col + c;
          if 0 <= boardRow < |board| && 0 <= boardCol < |board[boardRow]| {
            board := board[boardRow := board[boardRow][boardCol := v]];
          }
        }
      }
    }
    ghost var stamped := Stamp(board0, shape, row, col, v);
    forall i | 0 <= i < |board|
      ensures board[i] == stamped[i]
    {
    }
  }

  method ApplyMove(state: GameState, move: Move) returns (newState: GameState)
    requires WellFormedPiece(move.piece)
    ensures newState == Applied(state, move)
  {
    newState := state;
    var piece, position := move.piece, move.position;
    var shape := GetTransformedShape(piece);
    var board := StampShape(newState.board, shape, position.row, position.col, piece.player);
    newState := newState.(board := board);

    if piece.player == 1 {
      newState := newState.(player1Pieces := Without(newState.player1Pieces, piece.id));
      newState := newState.(lastPiecePlaced := newState.lastPiecePlaced.(player1 := Some(piece.id)));
    } else {
      newState := newState.(player2Pieces := Without(newState.player2Pieces, piece.id));
      newState := newState.(lastPiecePlaced := newState.lastPiecePlaced.(player2 := Some(piece.id)));
    }

    var score1 := CalculatePlacedScore(state.board, 1);
    var score2 := CalculatePlacedScore(state.board, 2);
    newState := newState.(scores := Scores(score1, score2));
    newState := newState.(currentPlayer := if piece.player == 1 then 2 else 1);
  }

  /** Stamping writes `v` on exactly the covered squares of the board and leaves every other square as it was. */
  lemma StampAt(board: Grid, shape: Grid, row: int, col: int, v: int)
    ensures IsRect(board) ==> IsRect(Stamp(board, shape, row, col, v))
    ensures forall i, j :: 0 <= i < |board| && 0 <= j < |board[i]| && Covers(shape, row, col, i, j) ==>
      Stamp(board, shape, row, col, v)[i][j] == v
    ensures forall i, j :: 0 <= i < |board| && 0 <= j < |board[i]| && !Covers(shape, row, col, i, j) ==>
      Stamp(board, shape, row, col, v)[i][j] == board[i][j]
  {
  }

  /** The squares a placement covers, as board coordinates. */
  function Placed(shape: Grid, row: int, col: int): set<(int, int)>
  {
    Image(Cells(shape, 1), (x: (int, int)) => (x.0 + row, x.1 + col))
  }

  /** A placement covers as many squares as its shape has occupied cells. */
  lemma PlacedCard(shape: Grid, row: int, col: int)
    ensures |Placed(shape, row, col)| == GridCount(shape, 1)
  {
    InjectiveImageCard(Cells(shape, 1), (x: (int, int)) => (x.0 + row, x.1 + col));
    GridCountIsCard(shape, 1);
  }

  /**
   * After stamping a placement whose squares may all take a piece square, the
   * player's squares are its former squares plus the covered ones, which were
   * empty before.
   */
  lemma StampOwnCells(board: Grid, shape: Grid, row: int, col: int, p: Player)
    requires IsRect(board) && AllAllowed(board, shape, row, col, p)
    ensures Cells(Stamp(board, shape, row, col, p), p) == Cells(board, p) + Placed(shape, row, col)
    ensures Cells(board, p) * Placed(shape, row, col) == {}
  {
    var b := Stamp(board, shape, row, col, p);
    var f := (x: (int, int)) => (x.0 + row, x.1 + col);
    forall x | x in Placed(shape, row, col)
      ensures x in Cells(b, p) && x !in Cells(board, p)
    {
      var y :| y in Cells(shape, 1) && f(y) == x;
      assert Covers(shape, row, col, x.0, x.1);
      assert CellAllowed(board, x.0, x.1, p);
    }
    forall x | x in Cells(b, p)
      ensures x in Cells(board, p) || x in Placed(shape, row, col)
    {
      if Covers(shape, row, col, x.0, x.1) {
        assert f((x.0 - row, x.1 - col)) == x;
      }
    }
  }

  /**
   * Stamping a placement whose squares may all take a piece square adds the
   * shape's occupied cells to the player's count.
   */
  lemma StampOwnCount(board: Grid, shape: Grid, row: int, col: int, p: Player)
    requires IsRect(board) && AllAllowed(board, shape, row, col, p)
    ensures GridCount(Stamp(board, shape, row, col, p), p) == GridCount(board, p) + GridCount(shape, 1)
  {
    StampOwnCells(board, shape, row, col, p);
    PlacedCard(shape, row, col);
    GridCountIsCard(Stamp(board, shape, row, col, p), p);
    GridCountIsCard(board, p);
  }

  /** Such a stamp leaves the count of every other non-empty value alone. */
  lemma StampOtherCount(board: Grid, shape: Grid, row: int, col: int, p: Player, q: int)
    requires IsRect(board) && AllAllowed(board, shape, row, col, p) && q != p && q != EMPTY
    ensures GridCount(Stamp(board, shape, row, col, p), q) == GridCount(board, q)
  {
    var b := Stamp(board, shape, row, col, p);
    forall x | x in Cells(board, q)
      ensures x in Cells(b, q)
    {
      if Covers(shape, row, col, x.0, x.1) {
        assert CellAllowed(board, x.0, x.1, p);
      }
    }
    assert Cells(b, q) == Cells(board, q);
    GridCountIsCard(b, q);
    GridCountIsCard(board, q);
  }

  /**
   * Frame of a move: the board changes on the covered squares only, which
   * take the mover's value; the mover's pool loses exactly the pieces with
   * the placed identifier; the other pool, the other player's last piece and
   * the game-over flag are untouched; the turn passes to the other player.
   */
  lemma AppliedFrame(s: GameState, m: Move)
    requires WellFormedPiece(m.piece)
    ensures var t, p, shape := Applied(s, m), m.piece.player, TransformedShape(m.piece);
      && |t.board| == |s.board|
      && (forall i :: 0 <= i < |s.board| ==> |t.board[i]| == |s.board[i]|)
      && (forall i, j :: 0 <= i < |s.board| && 0 <= j < |s.board[i]| ==>
            t.board[i][j] == if Covers(shape, m.position.row, m.position.col, i, j) then p else s.board[i][j])
      && (forall x :: x in PoolOf(t, p) <==> x in PoolOf(s, p) && x.id != m.piece.id)
      && PoolOf(t, Opponent(p)) == PoolOf(s, Opponent(p))
      && (if p == 1 then t.lastPiecePlaced.player1 == Some(m.piece.id) &&
                         t.lastPiecePlaced.player2 == s.lastPiecePlaced.player2
          else t.lastPiecePlaced.player2 == Some(m.piece.id) &&
               t.lastPiecePlaced.player1 == s.lastPiecePlaced.player1)
      && t.currentPlayer == Opponent(p) && t.gameOver == s.gameOver
  {
    StampAt(s.board, TransformedShape(m.piece), m.position.row, m.position.col, m.piece.player);
    WithoutMembers(PoolOf(s, m.piece.player), m.piece.id);
  }

  /**
   * The scores a move records are counted on the board before the move: after
   * a generated move the mover's recorded score falls short of its squares on
   * the new board by exactly the size of the piece just placed, while the
   * other player's recorded score matches the board.
   */
  lemma ScoresLag(s: GameState, m: Move)
    requires ValidState(s) && m in AllMoves(s)
    ensures WellFormedPiece(m.piece)
    ensures Applied(s, m).scores == Scores(|Cells(s.board, 1)|, |Cells(s.board, 2)|)
    ensures var t, p := Applied(s, m), s.currentPlayer;
      && GridCount(t.board, p) == ScoreOf(t.scores, p) + GridCount(TransformedShape(m.piece), 1)
      && GridCount(t.board, Opponent(p)) == ScoreOf(t.scores, Opponent(p))
  {
    GeneratedMoveIsLegal(s, m);
    var p := s.currentPlayer;
    StampOwnCount(s.board, TransformedShape(m.piece), m.position.row, m.position.col, p);
    StampOtherCount(s.board, TransformedShape(m.piece), m.position.row, m.position.col, p, Opponent(p));
    GridCountIsCard(s.board, 1);
    GridCountIsCard(s.board, 2);
  }

  /**
   * A generated move leads to a state the search can run on, with one piece
   * fewer at least: the placed piece comes from the mover's pool.
   */
  lemma AppliedValid(s: GameState, m: Move)
    requires ValidState(s) && m in AllMoves(s)
    ensures WellFormedPiece(m.piece)
    ensures ValidState(Applied(s, m))
    ensures PoolSize(Applied(s, m)) < PoolSize(s)
  {
    GeneratedMoveIsLegal(s, m);
    var t, p := Applied(s, m), s.currentPlayer;
    StampAt(s.board, TransformedShape(m.piece), m.position.row, m.position.col, p);
    var pool := PoolOf(s, p);
    var i :| 0 <= i < |pool| &&
      m.piece == pool[i].(isFlipped := m.piece.isFlipped, rotation := m.piece.rotation);
    assert pool[i].id == m.piece.id;
    WithoutMembers(pool, m.piece.id);
    var rest := PoolOf(t, p);
    forall j | 0 <= j < |rest|
      ensures IsShape(rest[j].baseShape) && rest[j].player == p
    {
      assert rest[j] in rest;
    }
  }

  // ---------------------------------------------------------------------
  // Search
  // ---------------------------------------------------------------------

  /** Integers extended with the two infinities the search starts its bounds at. */
  datatype ExtInt = NegInf | Fin(v: int) | PosInf

  predicate Le(a: ExtInt, b: ExtInt)
  {
    a.NegInf? || b.PosInf? || (a.Fin? && b.Fin? && a.v <= b.v)
  }

  predicate Lt(a: ExtInt, b: ExtInt)
  {
    !Le(b, a)
  }

  function Max(a: ExtInt, b: ExtInt): (r: ExtInt)
    ensures Le(a, r) && Le(b, r) && (r == a || r == b)
  {
    if Le(a, b) then b else a
  }

  function Min(a: ExtInt, b: ExtInt): (r: ExtInt)
    ensures Le(r, a) && Le(r, b) && (r == a || r == b)
  {
    if Le(a, b) then a else b
  }

  /** Every generated move of `s` leads to a state the search can run on, with fewer pieces. */
  lemma AllAppliedValid(s: GameState)
    requires ValidState(s)
    ensures forall m :: m in AllMoves(s) ==>
      WellFormedPiece(m.piece) && ValidState(Applied(s, m)) && PoolSize(Applied(s, m)) < PoolSize(s)
  {
    forall m | m in AllMoves(s)
      ensures WellFormedPiece(m.piece) && ValidState(Applied(s, m)) && PoolSize(Applied(s, m)) < PoolSize(s)
    {
      AppliedValid(s, m);
    }
  }

  /** Every state of `cs` is one the search can run on, with fewer pieces than `s`. */
  predicate Smaller(s: GameState, cs: seq<GameState>)
  {
    forall j :: 0 <= j < |cs| ==> ValidState(cs[j]) && PoolSize(cs[j]) < PoolSize(s)
  }

  /** `cs` lists, in order, the states the moves `moves` lead to from `s`. */
  ghost predicate ChildrenOf(s: GameState, moves: seq<Move>, cs: seq<GameState>)
  {
    && |cs| == |moves|
    && (forall j :: 0 <= j < |moves| ==> WellFormedPiece(moves[j].piece))
    && (forall j {:trigger Applied(s, moves[j])} ::
          0 <= j < |moves| && WellFormedPiece(moves[j].piece) ==> cs[j] == Applied(s, moves[j]))
    && Smaller(s, cs)
  }

  /**
   * The states the generated moves of `s` lead to, in generation order: each
   * is one the search can run on and holds fewer pieces than `s`.
   */
  ghost function Children(s: GameState): (cs: seq<GameState>)
    requires ValidState(s)
    ensures ChildrenOf(s, AllMoves(s), cs)
  {
    AllAppliedValid(s);
    var moves := AllMoves(s);
    seq(|moves|, i requires 0 <= i < |moves| => Applied(s, moves[i]))
  }

  /**
   * The minimax values of the first `k` of the states `cs`, children of `s`,
   * where the opponent of the side to move in `s` chooses next.
   */
  ghost function ChildValues(s: GameState, cs: seq<GameState>, k: int, depth: int, maximizing: bool,
                             aiPlayer: Player): (vals: seq<int>)
    requires 0 <= k <= |cs| && Smaller(s, cs)
    ensures |vals| == k
    decreases PoolSize(s), 0, k
  {
    if k == 0 then []
    else ChildValues(s, cs, k - 1, depth, maximizing, aiPlayer) + [ChildValue(s, cs, k - 1, depth, maximizing, aiPlayer)]
  }

  /** The minimax value of the `j`-th child, where the other side chooses next. */
  ghost function ChildValue(s: GameState, cs: seq<GameState>, j: int, depth: int, maximizing: bool,
                            aiPlayer: Player): int
    requires 0 <= j < |cs| && Smaller(s, cs)
    decreases PoolSize(s), 0, 0
  {
    MinimaxValue(cs[j], depth - 1, !maximizing, aiPlayer)
  }

  /**
   * The largest of `vals` for the maximizing side, the smallest for the
   * minimizing one: a value of the list that bounds all the others.
   */
  function Best(vals: seq<int>, maximizing: bool): (b: int)
    requires |vals| > 0
    ensures b in vals
    ensures forall j :: 0 <= j < |vals| ==> if maximizing then vals[j] <= b else b <= vals[j]
  {
    var v := vals[|vals| - 1];
    if |vals| == 1 then v
    else
      var b := Best(vals[..|vals| - 1], maximizing);
      if maximizing then (if v > b then v else b) else (if v < b then v else b)
  }

  /**
   * Plain minimax over the tree of generated moves: the evaluation for
   * `aiPlayer` at depth 0, at a finished game and where the side to move has
   * no move, and otherwise the best child value for the side to move.
   */
  ghost function MinimaxValue(s: GameState, depth: int, maximizing: bool, aiPlayer: Player): int
    requires ValidState(s)
    decreases PoolSize(s), 1
  {
    if depth == 0 || s.gameOver || |AllMoves(s)| == 0 then Evaluate(s, aiPlayer)
    else
      var cs := Children(s);
      Best(ChildValues(s, cs, |cs|, depth, maximizing, aiPlayer), maximizing)
  }

  /**
   * What fail-soft alpha-beta promises of its result `f` for a node of true
   * value `v` searched with the window (`alpha`, `beta`): a value at or below
   * the window is reported as a bound at or below `alpha` that is no smaller
   * than `v`; a value inside the window exactly; a value at or above the
   * window as a bound at or above `beta` that is no larger than `v`.
   */
  predicate FailSoft(f: int, v: int, alpha: ExtInt, beta: ExtInt)
  {
    && (Le(Fin(v), alpha) ==> v <= f && Le(Fin(f), alpha))
    && (Lt(alpha, Fin(v)) && Lt(Fin(v), beta) ==> f == v)
    && (Le(beta, Fin(v)) ==> f <= v && Le(beta, Fin(f)))
  }

  /** With the full window the fail-soft result is the minimax value itself. */
  lemma FullWindowExact(f: int, v: int)
    requires FailSoft(f, v, NegInf, PosInf)
    ensures f == v
  {
  }

  /** The `j`-th of the listed child values is the value of the `j`-th child. */
  lemma {:induction false} ChildValuesAt(s: GameState, cs: seq<GameState>, k: int, j: int, depth: int,
                                         maximizing: bool, aiPlayer: Player)
    requires 0 <= j < k <= |cs| && Smaller(s, cs)
    ensures ChildValues(s, cs, k, depth, maximizing, aiPlayer)[j] == ChildValue(s, cs, j, depth, maximizing, aiPlayer)
    decreases k
  {
    if j < k - 1 {
      ChildValuesAt(s, cs, k - 1, j, depth, maximizing, aiPlayer);
    }
  }

  /**
   * What the maximizing loop keeps after the children with values `done`:
   * `maxEval` is no smaller than their best value, and agrees with it once
   * both are raised to `alpha`.
   */
  predicate MaxSoFar(alpha: ExtInt, maxEval: ExtInt, done: seq<int>)
  {
    if |done| == 0 then maxEval == NegInf
    else maxEval.Fin? && maxEval.v >= Best(done, true) && Max(maxEval, alpha) == Max(Fin(Best(done, true)), alpha)
  }

  /** The minimizing loop's counterpart of `MaxSoFar`, with `beta`. */
  predicate MinSoFar(beta: ExtInt, minEval: ExtInt, done: seq<int>)
  {
    if |done| == 0 then minEval == PosInf
    else minEval.Fin? && minEval.v <= Best(done, false) && Min(minEval, beta) == Min(Fin(Best(done, false)), beta)
  }

  /** The best of the first `i` + 1 values, from the best of the first `i`. */
  lemma BestOfPrefix(vals: seq<int>, i: int, maximizing: bool)
    requires 0 <= i < |vals|
    ensures Best(vals[..i + 1], maximizing) ==
      if i == 0 then vals[0]
      else
        var b := Best(vals[..i], maximizing);
        if maximizing then (if vals[i] > b then vals[i] else b) else (if vals[i] < b then vals[i] else b)
  {
    var next := vals[..i + 1];
    assert next[..|next| - 1] == vals[..i];
  }

  /**
   * One iteration of the maximizing loop over children of values `vals`: the
   * `i`-th child, searched with `alpha` raised by `maxEval`, reported `f`.
   * Either the invariant holds one child further on, or the loop stops, a
   * cut-off, and `f` is a fail-soft result for the node: the child is worth
   * at least `f`, which reaches `beta`, so the node is too.
   */
  lemma MaxStep(vals: seq<int>, i: int, alpha: ExtInt, beta: ExtInt, maxEval: ExtInt, f: int)
    requires 0 <= i < |vals|
    requires MaxSoFar(alpha, maxEval, vals[..i]) && Lt(Max(alpha, maxEval), beta)
    requires FailSoft(f, vals[i], Max(alpha, maxEval), beta)
    ensures Max(Max(alpha, maxEval), Fin(f)) == Max(alpha, Max(maxEval, Fin(f)))
    ensures Lt(Max(alpha, Max(maxEval, Fin(f))), beta) ==> MaxSoFar(alpha, Max(maxEval, Fin(f)), vals[..i + 1])
    ensures Le(beta, Max(alpha, Max(maxEval, Fin(f)))) ==>
      Max(maxEval, Fin(f)) == Fin(f) && FailSoft(f, Best(vals, true), alpha, beta)
  {
    BestOfPrefix(vals, i, true);
  }

  /** The minimizing loop's counterpart of `MaxStep`. */
  lemma MinStep(vals: seq<int>, i: int, alpha: ExtInt, beta: ExtInt, minEval: ExtInt, f: int)
    requires 0 <= i < |vals|
    requires MinSoFar(beta, minEval, vals[..i]) && Lt(alpha, Min(beta, minEval))
    requires FailSoft(f, vals[i], alpha, Min(beta, minEval))
    ensures Min(Min(beta, minEval), Fin(f)) == Min(beta, Min(minEval, Fin(f)))
    ensures Lt(alpha, Min(beta, Min(minEval, Fin(f)))) ==> MinSoFar(beta, Min(minEval, Fin(f)), vals[..i + 1])
    ensures Le(Min(beta, Min(minEval, Fin(f))), alpha) ==>
      Min(minEval, Fin(f)) == Fin(f) && FailSoft(f, Best(vals, false), alpha, beta)
  {
    BestOfPrefix(vals, i, false);
  }

  /** A maximizing loop that went through every child without a cut-off returns a fail-soft value. */
  lemma MaxDone(vals: seq<int>, alpha: ExtInt, beta: ExtInt, maxEval: ExtInt)
    requires |vals| > 0 && MaxSoFar(alpha, maxEval, vals[..|vals|]) && Lt(Max(alpha, maxEval), beta)
    ensures maxEval.Fin? && FailSoft(maxEval.v, Best(vals, true), alpha, beta)
  {
    assert vals[..|vals|] == vals;
  }

  /** A minimizing loop that went through every child without a cut-off returns a fail-soft value. */
  lemma MinDone(vals: seq<int>, alpha: ExtInt, beta: ExtInt, minEval: ExtInt)
    requires |vals| > 0 && MinSoFar(beta, minEval, vals[..|vals|]) && Lt(alpha, Min(beta, minEval))
    ensures minEval.Fin? && FailSoft(minEval.v, Best(vals, false), alpha, beta)
  {
    assert vals[..|vals|] == vals;
  }

  /**
   * Alpha-beta search of `state` to `depth`, with the window (`alpha`,
   * `beta`): a fail-soft result for the plain minimax value, and the
   * evaluation itself at depth 0, at a finished game and where the side to
   * move has no move.
   */
  method Minimax(state: GameState, depth: int, alpha: ExtInt, beta: ExtInt, isMaximizingPlayer: bool,
                 aiPlayer: Player) returns (value: int)
    requires ValidState(state) && Lt(alpha, beta)
    ensures FailSoft(value, MinimaxValue(state, depth, isMaximizingPlayer, aiPlayer), alpha, beta)
    ensures depth == 0 || state.gameOver || |AllMoves(state)| == 0 ==> value == Evaluate(state, aiPlayer)
    decreases PoolSize(state), 2
  {
    if depth == 0 || state.gameOver {
      return Evaluate(state, aiPlayer);
    }

    var possibleMoves := GenerateMoves(state);

    if |possibleMoves| == 0 {
      return Evaluate(state, aiPlayer);
    }

    ghost var cs := Children(state);
    if isMaximizingPlayer {
      value := MaximizeOver(state, possibleMoves, cs, depth, alpha, beta, aiPlayer);
    } else {
      value := MinimizeOver(state, possibleMoves, cs, depth, alpha, beta, aiPlayer);
    }
  }

  /**
   * The step both loops take per move: apply the `i`-th move and search the
   * state it leads to one level shallower, for the other side, with the
   * window of the moment.
   */
  method SearchChild(state: GameState, moves: seq<Move>, ghost cs: seq<GameState>, i: int, depth: int,
                     alpha: ExtInt, beta: ExtInt, maximizing: bool, aiPlayer: Player) returns (evalScore: int)
    requires ChildrenOf(state, moves, cs) && 0 <= i < |moves| && Lt(alpha, beta)
    ensures FailSoft(evalScore, ChildValues(state, cs, |cs|, depth, maximizing, aiPlayer)[i], alpha, beta)
    decreases PoolSize(state), 0
  {
    var childState := ApplyMove(state, moves[i]);
    evalScore := Minimax(childState, depth - 1, alpha, beta, !maximizing, aiPlayer);
    assert ChildValue(state, cs, i, depth, maximizing, aiPlayer) == MinimaxValue(childState, depth - 1, !maximizing, aiPlayer);
    ChildValuesAt(state, cs, |cs|, i, depth, maximizing, aiPlayer);
  }

  /** The maximizing branch of the search: raise `alpha` child by child, stop once it reaches `beta`. */
  method MaximizeOver(state: GameState, possibleMoves: seq<Move>, ghost cs: seq<GameState>, depth: int,
                      alpha: ExtInt, beta: ExtInt, aiPlayer: Player) returns (value: int)
    requires ChildrenOf(state, possibleMoves, cs) && |possibleMoves| > 0 && Lt(alpha, beta)
    ensures FailSoft(value, Best(ChildValues(state, cs, |cs|, depth, true, aiPlayer), true), alpha, beta)
    decreases PoolSize(state), 1
  {
    ghost var vals := ChildValues(state, cs, |cs|, depth, true, aiPlayer);
    var maxEval := NegInf;
    var a := alpha;
    var i := 0;
    while i < |possibleMoves|
      invariant 0 <= i <= |possibleMoves|
      invariant a == Max(alpha, maxEval) && Lt(a, beta)
      invariant MaxSoFar(alpha, maxEval, vals[..i])
    {
      var evalScore := SearchChild(state, possibleMoves, cs, i, depth, a, beta, true, aiPlayer);
      MaxStep(vals, i, alpha, beta, maxEval, evalScore);
      maxEval := Max(maxEval, Fin(evalScore));
      a := Max(a, Fin(evalScore));
      if Le(beta, a) {
        return maxEval.v;
      }
      i := i + 1;
    }
    MaxDone(vals, alpha, beta, maxEval);
    return maxEval.v;
  }

  /** The minimizing branch of the search: lower `beta` child by child, stop once it reaches `alpha`. */
  method MinimizeOver(state: GameState, possibleMoves: seq<Move>, ghost cs: seq<GameState>, depth: int,
                      alpha: ExtInt, beta: ExtInt, aiPlayer: Player) returns (value: int)
    requires ChildrenOf(state, possibleMoves, cs) && |possibleMoves| > 0 && Lt(alpha, beta)
    ensures FailSoft(value, Best(ChildValues(state, cs, |cs|, depth, false, aiPlayer), false), alpha, beta)
    decreases PoolSize(state), 1
  {
    ghost var vals := ChildValues(state, cs, |cs|, depth, false, aiPlayer);
    var minEval := PosInf;
    var b := beta;
    var i := 0;
    while i < |possibleMoves|
      invariant 0 <= i <= |possibleMoves|
      invariant b == Min(beta, minEval) && Lt(alpha, b)
      invariant MinSoFar(beta, minEval, vals[..i])
    {
      var evalScore := SearchChild(state, possibleMoves, cs, i, depth, alpha, b, false, aiPlayer);
      MinStep(vals, i, alpha, beta, minEval, evalScore);
      minEval := Min(minEval, Fin(evalScore));
      b := Min(b, Fin(evalScore));
      if Le(b, alpha) {
        return minEval.v;
      }
      i := i + 1;
    }
    MinDone(vals, alpha, beta, minEval);
    return minEval.v;
  }

  // ---------------------------------------------------------------------
  // Choosing the move
  // ---------------------------------------------------------------------

  /**
   * The position of the first largest value of `vals`: no earlier value
   * reaches it, and no value exceeds it.
   */
  function BestIndex(vals: seq<int>): (j: int)
    requires |vals| > 0
    ensures 0 <= j < |vals| && vals[j] == Best(vals, true)
    ensures forall k :: 0 <= k < j ==> vals[k] < vals[j]
  {
    if |vals| == 1 then 0
    else
      var j := BestIndex(vals[..|vals| - 1]);
      if vals[|vals| - 1] > vals[j] then |vals| - 1 else j
  }

  /**
   * What the choosing loop keeps after the first `i` children of values
   * `vals`: nothing seen yet (minus infinity) before the first, and then
   * `bestAt` at the first best of them, with `maxEval` its value.
   */
  predicate ChoiceSoFar(vals: seq<int>, i: int, maxEval: ExtInt, bestAt: int)
  {
    && 0 <= i <= |vals| && 0 <= bestAt < |vals|
    && (i == 0 ==> maxEval == NegInf)
    && (i > 0 ==> bestAt == BestIndex(vals[..i]) && maxEval == Fin(vals[bestAt]))
  }

  /**
   * One iteration of the choosing loop: the `i`-th child is worth `f`, and
   * the first best position moves to `i` exactly when `f` beats `maxEval`.
   */
  lemma ChoiceStep(vals: seq<int>, i: int, maxEval: ExtInt, bestAt: int, f: int)
    requires ChoiceSoFar(vals, i, maxEval, bestAt) && i < |vals| && f == vals[i]
    ensures Lt(maxEval, Fin(f)) ==> ChoiceSoFar(vals, i + 1, Fin(f), i)
    ensures !Lt(maxEval, Fin(f)) ==> ChoiceSoFar(vals, i + 1, maxEval, bestAt)
  {
    BestIndexOfPrefix(vals, i);
  }

  /** The first best position among the first `i` + 1 values, from that among the first `i`. */
  lemma BestIndexOfPrefix(vals: seq<int>, i: int)
    requires 0 <= i < |vals|
    ensures BestIndex(vals[..i + 1]) ==
      if i == 0 then 0
      else if vals[i] > vals[BestIndex(vals[..i])] then i else BestIndex(vals[..i])
  {
    var next := vals[..i + 1];
    assert next[..|next| - 1] == vals[..i];
  }

  /**
   * The move the AI plays from `state`, searching every generated move's
   * child to `depth` - 1 with the full window for the side to move: none
   * exactly when there is no move, and otherwise the first move whose child
   * has the largest value.
   */
  method FindBestMove(state: GameState, depth: int) returns (best: Option<Move>)
    requires ValidState(state)
    ensures best.None? <==> |AllMoves(state)| == 0
    ensures best.Some? ==>
      var cs := Children(state);
      var vals := ChildValues(state, cs, |cs|, depth, true, state.currentPlayer);
      best.value == AllMoves(state)[BestIndex(vals)]
  {
    var aiPlayer := state.currentPlayer;
    var possibleMoves := GenerateMoves(state);

    if |possibleMoves| == 0 {
      return None;
    }

    var bestMove := ChooseAmong(state, possibleMoves, Children(state), depth, aiPlayer);
    return Some(bestMove);
  }

  /**
   * Below a running root with moves, the chosen child's value is the root's
   * plain minimax value for the side to move.
   */
  lemma ChosenValueIsRootValue(state: GameState, depth: int)
    requires ValidState(state) && depth != 0 && !state.gameOver && |AllMoves(state)| > 0
    ensures var cs := Children(state);
      var vals := ChildValues(state, cs, |cs|, depth, true, state.currentPlayer);
      vals[BestIndex(vals)] == MinimaxValue(state, depth, true, state.currentPlayer)
  {
  }

  /** The choosing loop: keep the first move whose child beats every child before it. */
  method ChooseAmong(state: GameState, possibleMoves: seq<Move>, ghost cs: seq<GameState>, depth: int,
                     aiPlayer: Player) returns (bestMove: Move)
    requires ChildrenOf(state, possibleMoves, cs) && |possibleMoves| > 0
    ensures var vals := ChildValues(state, cs, |cs|, depth, true, aiPlayer);
      bestMove == possibleMoves[BestIndex(vals)]
  {
    ghost var vals := ChildValues(state, cs, |cs|, depth, true, aiPlayer);
    bestMove := possibleMoves[0];
    var maxEval := NegInf;
    ghost var bestAt := 0;

    for i := 0 to |possibleMoves|
      invariant ChoiceSoFar(vals, i, maxEval, bestAt) && bestMove == possibleMoves[bestAt]
    {
      var evalScore := SearchChild(state, possibleMoves, cs, i, depth, NegInf, PosInf, true, aiPlayer);
      FullWindowExact(evalScore, vals[i]);
      ChoiceStep(vals, i, maxEval, bestAt, evalScore);

      if Lt(maxEval, Fin(evalScore)) {
        maxEval := Fin(evalScore);
        bestMove := possibleMoves[i];
        bestAt := i;
      }
    }

    assert vals[..|possibleMoves|] == vals;
  }
}
