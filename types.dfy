/**
 * The data model shared by the rules engine and the search: board squares,
 * piece shapes, pieces, moves and the game state.
 *
 * Boards and shapes are values (the game's TypeScript code copies them with a JSON round
 * trip before changing them, so no caller ever sees another's update).
 */
module Types {

  /** A rectangular-or-ragged matrix of integers: boards and piece shapes alike. */
  type Grid = seq<seq<int>>

  /** The two players; the TypeScript code types them as the literal union `1 | 2`. */
  type Player = p: int | p == 1 || p == 2 witness 1

  /** Side length of the Blokus Duo board. */
  const BOARD_SIZE: int := 14

  /**
   * The square value the placement check reads as "empty". The type
   * declaration of board squares and the initial board of the page component
   * use 0 for an empty square instead; the validator only ever accepts 3, so
   * that is the value this model uses everywhere.
   */
  const EMPTY: int := 3

  datatype Option<T> = None | Some(value: T)

  /** A catalog entry: an identifier and its shape in base orientation. */
  datatype PieceTemplate = PieceTemplate(id: string, shape: Grid)

  /** A piece owned by a player, with its chosen orientation. */
  datatype Piece = Piece(id: string, baseShape: Grid, rotation: int, isFlipped: bool, player: Player)

  datatype Position = Position(row: int, col: int)

  /** A placement: the oriented piece and the board cell its shape's top-left corner lands on. */
  datatype Move = Move(piece: Piece, position: Position)

  datatype Scores = Scores(player1: int, player2: int)

  datatype LastPlaced = LastPlaced(player1: Option<string>, player2: Option<string>)

  datatype GameState = GameState(
    board: Grid,
    player1Pieces: seq<Piece>,
    player2Pieces: seq<Piece>,
    currentPlayer: Player,
    scores: Scores,
    gameOver: bool,
    lastPiecePlaced: LastPlaced)

  function Opponent(p: Player): (q: Player)
    ensures q != p
  {
    if p == 1 then 2 else 1
  }

  function ScoreOf(sc: Scores, p: Player): int
  {
    if p == 1 then sc.player1 else sc.player2
  }

  function PoolOf(s: GameState, p: Player): seq<Piece>
  {
    if p == 1 then s.player1Pieces else s.player2Pieces
  }

  /** Total number of pieces still in the two pools. */
  function PoolSize(s: GameState): nat
  {
    |s.player1Pieces| + |s.player2Pieces|
  }
}
