# Blokus Duo rules engine and search, modelled in Dafny

This project models the rules engine and the computer opponent of a Blokus Duo
game for two players on a 14 × 14 board. Each player holds the same 21 polyomino
pieces.

- **Shapes.** A piece is a 0/1 matrix in a base orientation. The pieces view
  flips it horizontally first and then turns it clockwise in quarter turns.
- **Legal placement.** A placement is legal when it passes three checks:
  - every occupied square lands on the board, on an empty square;
  - no occupied square has an edge neighbour of the same colour;
  - on a player's first move (all 21 pieces still in hand) some square covers
    the player's start point, (4, 4) or (9, 9). On later moves some square
    touches a same-coloured square corner to corner.
- **Score.** A player's score is the number of squares they own.
- **Search.** The computer player looks at every oriented placement of every
  piece in hand. For each one it applies the move to a copy of the state and
  scores the result with minimax and fail-soft alpha-beta pruning. The
  evaluation is the score difference. It plays the first move of largest
  value.

The model has five modules, one file each:

- `types.dfy` (`Types`) holds the data model:
  - grids, players and pieces;
  - moves and the game state;
  - the board size 14;
  - the empty-square value 3.
- `grids.dfy` (`Grids`) counts the squares of a grid that hold a value. It
  relates the count to the set of such squares.
- `piece_utils.dfy` (`PieceUtils`) holds the shape transforms, the score count,
  the placement check and the search for any legal placement. Each loop of the
  game's TypeScript code is a method. Each method's contract ties its result to a
  specification function or predicate, and lemmas state the rules' laws about
  those functions.
- `ai.dfy` (`Ai`) holds move generation, move application, the evaluation,
  alpha-beta minimax and the choice of the best move. Its specification
  functions (`AllMoves`, `Applied`, `MinimaxValue`) carry the properties of
  generation (sound and complete), of a move's effect (its frame) and of the
  search (it agrees with plain minimax).
- `pieces.dfy` (`Pieces`) holds the 21-piece catalogue and the facts about its
  shapes.

Values model the game's copies. Its TypeScript code deep-copies a shape or a state
with a JSON round trip before changing it, so the model updates sequences and
datatypes as values. The caller's state can therefore never change. The two
infinities of the search are an extended integer (`Ai.ExtInt`).

The empty square is 3. The placement check counts a square as empty only when
it holds 3 (frontend/src/lib/pieceUtils.ts:82). The type of board squares and
the page component's initial board use 0 for empty instead. The model follows
the check.

The scores lag one move behind. Applying a move recounts both scores on the
board as it was *before* the move (frontend/src/lib/ai.ts:79-80). The model
keeps this: `Ai.ScoresLag` states the resulting off-by-one-move score.

## Model

| member | source | states |
|---|---|---|
| Types.Opponent | frontend/src/lib/ai.ts:7 | the opponent of a player is the other player |
| Grids.GridCountIsCard | frontend/src/lib/pieceUtils.ts:44-54 | the counting loops' total equals the number of squares holding the value |
| Grids.GridCountBound | frontend/src/lib/pieceUtils.ts:44-54 | a count over a rectangular grid lies between 0 and rows × columns |
| Grids.InjectiveImageCard | frontend/src/lib/pieceUtils.ts:12-16 | moving squares one-to-one keeps their number (used for rotation, mirror and stamping counts) |
| PieceUtils.Rotated | frontend/src/lib/pieceUtils.ts:4-18 | a quarter turn of an r × c matrix is c × r |
| PieceUtils.RotatedAt | frontend/src/lib/pieceUtils.ts:12-16 | square (i, j) lands on (j, r - 1 - i), and the result is rectangular |
| PieceUtils.RotateMatrix | frontend/src/lib/pieceUtils.ts:4-18 | the nested fill loops produce exactly the quarter turn |
| PieceUtils.Flipped | frontend/src/lib/pieceUtils.ts:21-25 | the mirror keeps every dimension |
| PieceUtils.FlipMatrix | frontend/src/lib/pieceUtils.ts:21-25 | reversing each row of a copy gives exactly the mirror (the input is a value and stays as it was) |
| PieceUtils.FlippedShape | frontend/src/lib/pieceUtils.ts:21-25 | the mirror of a proper shape is a proper shape |
| PieceUtils.FlipTwice | frontend/src/lib/pieceUtils.ts:21-25 | mirroring twice gives back the original |
| PieceUtils.RotatedTwice | frontend/src/lib/pieceUtils.ts:4-18 | a half turn keeps the dimensions and sends (i, j) to (r - 1 - i, c - 1 - j) |
| PieceUtils.HalfTurnTwice | frontend/src/lib/pieceUtils.ts:4-18 | four quarter turns give back the original |
| PieceUtils.RotatedTimes | frontend/src/lib/pieceUtils.ts:36-38 | n turns give a proper shape whose dimensions are swapped exactly when n is odd |
| PieceUtils.RotateFourTimes | frontend/src/lib/pieceUtils.ts:36-38 | the turning loop run four times is the identity |
| PieceUtils.RotationCount | frontend/src/lib/pieceUtils.ts:30 | the turn count is JavaScript's remainder of rotation / 90 by 4: it lies strictly between -4 and 4, differs from the quotient by a multiple of 4, and has the sign of the rotation |
| PieceUtils.GetTransformedShape | frontend/src/lib/pieceUtils.ts:28-41 | the copy, the optional mirror and the turning loop give the mirror-then-rotate shape, with JavaScript's remainder for the turn count |
| PieceUtils.TransformIdentity | frontend/src/lib/pieceUtils.ts:28-41 | rotation 0 without a flip gives the base shape back |
| PieceUtils.TransformDimensions | frontend/src/lib/pieceUtils.ts:28-41 | the shown shape is proper; its dimensions are swapped exactly when the turn count is odd |
| PieceUtils.RotatedCount | frontend/src/lib/pieceUtils.ts:4-18 | a quarter turn keeps the number of squares holding any value |
| PieceUtils.FlippedCount | frontend/src/lib/pieceUtils.ts:21-25 | the mirror keeps the number of squares holding any value |
| PieceUtils.RotatedTimesCount | frontend/src/lib/pieceUtils.ts:36-38 | any number of turns keeps the number of squares holding any value |
| PieceUtils.TransformPreservesCount | frontend/src/lib/pieceUtils.ts:28-41 | the shown shape has as many occupied squares as the base shape |
| PieceUtils.CalculatePlacedScore | frontend/src/lib/pieceUtils.ts:44-54 | the score is the number of squares the player owns |
| PieceUtils.PlacedScoreBound | frontend/src/lib/pieceUtils.ts:44-54 | a player's square count lies between 0 and rows × columns |
| PieceUtils.TouchesOwnEdge | frontend/src/lib/pieceUtils.ts:87-103 | the neighbour loop finds an own edge neighbour exactly when one exists on the board |
| PieceUtils.TouchesOwnCorner | frontend/src/lib/pieceUtils.ts:114-130 | the corner loop finds an own diagonal neighbour exactly when one exists on the board |
| PieceUtils.EdgeOffsets | frontend/src/lib/pieceUtils.ts:87-92 | the four offsets listed are exactly the edge neighbours |
| PieceUtils.CornerOffsets | frontend/src/lib/pieceUtils.ts:114-119 | the four offsets listed are exactly the diagonal neighbours |
| PieceUtils.IsMoveValid | frontend/src/lib/pieceUtils.ts:57-141 | the loop with its early rejections and two flags returns exactly the declarative legality predicate |
| PieceUtils.BeforeStep | frontend/src/lib/pieceUtils.ts:70-134 | what the loop has established after one more square: allowed-so-far, covers-start-so-far and touches-corner-so-far |
| PieceUtils.BeforeNextRow | frontend/src/lib/pieceUtils.ts:70-71 | the end of a row and the start of the next establish the same facts |
| PieceUtils.RejectsOffBoardOrOverlap | frontend/src/lib/pieceUtils.ts:76-84 | an occupied square off the board or on a non-empty square makes the move illegal |
| PieceUtils.RejectsEdgeContact | frontend/src/lib/pieceUtils.ts:86-103 | an occupied square with an own edge neighbour makes the move illegal, whatever the corners |
| PieceUtils.LegalOnceAllowed | frontend/src/lib/pieceUtils.ts:105-140 | once every square passes bounds, overlap and edge checks: a first move is legal iff a square covers the start point (4,4) or (9,9), a later one iff a square has an own diagonal neighbour |
| PieceUtils.RejectsEmptyShape | frontend/src/lib/pieceUtils.ts:136-140 | a shape without occupied squares is never legal |
| PieceUtils.TurnsOfQuarter | frontend/src/lib/pieceUtils.ts:154-158 | the rotations 0, 90, 180 and 270 make 0 to 3 turns |
| PieceUtils.OrientedShape | frontend/src/lib/pieceUtils.ts:152-159 | each of the eight orientations of a proper shape is a proper shape |
| PieceUtils.OrientedShapeIsTransformed | frontend/src/lib/pieceUtils.ts:152-159 | the piece copies built in the loops are well formed, and their shown shape is that orientation |
| PieceUtils.SearchWindow | frontend/src/lib/pieceUtils.ts:162-168 | the origin loops find a legal origin in rows -h+1 … H-1 and columns -w+1 … W-1 exactly when one exists |
| PieceUtils.SearchOrientation | frontend/src/lib/pieceUtils.ts:154-168 | for one flip and turn count, the search finds a move exactly when that orientation has one |
| PieceUtils.SearchPiece | frontend/src/lib/pieceUtils.ts:152-170 | the flip and rotation loops find a move exactly when some orientation of the piece has one |
| PieceUtils.PlayerHasValidMoves | frontend/src/lib/pieceUtils.ts:144-174 | true exactly when some remaining piece, flip, rotation and window origin passes the placement check, a first move meaning 21 remaining pieces |
| Ai.EvaluateAntisymmetric | frontend/src/lib/ai.ts:6-13 | `Ai.Evaluate`, the model of the evaluation, is the score difference, and player 1's is the negation of player 2's |
| Ai.KeepLegalMember | frontend/src/lib/ai.ts:35-44 | the filtered list holds the earlier moves and exactly the legal candidates |
| Ai.KeepLegalAppend | frontend/src/lib/ai.ts:22-49 | filtering two candidate runs in turn is filtering their concatenation |
| Ai.ColsMember | frontend/src/lib/ai.ts:34 | the column loop's candidates are exactly the origins of that row in the column range |
| Ai.RowsMember | frontend/src/lib/ai.ts:33-34 | the row loop's candidates are exactly the origins in the row and column ranges |
| Ai.RotationsMember | frontend/src/lib/ai.ts:25-31 | the rotation loop's candidates are exactly the window origins of its orientations so far |
| Ai.PieceCandidatesMember | frontend/src/lib/ai.ts:23-47 | a piece's candidates are exactly its oriented copies at their window origins |
| Ai.PoolMember | frontend/src/lib/ai.ts:22-49 | the pool's candidates are exactly those of some piece of the pool |
| Ai.AllMovesMember | frontend/src/lib/ai.ts:16-52 | a move is generated iff it is legal and is a candidate of some piece of the current player's pool |
| Ai.OrientedDims | frontend/src/lib/ai.ts:30-34 | the window the generator uses matches the oriented shape's height and width |
| Ai.CandidateShape | frontend/src/lib/ai.ts:26-34 | a candidate's piece is well formed, turns 0 to 3 times, and its origin lies in the window of its shown shape |
| Ai.GeneratedMoveIsLegal | frontend/src/lib/ai.ts:16-52 | soundness: every generated move is the current player's pool piece with rotation 0, 90, 180 or 270 and passes the placement check, with first move meaning 21 pieces |
| Ai.FoundMoveIsPlacement | frontend/src/lib/pieceUtils.ts:144-174 | a legal candidate makes the move-existence search succeed |
| Ai.OrientationIsFound | frontend/src/lib/pieceUtils.ts:154-168 | an orientation the search accepts yields a legal candidate move |
| Ai.PlacementIsFound | frontend/src/lib/pieceUtils.ts:144-174 | when the move-existence search succeeds, some pool piece has a legal candidate |
| Ai.AllMovesEmptyIffNoPlacement | frontend/src/lib/ai.ts:16-52 | completeness: no move is generated exactly when the move-existence search fails for the same board, pool and player |
| Ai.GenerateRow | frontend/src/lib/ai.ts:34-45 | the column loop appends the legal moves of one row in column order |
| Ai.GenerateWindow | frontend/src/lib/ai.ts:33-46 | the row loop appends the legal moves of the window in row-major order |
| Ai.GeneratePiece | frontend/src/lib/ai.ts:23-48 | the flip and rotation loops append the piece's legal moves in loop order |
| Ai.KeepPoolStep | frontend/src/lib/ai.ts:22-49 | one more piece of the pool adds its legal moves after those of the pieces before it |
| Ai.GenerateMoves | frontend/src/lib/ai.ts:16-52 | the moves, in loop order, are exactly the legal candidates of the pool |
| Ai.Stamp | frontend/src/lib/ai.ts:60-70 | stamping keeps the board's dimensions |
| Ai.StampShape | frontend/src/lib/ai.ts:60-70 | the stamping loops write the owner on exactly the covered squares that exist on the board |
| Ai.StampAt | frontend/src/lib/ai.ts:60-70 | covered squares hold the value afterwards, every other square is unchanged, and the board stays rectangular |
| Ai.PlacedCard | frontend/src/lib/ai.ts:60-70 | a placed shape covers as many squares as it has occupied squares |
| Ai.StampOwnCells | frontend/src/lib/ai.ts:60-70 | on an allowed placement the owner's squares become the old ones plus the covered ones, which were not the owner's |
| Ai.StampOwnCount | frontend/src/lib/ai.ts:60-70 | on an allowed placement the owner gains exactly the piece's square count |
| Ai.StampOtherCount | frontend/src/lib/ai.ts:60-70 | on an allowed placement the other player's square count is unchanged |
| Ai.Without | frontend/src/lib/ai.ts:73 | filtering the pool never lengthens it |
| Ai.WithoutMembers | frontend/src/lib/ai.ts:73 | the filtered pool holds exactly the pieces with another identifier, and is shorter exactly when the identifier was present |
| Ai.ApplyMove | frontend/src/lib/ai.ts:55-86 | the new state is exactly the applied-move specification (the input is a value and is untouched) |
| Ai.AppliedFrame | frontend/src/lib/ai.ts:55-86 | the frame of a move: the board dimensions are kept; covered squares get the owner and the others stay; the mover's pool loses exactly the pieces with that identifier; the opponent's pool is unchanged; the mover's last piece is recorded and the other's kept; the turn passes; game-over is unchanged |
| Ai.ScoresLag | frontend/src/lib/ai.ts:78-81 | the new scores count the pre-move board, so the mover's recorded score trails their squares by the piece's size and the opponent's matches |
| Ai.AppliedValid | frontend/src/lib/ai.ts:72-73 | a generated move keeps the state valid and strictly shrinks the pools |
| Ai.AllAppliedValid | frontend/src/lib/ai.ts:112-113 | every generated move leads to a valid state with fewer pieces in the pools |
| Ai.Max | frontend/src/lib/ai.ts:115-116 | the larger of two extended integers bounds both and is one of them |
| Ai.Min | frontend/src/lib/ai.ts:131-132 | the smaller of two extended integers is bounded by both and is one of them |
| Ai.Children | frontend/src/lib/ai.ts:112-113 | the child states are the generated moves applied, each valid and with fewer pieces |
| Ai.ChildValues | frontend/src/lib/ai.ts:112-114 | one minimax value per child examined |
| Ai.ChildValuesAt | frontend/src/lib/ai.ts:112-114 | each entry is the plain minimax value of that child |
| Ai.Best | frontend/src/lib/ai.ts:110-139 | the best value is one of the values and bounds all of them from the side to move |
| Ai.BestOfPrefix | frontend/src/lib/ai.ts:115 | the best of one more value is the running maximum (or minimum) step |
| Ai.FullWindowExact | frontend/src/lib/ai.ts:157 | with the window (-∞, +∞) the fail-soft result is the exact value |
| Ai.MaxStep | frontend/src/lib/ai.ts:112-121 | one maximizing iteration keeps the loop's bound or, on a cut-off, already has a fail-soft result |
| Ai.MinStep | frontend/src/lib/ai.ts:128-137 | one minimizing iteration keeps the loop's bound or, on a cut-off, already has a fail-soft result |
| Ai.MaxDone | frontend/src/lib/ai.ts:122 | a maximizing loop that ran to the end returns a fail-soft bound of the best child value |
| Ai.MinDone | frontend/src/lib/ai.ts:138 | a minimizing loop that ran to the end returns a fail-soft bound of the best child value |
| Ai.Minimax | frontend/src/lib/ai.ts:89-140 | fail-soft alpha-beta: the result is the plain minimax value when it lies inside the window, and a bound on the correct side of it otherwise; exactly the evaluation at depth 0, at a finished game or when no move is generated |
| Ai.SearchChild | frontend/src/lib/ai.ts:113-114 | one child searched with the current window gives a fail-soft bound of its minimax value |
| Ai.MaximizeOver | frontend/src/lib/ai.ts:110-123 | the maximizing loop with pruning gives a fail-soft bound of the largest child value |
| Ai.MinimizeOver | frontend/src/lib/ai.ts:126-139 | the minimizing loop with pruning gives a fail-soft bound of the smallest child value |
| Ai.BestIndex | frontend/src/lib/ai.ts:151-164 | the chosen position holds the largest value, and every earlier value is strictly smaller |
| Ai.BestIndexOfPrefix | frontend/src/lib/ai.ts:160-163 | the first best position of one more value moves only on a strictly larger value |
| Ai.ChoiceStep | frontend/src/lib/ai.ts:159-163 | one choosing iteration keeps the first best move of the children seen so far |
| Ai.ChosenValueIsRootValue | frontend/src/lib/ai.ts:155-164 | the chosen child's value is the plain minimax value of the root for the side to move |
| Ai.FindBestMove | frontend/src/lib/ai.ts:143-167 | no move exactly when none is generated; otherwise the first generated move whose child has the largest full-window minimax value |
| Ai.ChooseAmong | frontend/src/lib/ai.ts:151-166 | the choosing loop with strict improvement returns the first move of largest child value |
| Pieces.RowCountIsSum | frontend/src/lib/pieceUtils.ts:47-51 | on rows of at most five squares the counting loop adds up the value's positions |
| Pieces.GridCountIsSum | frontend/src/lib/pieceUtils.ts:46-52 | on shapes of at most 5 × 5 squares the counting loops add up the rows' counts |
| Pieces.CountByRows | frontend/src/lib/pieces.ts:3-137 | a shape of one to three rows counts as the sum of its rows |
| Pieces.SquaresOfI1 | frontend/src/lib/pieces.ts:5 | the monomino has one square |
| Pieces.SquaresOfI2 | frontend/src/lib/pieces.ts:8 | the domino has two squares |
| Pieces.SquaresOfI3 | frontend/src/lib/pieces.ts:11 | I3 has three squares |
| Pieces.SquaresOfV3 | frontend/src/lib/pieces.ts:12-18 | V3 has three squares |
| Pieces.SquaresOfI4 | frontend/src/lib/pieces.ts:21 | I4 has four squares |
| Pieces.SquaresOfL4 | frontend/src/lib/pieces.ts:22-28 | L4 has four squares |
| Pieces.SquaresOfT4 | frontend/src/lib/pieces.ts:29-35 | T4 has four squares |
| Pieces.SquaresOfO4 | frontend/src/lib/pieces.ts:36-42 | O4 has four squares |
| Pieces.SquaresOfZ4 | frontend/src/lib/pieces.ts:43-49 | Z4 has four squares |
| Pieces.SquaresOfI5 | frontend/src/lib/pieces.ts:52 | I5 has five squares |
| Pieces.SquaresOfF5 | frontend/src/lib/pieces.ts:53-60 | F5 has five squares |
| Pieces.SquaresOfL5 | frontend/src/lib/pieces.ts:61-67 | L5 has five squares |
| Pieces.SquaresOfN5 | frontend/src/lib/pieces.ts:68-74 | N5 has five squares |
| Pieces.SquaresOfP5 | frontend/src/lib/pieces.ts:75-82 | P5 has five squares |
| Pieces.SquaresOfT5 | frontend/src/lib/pieces.ts:83-90 | T5 has five squares |
| Pieces.SquaresOfU5 | frontend/src/lib/pieces.ts:91-97 | U5 has five squares |
| Pieces.SquaresOfV5 | frontend/src/lib/pieces.ts:98-105 | V5 has five squares |
| Pieces.SquaresOfW5 | frontend/src/lib/pieces.ts:106-113 | W5 has five squares |
| Pieces.SquaresOfX5 | frontend/src/lib/pieces.ts:114-121 | X5 has five squares |
| Pieces.SquaresOfY5 | frontend/src/lib/pieces.ts:122-128 | Y5 has five squares |
| Pieces.SquaresOfZ5 | frontend/src/lib/pieces.ts:129-136 | Z5 has five squares |
| Pieces.SmallSquares | frontend/src/lib/pieces.ts:4-18 | the monomino, the domino and the trominoes have 1, 2, 3 and 3 squares |
| Pieces.TetrominoSquares | frontend/src/lib/pieces.ts:20-49 | the five tetrominoes have four squares each |
| Pieces.PentominoSquaresFirst | frontend/src/lib/pieces.ts:51-90 | the pentominoes I5 to T5 have five squares each |
| Pieces.PentominoSquaresLast | frontend/src/lib/pieces.ts:91-136 | the pentominoes U5 to Z5 have five squares each |
| Pieces.TemplateCount | frontend/src/lib/pieces.ts:4-136 | every template has as many squares as its group comment says |
| Pieces.LibraryIds | frontend/src/lib/pieces.ts:3-137 | 21 templates with pairwise distinct identifiers |
| Pieces.ShapesFirst | frontend/src/lib/pieces.ts:4-67 | the first eleven shapes are rectangular 0/1 matrices of at most 5 × 5 squares |
| Pieces.ShapesLast | frontend/src/lib/pieces.ts:68-136 | the last ten shapes are rectangular 0/1 matrices of at most 5 × 5 squares |
| Pieces.LibraryShapes | frontend/src/lib/pieces.ts:3-137 | every shape is a non-empty rectangular 0/1 matrix with both dimensions at most 5 |
| Pieces.LibraryCellCounts | frontend/src/lib/pieces.ts:4-136 | square counts by group: 1, 2, 3 and 3, then 4 for the tetrominoes and 5 for the pentominoes |
| Pieces.TotalOfPrefix | frontend/src/lib/pieces.ts:3-137 | the first k templates cover the sum of their groups' sizes |
| Pieces.GroupTotalIs89 | frontend/src/lib/pieces.ts:4-51 | one monomino, one domino, two trominoes, five tetrominoes and twelve pentominoes make 89 squares |
| Pieces.TotalOfGroups | frontend/src/lib/pieces.ts:3-137 | any 21 templates with the catalogue's group sizes cover 89 squares |
| Pieces.LibraryTotal | frontend/src/lib/pieces.ts:3-137 | the catalogue covers 89 squares in all |
| Pieces.OnlyMonomino | frontend/src/lib/pieces.ts:4-5 | a template has one square exactly when it is "I1" |

## Left out

- The user interface is not part of this model: the React components, the page component, styling and the colour table. Only the board size 14 is taken from the constants file.
- The JSON deep copies are modelled as value semantics. Their serialisation is not modelled.
- The infinities of the search are the `NegInf` and `PosInf` cases of an extended integer, not floating point.
- Rotations that are not a multiple of 90 degrees are excluded. `PieceUtils.WellFormedPiece` requires a multiple of 90: the transform's turn count would otherwise be fractional, and the generator only produces 0, 90, 180 and 270. Negative multiples are modelled with JavaScript's remainder, which makes them perform no turn.
- The declarations file for types holds no logic. Its declarations became the datatypes of `Types`. `GameState` and `Move` are not declared in the TypeScript code; they are defined from how the search uses them.
- Ai.Minimax, Ai.GenerateMoves, Ai.AllMoves, Ai.FindBestMove: these require `Ai.ValidState`, meaning a rectangular board and each pool holding proper shapes that carry its own player's number. The board and shape conditions are what the generator and the transform read. Move generation does not read the owner condition; it gives the search its termination measure. Applying a generated move preserves `Ai.ValidState` (`Ai.AppliedValid`). The state the search starts from is assumed to meet it, since no code modelled here builds a game state.
- Ai.Minimax: its termination measure is the total number of pieces in both pools. Every generated move removes a piece, so this is enough. The measure also covers a call with depth 0 from the best-move search: the child search then starts at depth -1 and runs until the moves run out.
- Ai.Minimax, Ai.FindBestMove: in the TypeScript code each is one function with its loops inline. The model splits them into the per-child step `Ai.SearchChild` and the loops `Ai.MaximizeOver`, `Ai.MinimizeOver` and `Ai.ChooseAmong`. A loop's early `break` is a `return` of the same value. The values computed and the order of the calls are those of the TypeScript code.
- PieceUtils.PlayerHasValidMoves, Ai.GenerateMoves: the move-existence search reads the board height and width from the board, while the generator uses the board size 14. The completeness lemma `Ai.AllMovesEmptyIffNoPlacement` therefore requires a 14 × 14 board.
- Ai.Minimax: its contract is the fail-soft property for every window. It does not state which children are skipped after a cut-off.
