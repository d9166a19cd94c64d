# Chess game: the computer opponent's turn

This project models the core of a two-player chess game written in Python
with pygame. The core is the computer opponent's turn (`ai_move` in
`main.py`) and the board it works on:

- **the board**: a global list of eight rows of eight cells. Each cell holds
  nothing or a piece name such as `"RookBlack"`. The model uses a
  `Piece(kind, side)` value instead of the name. With the program's twelve
  fixed names, the `endswith(color)` and substring tests on a name are the
  same as comparing the kind or the side.
- **the move generator** (`get_valid_moves`): the pseudo-legal destinations
  of one of the mover's pieces. Pawns push one square, or two from the start
  row, and capture diagonally. Rooks and bishops slide along four rays each.
  The queen gets the rook's list followed by the bishop's. Knights and kings
  use fixed offset lists. Check is never looked at.
- **scoring** (`piece_value`, `is_checkmate_for`): a candidate scores the
  value of the piece it captures. It scores 10000 more when, after the move,
  the opponent has no king left on the board.
- **the greedy selector**: the mover's pieces are scanned in row-major
  order, and each piece's destinations in generator order. Each candidate is
  made on the live board, scored and taken back. The first candidate with
  the strictly highest score is kept and committed in place.
- **the plain move update** (lines 507-508): the human turn copies the
  selected piece to the clicked square and clears the source, with no check
  at all.

Modules:

- `pieces.dfy` (`Pieces`): sides, kinds, pieces, squares and the 8x8 grid.
  It holds the one-cell update `Put`, the move update `Moved`, the starting
  layout, material values and the "no king" test.
- `movegen.dfy` (`MoveGen`): the generator. Functions state what it returns.
  Methods build the same lists with the program's loops and are proved
  equal to the functions. A ray loop's `break` is a stop flag that ends the
  loop at the same point. Lemmas state the ray, pawn, knight,
  king and queen rules.
- `selector.dfy` (`Selector`): the selector's decisions as functions of the
  starting board. These are the score, the row-major piece list, the
  candidate list, the first strictly best candidate and the board after the
  turn. Lemmas state what the choice means.
- `game.dfy` (`Game`): the mutable board as a class. Its methods are the
  king scan, the move update, and the computer's turn with its
  simulate/score/undo loop. The king scan is proved against
  `Pieces.KingAbsent`, the move update against `Pieces.Moved`, and the turn
  and its loops against the `Selector` functions.

The program starts `best_score` at minus infinity. Every score is at least
0, so the model starts it at -1 and keeps the best move as an `Option`.

## Model

| member | source | states |
|---|---|---|
| `Pieces.Opponent` | main.py:256 | the opponent colour is never the mover's colour |
| `Pieces.Put` | main.py:252 | one cell assignment changes that square and no other |
| `Pieces.PieceValue` | main.py:219-232 | an empty square is worth 0 and any piece more than 0; a king is worth 1000, every other piece at most 9 |
| `Pieces.InitialGrid` | main.py:39-48 | the starting layout is a well-formed 8x8 board |
| `Pieces.InitialLayout` | main.py:412-421 | the starting layout holds both kings; Black owns exactly rows 0-1 and White exactly rows 6-7 |
| `Pieces.Moved` | main.py:507-508 | the move update of a well-formed board is a well-formed board; what it does to each square is stated by `MovedSquares` |
| `Pieces.KingAbsent` | main.py:234-240 | (a predicate, no contract) no square holds the king of that colour; `Game.ChessBoard.IsKingMated` is proved to answer exactly this |
| `Pieces.MovedSquares` | main.py:507-508 | the move update always empties the source; between two different squares the destination receives the source's piece; no other square changes |
| `Pieces.SelfMoveEmpties` | main.py:506-508 | a human click on the selected square itself leaves that square empty, so an occupied board changes |
| `Pieces.SimulateUndoRestores` | main.py:249-261 | making a candidate move and undoing it restores the board exactly, whether or not the destination held a piece |
| `Pieces.WhiteKingTakenFromStart` | main.py:335-342 | from the starting layout, any piece (Black's king included) moved onto White's king square, or White's king moved onto itself, leaves White with no king and Black with one |
| `MoveGen.Walk` | main.py:137-203 | every square of a ray is on the board and not held by the mover's side |
| `MoveGen.Ray` | main.py:137-143 | a ray has at most seven squares, the range `range(1, 8)` allows |
| `MoveGen.WalkLength` | main.py:137-143 | a walk that starts at distance `k` ends by distance 8 |
| `MoveGen.Hops` | main.py:172-216 | the offset loop keeps exactly the listed squares that are on the board and not held by the mover's side |
| `MoveGen.KnightTargets` | main.py:166-171 | the knight's offset list has eight entries |
| `MoveGen.KnightTargetsAreJumps` | main.py:166-171 | every knight target is two squares away along one axis and one along the other |
| `MoveGen.KingTargets` | main.py:208-213 | the king's offset list has eight entries |
| `MoveGen.KingTargetsAreNeighbours` | main.py:208-213 | every king target differs from the king's square and is at most one row and one column away |
| `MoveGen.StartRow` | main.py:123 | the pawn's start row is on the board and is the row that holds that side's eight pawns in the starting layout |
| `MoveGen.Forward` | main.py:122 | a pawn moves one row at a time, and five steps from its own pawn row reach the opponent's pawn row |
| `MoveGen.SinglePush` | main.py:124-126 | at most one square, on the board and empty |
| `MoveGen.DoublePush` | main.py:127-128 | at most one square, on the board, empty and in the pawn's column |
| `MoveGen.PawnMoves` | main.py:121-135 | a pawn has at most four destinations: two pushes and two captures |
| `MoveGen.RookMoves` | main.py:136-164 | the four orthogonal rays in the program's order, at most 28 squares in all |
| `MoveGen.BishopMoves` | main.py:175-203 | the four diagonal rays in the program's order, at most 28 squares in all |
| `MoveGen.Capture` | main.py:131-135 | a diagonal capture square is on the board and holds an opposing piece |
| `MoveGen.PawnCaptures` | main.py:130-135 | every diagonal capture offered lands on an opposing piece, and there is at most one per column shift |
| `MoveGen.ValidMoves` | main.py:119-217 | every destination is on the board and never holds a piece of the mover's side |
| `MoveGen.SlideRay` | main.py:137-203 | the ray loop with its `break`s builds exactly the ray `Ray` describes |
| `MoveGen.RayStep` | main.py:137-203 | one pass of the ray loop: it either stops with the whole ray built, or appends the square and leaves the rest of the ray still to walk |
| `MoveGen.WalkStep` | main.py:137-203 | a square off the board or held by the mover ends the ray; an opposing piece is its last square; an empty square is followed by the rest of the ray |
| `MoveGen.HopMoves` | main.py:165-174 | the knight's and king's loop builds exactly the filtered offset list |
| `MoveGen.PawnMoveList` | main.py:121-135 | the pawn branch builds single push, double push, then the two captures, with every read in bounds |
| `MoveGen.PawnPushList` | main.py:122-128 | the push tests offer the empty forward square, then the square two ahead from the start row |
| `MoveGen.PawnCaptureList` | main.py:130-135 | the capture loop appends the left, then the right diagonal, each only when it holds an opposing piece |
| `MoveGen.GetValidMoves` | main.py:119-217 | the dispatch returns exactly `ValidMoves`, the queen asking as rook and then as bishop |
| `MoveGen.WalkSquares` | main.py:137-203 | the j-th square of the walk in direction `d` that starts at distance `k` is the square `k + j` steps from the piece in direction `d` |
| `MoveGen.WalkEmptyBeforeLast` | main.py:137-203 | every square of a ray before its last is empty |
| `MoveGen.WalkStops` | main.py:137-203 | a ray ends at the distance bound, on a captured opposing piece, or before a square off the board or held by the mover's side |
| `MoveGen.RayShape` | main.py:136-203 | a rook or bishop ray is the consecutive squares 1, 2, ... away, all empty but the last, and it stops only for one of the program's reasons |
| `MoveGen.QueenIsRookThenBishop` | main.py:204-206 | the queen's list is the rook's list followed by the bishop's |
| `MoveGen.PawnCapturesBoth` | main.py:130 | the pawn tries the left diagonal, then the right |
| `MoveGen.PawnMovesExact` | main.py:121-135 | a pawn destination is the empty forward square, or the square two ahead from the start row with both squares empty, or a forward diagonal holding an opposing piece, and nothing else |
| `MoveGen.PushesExact` | main.py:124-128 | single push iff the forward square is on the board and empty; double push iff on the start row with both squares ahead empty |
| `MoveGen.CaptureExact` | main.py:131-135 | a diagonal square is offered iff it is on the board and holds an opposing piece; an empty diagonal never is |
| `MoveGen.DoublePushInBounds` | main.py:127 | from the start row both squares the unguarded double-push test reads are on the board |
| `MoveGen.KnightMovesExact` | main.py:165-174 | knight destinations are exactly the offset-list squares on the board and not held by the mover's side |
| `MoveGen.KingMovesExact` | main.py:207-216 | king destinations are exactly the offset-list squares on the board and not held by the mover's side |
| `MoveGen.CornerMoves` | main.py:165-216 | from the corner a knight reaches at most two squares and a king at most three |
| `Selector.OwnInRow` | main.py:244 | the row scan keeps exactly the squares of that row, left of the bound, holding a piece of the mover |
| `Selector.OwnInRows` | main.py:244 | the scan of the first rows keeps exactly the mover's squares in those rows |
| `Selector.OwnSquares` | main.py:244 | `ai_pieces` holds exactly the squares with a piece of the mover |
| `Selector.OwnSquaresRowMajor` | main.py:244 | `ai_pieces` is in strict row-major order |
| `Selector.PieceMoves` | main.py:246-247 | every generated destination of a scanned piece is on the board |
| `Selector.MovesFrom` | main.py:248 | the moves from one square pair it with each destination, position by position in generator order; a move is listed iff it starts there and ends on a listed destination |
| `Selector.CandidatesOf` | main.py:245-248 | every candidate of the scanned squares is on the board |
| `Selector.Candidates` | main.py:244-248 | every candidate move of the mover is on the board |
| `Selector.CandidatesExact` | main.py:244-248 | a move is a candidate iff it starts on a piece of the mover and ends on a destination the generator lists for that piece |
| `Selector.Pick` | main.py:262-264 | the running best, if any, is one of the scored candidates |
| `Selector.PickIsFirstMax` | main.py:242-264 | the running best exists iff some candidate was scored; it scores at least as much as every candidate and strictly more than every earlier one |
| `Selector.Score` | main.py:249-258 | (no contract) the value of the captured piece, plus 10000 when the opponent has no king after the move; `ScoreNonNegative` and `MateBonusDecides` state its range |
| `Selector.ScoreNonNegative` | main.py:249-258 | a score is never negative, and is 0 iff the move captures nothing and leaves the opponent's king on the board |
| `Selector.MateBonusDecides` | main.py:254-258 | a score reaches 10000 iff the move leaves the opponent without a king; otherwise it is the captured piece's value, at most 1000 |
| `Selector.BestSoFarStep` | main.py:262-264 | one comparison keeps the running best: a strictly higher score replaces it, an equal or lower one does not |
| `Selector.BestSoFarIsChoice` | main.py:265-266 | after all candidates, the running best is the move `Choose` names |
| `Selector.Choose` | main.py:242-266 | the chosen move is one of the candidates and is on the board |
| `Selector.ChooseIsFirstMax` | main.py:242-266 | a move is made iff some candidate exists; the move made is the first candidate, in scan order, whose score no other candidate exceeds |
| `Selector.MatingMoveIsChosen` | main.py:254-266 | when some candidate leaves the opponent without a king, the chosen move does too |
| `Selector.LowerScoreNotChosen` | main.py:262-266 | a candidate that another candidate outscores is never chosen |
| `Selector.SingleCandidateIsMade` | main.py:242-268 | with exactly one candidate, the turn makes that move |
| `Selector.AiResult` | main.py:265-268 | the board after the turn is a well-formed board |
| `Selector.AiTurnEffect` | main.py:265-268 | with no candidate the board is unchanged; otherwise the source held the mover's piece, the destination differs from it and now holds that piece, the source is empty and nothing else changes |
| `Game.ChessBoard.constructor` | main.py:430 | a new game starts from the starting layout |
| `Game.ChessBoard.IsKingMated` | main.py:335-342 | the scan answers true iff no square holds the king of that colour, and changes nothing |
| `Game.ChessBoard.MovePiece` | main.py:507-508 | the board becomes the move update of the old board |
| `Game.ChessBoard.TryMove` | main.py:249-261 | simulate, score and undo leaves the board as it was and returns the candidate's score |
| `Game.ChessBoard.TryMovesFrom` | main.py:248-264 | the inner loop keeps the board and extends the running best over one piece's destinations |
| `Game.ChessBoard.TryPiece` | main.py:245-264 | one outer iteration generates the piece's destinations and extends the running best over them |
| `Game.ChessBoard.TryPieces` | main.py:242-264 | the outer loop keeps the board and ends with the running best over the candidates of all the listed squares |
| `Game.ChessBoard.SearchBest` | main.py:242-264 | the search keeps the board and ends with the running best over all candidates |
| `Game.ChessBoard.AiMove` | main.py:242-268 | the board becomes `AiResult` of the old board: unchanged with no candidate, otherwise the first best move committed |

## Left out

- Rendering, input and sound: image and sound loading, `move_sound.play()`,
  `draw_board`, `display_scores` and every menu and prompt screen. They are
  presentation and do not affect the board.
- The event and turn loop of `main`, apart from the two-line move update. It
  includes the click-to-square conversion, the selection test at line 513,
  `time.delay` and the end-of-game messages.
- Player names, scores and high scores. They are presentation state.
- `best_score = -float('inf')`: no floating point is modelled. The start
  value is -1, which every score beats because scores are at least 0.
- The board is a value field of the `ChessBoard` class that each update
  reassigns. Python's row lists could in principle be shared between rows;
  the program copies every row at the start of a game, so no such aliasing
  is modelled.
- The global `board` becomes the one `ChessBoard` object the methods act
  on. The nested functions of `ai_move` become module-level functions and
  methods that take the board as a parameter.
