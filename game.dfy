/**
 * The game's mutable board (the global `board` of main.py, a list of eight
 * row lists updated in place) and the operations that read or change it:
 * the king scan, the plain move update of the human turn, and the
 * computer's turn with its simulate, score and undo loop.
 */
module Game {
  import opened Pieces
  import opened MoveGen
  import opened Selector

  class ChessBoard {
    var grid: Grid

    ghost predicate Valid()
      reads this
    {
      ValidGrid(grid)
    }

    /** A fresh game starts from the standard layout. */
    constructor()
      ensures Valid() && grid == InitialGrid()
    {
      grid := InitialGrid();
    }

    /** `is_king_mated` / `is_checkmate_for`: true iff no square holds the king of `side`. */
    method IsKingMated(side: Side) returns (mated: bool)
      requires Valid()
      ensures mated == KingAbsent(grid, side)
    {
      for r := 0 to Size
        invariant forall r', c :: 0 <= r' < r && 0 <= c < Size ==> grid[r'][c] != Some(Piece(King, side))
      {
        for c := 0 to Size
          invariant forall c' :: 0 <= c' < c ==> grid[r][c'] != Some(Piece(King, side))
        {
          if grid[r][c] == Some(Piece(King, side)) {
            return false;
          }
        }
      }
      return true;
    }

    /**
     * The two-line move update of the human turn and of the computer's
     * commit: the destination takes the source's contents, then the source
     * is cleared. Nothing is checked.
     */
    method MovePiece(from: Square, to: Square)
      requires Valid() && OnBoard(from) && OnBoard(to)
      modifies this
      ensures Valid() && grid == Moved(old(grid), from, to)
    {
      grid := Put(grid, to, At(grid, from));
      grid := Put(grid, from, None);
    }

    /**
     * One candidate, as the loop body of `ai_move` handles it: the move is
     * made on the board, scored, and taken back.
     */
    method TryMove(side: Side, from: Square, to: Square) returns (score: int)
      requires Valid() && OnBoard(from) && OnBoard(to)
      modifies this
      ensures grid == old(grid)
      ensures score == Score(old(grid), side, Move(from, to))
    {
      ghost var g := grid;
      var captured := At(grid, to);
      var temp := At(grid, to);
      grid := Put(grid, to, At(grid, from));
      grid := Put(grid, from, None);
      score := PieceValue(captured);
      var mated := IsKingMated(Opponent(side));
      if mated {
        score := score + MateBonus;
      }
      grid := Put(grid, from, At(grid, to));
      grid := Put(grid, to, temp);
      SimulateUndoRestores(g, from, to);
    }

    /**
     * The inner loop of `ai_move`: each destination of the piece on `from`
     * is tried in generator order against the best so far.
     */
    method TryMovesFrom(side: Side, from: Square, validMoves: seq<Square>, ghost done: seq<Move>,
                        bestScore0: int, bestMove0: Option<Move>)
      returns (bestScore: int, bestMove: Option<Move>)
      requires Valid() && OnBoard(from) && forall k :: 0 <= k < |validMoves| ==> OnBoard(validMoves[k])
      requires BestSoFar(grid, side, done, bestScore0, bestMove0)
      modifies this
      ensures grid == old(grid)
      ensures BestSoFar(grid, side, done + MovesFrom(from, validMoves), bestScore, bestMove)
    {
      ghost var g := grid;
      bestScore, bestMove := bestScore0, bestMove0;
      assert done + MovesFrom(from, validMoves[..0]) == done;
      for j := 0 to |validMoves|
        invariant grid == g
        invariant BestSoFar(g, side, done + MovesFrom(from, validMoves[..j]), bestScore, bestMove)
      {
        var to := validMoves[j];
        var score := TryMove(side, from, to);
        BestSoFarStep(g, side, done + MovesFrom(from, validMoves[..j]), bestScore, bestMove, Move(from, to), score);
        MovesFromSnoc(from, validMoves, j);
        AppendAssoc(done, MovesFrom(from, validMoves[..j]), [Move(from, to)]);
        if score > bestScore {
          bestScore := score;
          bestMove := Some(Move(from, to));
        }
      }
      assert validMoves[..|validMoves|] == validMoves;
    }

    /**
     * One iteration of the outer loop of `ai_move`: the piece on
     * `aiPieces[i]` and each of its destinations.
     */
    method TryPiece(side: Side, aiPieces: seq<Square>, i: nat, bestScore0: int, bestMove0: Option<Move>)
      returns (bestScore: int, bestMove: Option<Move>)
      requires Valid() && i < |aiPieces|
      requires forall k :: 0 <= k < |aiPieces| ==> OnBoard(aiPieces[k]) && OwnedBy(grid, aiPieces[k], side)
      requires BestSoFar(grid, side, CandidatesOf(grid, side, aiPieces[..i]), bestScore0, bestMove0)
      modifies this
      ensures grid == old(grid)
      ensures BestSoFar(grid, side, CandidatesOf(grid, side, aiPieces[..i + 1]), bestScore, bestMove)
    {
      var from := aiPieces[i];
      var piece := At(grid, from).value;
      var validMoves := GetValidMoves(grid, side, piece, from);
      CandidatesOfSnoc(grid, side, aiPieces, i);
      bestScore, bestMove := TryMovesFrom(side, from, validMoves, CandidatesOf(grid, side, aiPieces[..i]), bestScore0, bestMove0);
    }

    /**
     * The outer loop of `ai_move` over the squares `aiPieces` of the
     * mover's pieces: every candidate is tried in the program's order and
     * the first strictly best one is kept. The program's minus-infinity
     * start is -1 here: every score is at least 0.
     */
    method TryPieces(side: Side, aiPieces: seq<Square>) returns (bestScore: int, bestMove: Option<Move>)
      requires Valid()
      requires forall k :: 0 <= k < |aiPieces| ==> OnBoard(aiPieces[k]) && OwnedBy(grid, aiPieces[k], side)
      modifies this
      ensures grid == old(grid)
      ensures BestSoFar(grid, side, CandidatesOf(grid, side, aiPieces), bestScore, bestMove)
    {
      ghost var g := grid;
      bestScore, bestMove := -1, None;
      for i := 0 to |aiPieces|
        invariant grid == g
        invariant BestSoFar(g, side, CandidatesOf(g, side, aiPieces[..i]), bestScore, bestMove)
      {
        bestScore, bestMove := TryPiece(side, aiPieces, i, bestScore, bestMove);
      }
      assert aiPieces[..|aiPieces|] == aiPieces;
    }

    /** The whole search of `ai_move`: the mover's squares in row-major order, then the loops over them. */
    method SearchBest(side: Side) returns (bestScore: int, bestMove: Option<Move>)
      requires Valid()
      modifies this
      ensures grid == old(grid)
      ensures BestSoFar(grid, side, Candidates(grid, side), bestScore, bestMove)
    {
      var aiPieces := OwnSquares(grid, side);
      bestScore, bestMove := TryPieces(side, aiPieces);
    }

    /** `ai_move`: search for the best candidate, then commit it if there is one. */
    method AiMove(side: Side)
      requires Valid()
      modifies this
      ensures Valid() && grid == AiResult(old(grid), side)
    {
      var bestScore, bestMove := SearchBest(side);
      BestSoFarIsChoice(grid, side, bestScore, bestMove);
      if bestMove.Some? {
        MovePiece(bestMove.value.from, bestMove.value.to);
      }
    }
  }
}
