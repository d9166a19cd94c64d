/**
 * What the computer's turn (`ai_move` in main.py) decides, stated as
 * functions of the board it starts from: the score of a candidate move, the
 * row-major list of the mover's pieces, the list of candidate moves in the
 * order the program tries them, the first strictly best candidate, and the
 * board after the turn.
 */
module Selector {
  import opened Pieces
  import opened MoveGen

  /** Bonus added when a move leaves the opponent without a king. */
  const MateBonus: int := 10000

  predicate OnBoardMove(m: Move) {
    OnBoard(m.from) && OnBoard(m.to)
  }

  predicate AllOnBoard(ms: seq<Move>) {
    forall i :: 0 <= i < |ms| ==> OnBoardMove(ms[i])
  }

  /**
   * The score of a candidate: the value of the piece it captures, plus the
   * bonus when, after the move, the opponent has no king on the board.
   */
  function Score(g: Grid, side: Side, m: Move): int
    requires ValidGrid(g) && OnBoardMove(m)
  {
    PieceValue(At(g, m.to)) + (if KingAbsent(Moved(g, m.from, m.to), Opponent(side)) then MateBonus else 0)
  }

  // ---------------------------------------------------------------------
  // The mover's pieces, in the order the comprehension lists them.
  // ---------------------------------------------------------------------

  /** `a` comes before `b` in row-major order. */
  predicate Before(a: Square, b: Square) {
    a.row < b.row || (a.row == b.row && a.col < b.col)
  }

  predicate RowMajor(sqs: seq<Square>) {
    forall i, j :: 0 <= i < j < |sqs| ==> Before(sqs[i], sqs[j])
  }

  /** Squares of row `r` left of column `n` that hold a piece of `side`, left to right. */
  function OwnInRow(g: Grid, side: Side, r: int, n: nat): (sqs: seq<Square>)
    requires ValidGrid(g) && 0 <= r < Size && n <= Size
    ensures forall s {:trigger s in sqs} :: s in sqs <==> OnBoard(s) && s.row == r && s.col < n && OwnedBy(g, s, side)
  {
    if n == 0 then []
    else OwnInRow(g, side, r, n - 1) + (if OwnedBy(g, Square(r, n - 1), side) then [Square(r, n - 1)] else [])
  }

  /** Squares of the rows above row `n` that hold a piece of `side`, row by row. */
  function OwnInRows(g: Grid, side: Side, n: nat): (sqs: seq<Square>)
    requires ValidGrid(g) && n <= Size
    ensures forall s {:trigger s in sqs} :: s in sqs <==> OnBoard(s) && s.row < n && OwnedBy(g, s, side)
  {
    if n == 0 then [] else OwnInRows(g, side, n - 1) + OwnInRow(g, side, n - 1, Size)
  }

  /** The program's `ai_pieces`: exactly the squares holding a piece of `side`. */
  function OwnSquares(g: Grid, side: Side): (sqs: seq<Square>)
    requires ValidGrid(g)
    ensures forall s {:trigger s in sqs} :: s in sqs <==> OnBoard(s) && OwnedBy(g, s, side)
    ensures forall k :: 0 <= k < |sqs| ==> OnBoard(sqs[k]) && OwnedBy(g, sqs[k], side)
  {
    var sqs := OwnInRows(g, side, Size);
    assert forall k :: 0 <= k < |sqs| ==> sqs[k] in sqs;
    sqs
  }

  // ---------------------------------------------------------------------
  // Candidate moves and the choice among them.
  // ---------------------------------------------------------------------

  /** The generator's list for whatever stands on `s` (nothing for an empty square). */
  function PieceMoves(g: Grid, side: Side, s: Square): (tos: seq<Square>)
    requires ValidGrid(g) && OnBoard(s)
    ensures forall t :: t in tos ==> OnBoard(t)
  {
    if At(g, s).Some? then ValidMoves(g, side, At(g, s).value, s) else []
  }

  /** The moves from `from` to each of `tos`, in order. */
  function MovesFrom(from: Square, tos: seq<Square>): (ms: seq<Move>)
    ensures |ms| == |tos|
    ensures forall m {:trigger m in ms} :: m in ms <==> m.from == from && m.to in tos
    ensures forall i :: 0 <= i < |tos| ==> ms[i] == Move(from, tos[i])
  {
    if tos == [] then []
    else MovesFrom(from, tos[..|tos| - 1]) + [Move(from, tos[|tos| - 1])]
  }

  /** Every candidate from the squares `sqs`, piece by piece, each in generator order. */
  function CandidatesOf(g: Grid, side: Side, sqs: seq<Square>): (ms: seq<Move>)
    requires ValidGrid(g) && forall k :: 0 <= k < |sqs| ==> OnBoard(sqs[k])
    ensures AllOnBoard(ms)
  {
    if sqs == [] then []
    else
      var s := sqs[|sqs| - 1];
      var tail := MovesFrom(s, PieceMoves(g, side, s));
      assert forall i :: 0 <= i < |tail| ==> tail[i] in tail;
      CandidatesOf(g, side, sqs[..|sqs| - 1]) + tail
  }

  /** Every candidate move of `side`, in the order the program tries them. */
  function Candidates(g: Grid, side: Side): (ms: seq<Move>)
    requires ValidGrid(g)
    ensures AllOnBoard(ms)
  {
    CandidatesOf(g, side, OwnSquares(g, side))
  }

  /** A candidate together with the score the program computes for it. */
  datatype Scored = Scored(move: Move, score: int)

  /** Each move of `ms` paired with its score, in order. */
  function Scores(g: Grid, side: Side, ms: seq<Move>): (ss: seq<Scored>)
    requires ValidGrid(g) && AllOnBoard(ms)
  {
    seq(|ms|, i requires 0 <= i < |ms| => Scored(ms[i], Score(g, side, ms[i])))
  }

  /**
   * The running best of the program's loop (`best_score` and `best_move`
   * together): an entry replaces the best so far only when its score is
   * strictly higher, so the first of equal scores is kept.
   */
  function Pick(ss: seq<Scored>): (best: Option<Scored>)
    ensures best.Some? ==> best.value in ss
  {
    if ss == [] then None
    else
      var prev := Pick(ss[..|ss| - 1]);
      var last := ss[|ss| - 1];
      if prev.None? || last.score > prev.value.score then Some(last) else prev
  }

  /** The move the computer commits, if any. */
  function Choose(g: Grid, side: Side): (best: Option<Move>)
    requires ValidGrid(g)
    ensures best.Some? ==> best.value in Candidates(g, side) && OnBoardMove(best.value)
  {
    var cs := Candidates(g, side);
    match Pick(Scores(g, side, cs))
    case None => None
    case Some(s) =>
      ScoredMember(g, side, cs, s);
      Some(s.move)
  }

  /** The board after the computer's turn. */
  function AiResult(g: Grid, side: Side): (h: Grid)
    requires ValidGrid(g)
    ensures ValidGrid(h)
  {
    match Choose(g, side)
    case None => g
    case Some(m) => Moved(g, m.from, m.to)
  }

  // ---------------------------------------------------------------------
  // Step lemmas for the loops that build these lists.
  // ---------------------------------------------------------------------

  lemma MovesFromSnoc(from: Square, tos: seq<Square>, j: nat)
    requires j < |tos|
    ensures MovesFrom(from, tos[..j + 1]) == MovesFrom(from, tos[..j]) + [Move(from, tos[j])]
  {
    assert tos[..j + 1][..j] == tos[..j];
  }

  lemma CandidatesOfSnoc(g: Grid, side: Side, sqs: seq<Square>, i: nat)
    requires ValidGrid(g) && i < |sqs| && forall k :: 0 <= k < |sqs| ==> OnBoard(sqs[k])
    ensures CandidatesOf(g, side, sqs[..i + 1])
         == CandidatesOf(g, side, sqs[..i]) + MovesFrom(sqs[i], PieceMoves(g, side, sqs[i]))
  {
    assert sqs[..i + 1][..i] == sqs[..i];
  }

  lemma ScoredMember(g: Grid, side: Side, ms: seq<Move>, s: Scored)
    requires ValidGrid(g) && AllOnBoard(ms) && s in Scores(g, side, ms)
    ensures s.move in ms && OnBoardMove(s.move)
  {
    var i :| 0 <= i < |ms| && Scores(g, side, ms)[i] == s;
    assert s.move == ms[i];
  }

  lemma ScoresSnoc(g: Grid, side: Side, ms: seq<Move>, m: Move)
    requires ValidGrid(g) && AllOnBoard(ms) && OnBoardMove(m)
    ensures AllOnBoard(ms + [m])
    ensures Scores(g, side, ms + [m]) == Scores(g, side, ms) + [Scored(m, Score(g, side, m))]
  {
  }

  lemma PickSnoc(ss: seq<Scored>, s: Scored)
    ensures Pick(ss + [s]) == if Pick(ss).None? || s.score > Pick(ss).value.score then Some(s) else Pick(ss)
  {
    assert (ss + [s])[..|ss|] == ss;
  }

  /**
   * The program's `best_score` and `best_move` after trying the moves `ms`:
   * -1 and nothing before any move, then the running best.
   */
  ghost predicate BestSoFar(g: Grid, side: Side, ms: seq<Move>, bestScore: int, bestMove: Option<Move>)
    requires ValidGrid(g)
  {
    && AllOnBoard(ms)
    && (Pick(Scores(g, side, ms)).None? ==> bestMove.None? && bestScore == -1)
    && (Pick(Scores(g, side, ms)).Some? ==>
          bestMove == Some(Pick(Scores(g, side, ms)).value.move) && bestScore == Pick(Scores(g, side, ms)).value.score)
  }

  /** One comparison of the loop: the move replaces the best so far when it scores strictly more. */
  lemma BestSoFarStep(g: Grid, side: Side, ms: seq<Move>, bestScore: int, bestMove: Option<Move>, m: Move, score: int)
    requires ValidGrid(g) && BestSoFar(g, side, ms, bestScore, bestMove)
    requires OnBoardMove(m) && score == Score(g, side, m)
    ensures score > bestScore ==> BestSoFar(g, side, ms + [m], score, Some(m))
    ensures score <= bestScore ==> BestSoFar(g, side, ms + [m], bestScore, bestMove)
  {
    ScoreNonNegative(g, side, m);
    ScoresSnoc(g, side, ms, m);
    PickSnoc(Scores(g, side, ms), Scored(m, score));
  }

  /** After every candidate has been tried, the running best is the move `Choose` names. */
  lemma BestSoFarIsChoice(g: Grid, side: Side, bestScore: int, bestMove: Option<Move>)
    requires ValidGrid(g) && BestSoFar(g, side, Candidates(g, side), bestScore, bestMove)
    ensures bestMove == Choose(g, side)
  {
  }

  // ---------------------------------------------------------------------
  // Properties of the turn.
  // ---------------------------------------------------------------------

  /** Scores never go below zero, so the program's minus-infinity start is beaten by any candidate. */
  lemma ScoreNonNegative(g: Grid, side: Side, m: Move)
    requires ValidGrid(g) && OnBoardMove(m)
    ensures 0 <= Score(g, side, m)
    ensures Score(g, side, m) == 0 <==> At(g, m.to).None? && !KingAbsent(Moved(g, m.from, m.to), Opponent(side))
  {
  }

  /**
   * The bonus decides: a move scores at least the bonus exactly when it
   * leaves the opponent without a king, and otherwise scores the captured
   * piece's value, at most that of a king.
   */
  lemma MateBonusDecides(g: Grid, side: Side, m: Move)
    requires ValidGrid(g) && OnBoardMove(m)
    ensures Score(g, side, m) >= MateBonus <==> KingAbsent(Moved(g, m.from, m.to), Opponent(side))
    ensures !KingAbsent(Moved(g, m.from, m.to), Opponent(side)) ==>
      Score(g, side, m) == PieceValue(At(g, m.to)) <= 1000
  {
  }

  lemma RowMajorConcat(a: seq<Square>, b: seq<Square>)
    requires RowMajor(a) && RowMajor(b)
    requires forall x, y :: x in a && y in b ==> Before(x, y)
    ensures RowMajor(a + b)
  {
    forall i, j | 0 <= i < j < |a + b|
      ensures Before((a + b)[i], (a + b)[j])
    {
      if j < |a| {
        assert Before(a[i], a[j]);
      } else if i < |a| {
        assert a[i] in a && b[j - |a|] in b;
      } else {
        assert Before(b[i - |a|], b[j - |a|]);
      }
    }
  }

  lemma {:induction false} OwnInRowSorted(g: Grid, side: Side, r: int, n: nat)
    requires ValidGrid(g) && 0 <= r < Size && n <= Size
    ensures RowMajor(OwnInRow(g, side, r, n))
  {
    if n > 0 {
      OwnInRowSorted(g, side, r, n - 1);
      var last := if OwnedBy(g, Square(r, n - 1), side) then [Square(r, n - 1)] else [];
      RowMajorConcat(OwnInRow(g, side, r, n - 1), last);
    }
  }

  lemma {:induction false} OwnInRowsSorted(g: Grid, side: Side, n: nat)
    requires ValidGrid(g) && n <= Size
    ensures RowMajor(OwnInRows(g, side, n))
  {
    if n > 0 {
      OwnInRowsSorted(g, side, n - 1);
      OwnInRowSorted(g, side, n - 1, Size);
      RowMajorConcat(OwnInRows(g, side, n - 1), OwnInRow(g, side, n - 1, Size));
    }
  }

  /** `ai_pieces` is in strict row-major order (so it has no repeats). */
  lemma OwnSquaresRowMajor(g: Grid, side: Side)
    requires ValidGrid(g)
    ensures RowMajor(OwnSquares(g, side))
  {
    OwnInRowsSorted(g, side, Size);
  }

  lemma {:induction false} CandidatesOfExact(g: Grid, side: Side, sqs: seq<Square>)
    requires ValidGrid(g) && forall k :: 0 <= k < |sqs| ==> OnBoard(sqs[k])
    ensures forall m :: m in CandidatesOf(g, side, sqs) <==> m.from in sqs && m.to in PieceMoves(g, side, m.from)
  {
    if sqs != [] {
      var s := sqs[|sqs| - 1];
      CandidatesOfExact(g, side, sqs[..|sqs| - 1]);
      assert sqs == sqs[..|sqs| - 1] + [s];
    }
  }

  /**
   * The candidates are exactly the moves of a piece of `side` to one of the
   * destinations the generator lists for it.
   */
  lemma CandidatesExact(g: Grid, side: Side, m: Move)
    requires ValidGrid(g)
    ensures m in Candidates(g, side) <==>
      OnBoard(m.from) && OwnedBy(g, m.from, side) && m.to in ValidMoves(g, side, At(g, m.from).value, m.from)
  {
    CandidatesOfExact(g, side, OwnSquares(g, side));
  }

  /** `ss[i]` scores at least as much as every entry of `ss`, and strictly more than every earlier one. */
  ghost predicate FirstMaxAt(ss: seq<Scored>, i: int)
    requires 0 <= i < |ss|
  {
    && (forall j :: 0 <= j < |ss| ==> ss[j].score <= ss[i].score)
    && (forall j :: 0 <= j < i ==> ss[j].score < ss[i].score)
  }

  /** The running best is the first entry of maximal score, and exists whenever `ss` is not empty. */
  lemma {:induction false} PickIsFirstMax(ss: seq<Scored>)
    ensures Pick(ss).None? <==> ss == []
    ensures Pick(ss).Some? ==> exists i :: 0 <= i < |ss| && ss[i] == Pick(ss).value && FirstMaxAt(ss, i)
  {
    if ss != [] {
      var init, last := ss[..|ss| - 1], ss[|ss| - 1];
      PickIsFirstMax(init);
      var prev := Pick(init);
      if prev.None? || last.score > prev.value.score {
        var i := |ss| - 1;
        if prev.Some? {
          var k :| 0 <= k < |init| && init[k] == prev.value && FirstMaxAt(init, k);
          assert forall j :: 0 <= j < i ==> ss[j] == init[j];
        }
        assert FirstMaxAt(ss, i);
      } else {
        var k :| 0 <= k < |init| && init[k] == prev.value && FirstMaxAt(init, k);
        assert forall j :: 0 <= j < |init| ==> ss[j] == init[j];
        assert ss[k] == init[k] && FirstMaxAt(ss, k);
      }
    }
  }

  /**
   * The computer moves exactly when it has a candidate, and the move it
   * commits is the first candidate, in the program's scan order, whose
   * score no other candidate exceeds.
   */
  lemma ChooseIsFirstMax(g: Grid, side: Side)
    requires ValidGrid(g)
    ensures Choose(g, side).None? <==> Candidates(g, side) == []
    ensures Choose(g, side).Some? ==>
      exists i :: 0 <= i < |Candidates(g, side)| && Candidates(g, side)[i] == Choose(g, side).value
        && FirstMaxAt(Scores(g, side, Candidates(g, side)), i)
  {
    var cs := Candidates(g, side);
    var ss := Scores(g, side, cs);
    PickIsFirstMax(ss);
    if Pick(ss).Some? {
      var i :| 0 <= i < |ss| && ss[i] == Pick(ss).value && FirstMaxAt(ss, i);
      assert cs[i] == Choose(g, side).value;
    }
  }

  /**
   * When some candidate removes the opponent's king, the committed move
   * removes it too: no capture value comes near the bonus.
   */
  lemma MatingMoveIsChosen(g: Grid, side: Side, m: Move)
    requires ValidGrid(g) && m in Candidates(g, side)
    requires OnBoardMove(m) && KingAbsent(Moved(g, m.from, m.to), Opponent(side))
    ensures Choose(g, side).Some?
    ensures KingAbsent(Moved(g, Choose(g, side).value.from, Choose(g, side).value.to), Opponent(side))
  {
    var cs := Candidates(g, side);
    var ss := Scores(g, side, cs);
    ChooseIsFirstMax(g, side);
    var c := Choose(g, side).value;
    var i :| 0 <= i < |cs| && cs[i] == c && FirstMaxAt(ss, i);
    var k :| 0 <= k < |cs| && cs[k] == m;
    assert ss[k] == Scored(m, Score(g, side, m)) && ss[i] == Scored(c, Score(g, side, c));
    assert ss[k].score <= ss[i].score;
    MateBonusDecides(g, side, m);
    MateBonusDecides(g, side, c);
  }

  /**
   * The effect of a turn: with no candidate the board is unchanged;
   * otherwise the committed move goes between two different squares, the
   * destination now holds the moved piece, the source is empty and no other
   * square changes.
   */
  lemma AiTurnEffect(g: Grid, side: Side)
    requires ValidGrid(g)
    ensures Choose(g, side).None? ==> AiResult(g, side) == g
    ensures Choose(g, side).Some? ==>
      && Choose(g, side).value.from != Choose(g, side).value.to
      && OwnedBy(g, Choose(g, side).value.from, side)
      && MovedFromTo(g, AiResult(g, side), Choose(g, side).value.from, Choose(g, side).value.to)
  {
    if Choose(g, side).Some? {
      var m := Choose(g, side).value;
      CandidatesExact(g, side, m);
      MovedSquares(g, m.from, m.to);
    }
  }

  /**
   * With a single candidate there is nothing to compare: the computer makes
   * that move.
   */
  lemma SingleCandidateIsMade(g: Grid, side: Side, m: Move)
    requires ValidGrid(g) && Candidates(g, side) == [m]
    ensures OnBoardMove(m) && AiResult(g, side) == Moved(g, m.from, m.to)
  {
    ChooseIsFirstMax(g, side);
  }

  /**
   * A candidate that scores strictly more than another is preferred: the
   * lower one is never committed.
   */
  lemma LowerScoreNotChosen(g: Grid, side: Side, m: Move, better: Move)
    requires ValidGrid(g) && m in Candidates(g, side) && better in Candidates(g, side)
    requires OnBoardMove(m) && OnBoardMove(better)
    requires Score(g, side, m) < Score(g, side, better)
    ensures Choose(g, side).Some? && Choose(g, side).value != m
  {
    var cs := Candidates(g, side);
    var ss := Scores(g, side, cs);
    ChooseIsFirstMax(g, side);
    var c := Choose(g, side).value;
    var i :| 0 <= i < |cs| && cs[i] == c && FirstMaxAt(ss, i);
    var k :| 0 <= k < |cs| && cs[k] == better;
    assert ss[k].score <= ss[i].score;
  }
}
