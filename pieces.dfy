/**
 * The board state of the chess game: sides, piece kinds, squares and the
 * 8x8 grid of optional pieces, with the one board update every move uses.
 *
 * The original program names a piece by a string such as "RookBlack"; with
 * its fixed set of twelve names, testing the suffix or a substring of that
 * string is the same as comparing the kind or the side of a `Piece`.
 */
module Pieces {

  datatype Option<T> = None | Some(value: T)

  datatype Side = White | Black

  datatype Kind = Pawn | Rook | Knight | Bishop | Queen | King

  datatype Piece = Piece(kind: Kind, side: Side)

  /** A square of the board holds a piece or nothing. */
  type Cell = Option<Piece>

  /** Row 0 is the top of the board (Black's back rank); rows grow downward. */
  datatype Square = Square(row: int, col: int)

  datatype Move = Move(from: Square, to: Square)

  /** The board as the program keeps it: a list of eight rows of eight cells. */
  type Grid = seq<seq<Cell>>

  const Size: int := 8

  predicate ValidGrid(g: Grid) {
    |g| == Size && forall r :: 0 <= r < Size ==> |g[r]| == Size
  }

  predicate OnBoard(s: Square) {
    0 <= s.row < Size && 0 <= s.col < Size
  }

  function Opponent(side: Side): (o: Side)
    ensures o != side
  {
    if side == Black then White else Black
  }

  function At(g: Grid, s: Square): Cell
    requires ValidGrid(g) && OnBoard(s)
  {
    g[s.row][s.col]
  }

  /** True when `s` holds a piece of `side`. */
  predicate OwnedBy(g: Grid, s: Square, side: Side)
    requires ValidGrid(g) && OnBoard(s)
  {
    At(g, s).Some? && At(g, s).value.side == side
  }

  /** True when `s` holds a piece that does not belong to `side`. */
  predicate HoldsOpponentOf(g: Grid, s: Square, side: Side)
    requires ValidGrid(g) && OnBoard(s)
  {
    At(g, s).Some? && At(g, s).value.side != side
  }

  /** The grid after one cell assignment `board[row][col] = v`. */
  function Put(g: Grid, s: Square, v: Cell): (h: Grid)
    requires ValidGrid(g) && OnBoard(s)
    ensures ValidGrid(h)
    ensures At(h, s) == v
    ensures forall t :: OnBoard(t) && t != s ==> At(h, t) == At(g, t)
  {
    g[s.row := g[s.row][s.col := v]]
  }

  /**
   * The board update shared by the human move and the computer's commit:
   * the piece on `from` is copied to `to`, then `from` is cleared. When
   * `from == to` the clearing comes last, so the square ends up empty.
   */
  function Moved(g: Grid, from: Square, to: Square): (h: Grid)
    requires ValidGrid(g) && OnBoard(from) && OnBoard(to)
    ensures ValidGrid(h)
  {
    Put(Put(g, to, At(g, from)), from, None)
  }

  /** The heuristic "mated": no square holds the king of `side`. */
  predicate KingAbsent(g: Grid, side: Side)
    requires ValidGrid(g)
  {
    forall r, c :: 0 <= r < Size && 0 <= c < Size ==> g[r][c] != Some(Piece(King, side))
  }

  /** Material value of whatever stands on a square. */
  function PieceValue(c: Cell): (v: nat)
    ensures v == 0 <==> c.None?
    ensures v <= 1000
    ensures c.Some? && c.value.kind == King ==> v == 1000
    ensures c.Some? && c.value.kind != King ==> v <= 9
  {
    match c
    case None => 0
    case Some(p) =>
      match p.kind
      case King => 1000
      case Queen => 9
      case Rook => 5
      case Bishop => 3
      case Knight => 3
      case Pawn => 1
  }

  function BackRank(side: Side): seq<Cell> {
    [Some(Piece(Rook, side)), Some(Piece(Knight, side)), Some(Piece(Bishop, side)),
     Some(Piece(Queen, side)), Some(Piece(King, side)), Some(Piece(Bishop, side)),
     Some(Piece(Knight, side)), Some(Piece(Rook, side))]
  }

  function Row(c: Cell): seq<Cell> {
    [c, c, c, c, c, c, c, c]
  }

  /** The starting position: Black on rows 0-1, White on rows 6-7. */
  function InitialGrid(): (g: Grid)
    ensures ValidGrid(g)
  {
    [BackRank(Black), Row(Some(Piece(Pawn, Black))), Row(None), Row(None),
     Row(None), Row(None), Row(Some(Piece(Pawn, White))), BackRank(White)]
  }

  /** `h` is `g` with the piece on `from` moved to `to`, and no other square changed. */
  ghost predicate MovedFromTo(g: Grid, h: Grid, from: Square, to: Square)
    requires ValidGrid(g) && ValidGrid(h) && OnBoard(from) && OnBoard(to)
  {
    && At(h, to) == At(g, from)
    && At(h, from).None?
    && forall s :: OnBoard(s) && s != from && s != to ==> At(h, s) == At(g, s)
  }

  /** Two boards that agree on every square are the same board. */
  lemma GridsEqual(g: Grid, h: Grid)
    requires ValidGrid(g) && ValidGrid(h)
    requires forall s :: OnBoard(s) ==> At(g, s) == At(h, s)
    ensures g == h
  {
    forall r | 0 <= r < Size
      ensures g[r] == h[r]
    {
      forall c | 0 <= c < Size
        ensures g[r][c] == h[r][c]
      {
        assert At(g, Square(r, c)) == At(h, Square(r, c));
      }
    }
  }

  /**
   * The move update: the source is always emptied; between two different
   * squares the piece arrives on the destination; every other square keeps
   * its contents.
   */
  lemma MovedSquares(g: Grid, from: Square, to: Square)
    requires ValidGrid(g) && OnBoard(from) && OnBoard(to)
    ensures At(Moved(g, from, to), from).None?
    ensures from != to ==> MovedFromTo(g, Moved(g, from, to), from, to)
    ensures forall s :: OnBoard(s) && s != from && s != to ==> At(Moved(g, from, to), s) == At(g, s)
  {
  }

  /**
   * A move whose destination is its own source leaves that square empty:
   * the piece is written back onto itself and then cleared.
   */
  lemma SelfMoveEmpties(g: Grid, s: Square)
    requires ValidGrid(g) && OnBoard(s)
    ensures At(Moved(g, s, s), s).None?
    ensures At(g, s).Some? ==> Moved(g, s, s) != g
  {
  }

  /**
   * Simulating a move and undoing it (the source takes back what the
   * destination holds, the destination takes back its saved contents)
   * restores the board, whether or not the destination held a piece and
   * even when source and destination coincide.
   */
  lemma SimulateUndoRestores(g: Grid, from: Square, to: Square)
    requires ValidGrid(g) && OnBoard(from) && OnBoard(to)
    ensures Put(Put(Moved(g, from, to), from, At(Moved(g, from, to), to)), to, At(g, to)) == g
  {
    var h := Put(Put(Moved(g, from, to), from, At(Moved(g, from, to), to)), to, At(g, to));
    forall s | OnBoard(s)
      ensures At(h, s) == At(g, s)
    {
    }
    GridsEqual(h, g);
  }

  /** The starting position holds both kings, Black's pieces on rows 0-1 and White's on rows 6-7. */
  lemma InitialLayout()
    ensures !KingAbsent(InitialGrid(), White) && !KingAbsent(InitialGrid(), Black)
    ensures forall s :: OnBoard(s) ==>
      && (OwnedBy(InitialGrid(), s, Black) <==> s.row <= 1)
      && (OwnedBy(InitialGrid(), s, White) <==> s.row >= 6)
  {
    assert InitialGrid()[0][4] == Some(Piece(King, Black));
    assert InitialGrid()[7][4] == Some(Piece(King, White));
  }

  /**
   * From the starting position, once any piece (Black's king included) is
   * moved onto White's king square, or White's king is moved onto its own
   * square and so cleared, White has no king and Black still has one.
   */
  lemma WhiteKingTakenFromStart(from: Square)
    requires OnBoard(from)
    ensures KingAbsent(Moved(InitialGrid(), from, Square(7, 4)), White)
    ensures !KingAbsent(Moved(InitialGrid(), from, Square(7, 4)), Black)
  {
    var g := InitialGrid();
    var h := Moved(g, from, Square(7, 4));
    MovedSquares(g, from, Square(7, 4));
    forall r, c | 0 <= r < Size && 0 <= c < Size
      ensures h[r][c] != Some(Piece(King, White))
    {
      var s := Square(r, c);
      if s != from && s != Square(7, 4) {
        assert At(h, s) == At(g, s);
      }
    }
    if from == Square(0, 4) {
      assert h[7][4] == Some(Piece(King, Black));
    } else {
      assert At(h, Square(0, 4)) == At(g, Square(0, 4));
      assert h[0][4] == Some(Piece(King, Black));
    }
  }
}
