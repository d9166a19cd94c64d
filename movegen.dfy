/**
 * The computer player's move generator (`get_valid_moves` in main.py).
 *
 * For a piece of the moving side standing on a square, it lists the
 * pseudo-legal destinations: only the board edge, blocking pieces and
 * "no landing on one's own piece" restrict them; check is never looked at.
 * The functions below state what the generator returns; the methods build
 * the same lists with the program's loops and are proved equal to them.
 */
module MoveGen {
  import opened Pieces

  /** The eight ray directions; rows grow downward. */
  datatype Dir = Down | Up | Right | Left | DownRight | DownLeft | UpRight | UpLeft

  /** The square `k` steps from `at` in direction `d`. */
  function Offset(at: Square, d: Dir, k: int): Square {
    match d
    case Down => Square(at.row + k, at.col)
    case Up => Square(at.row - k, at.col)
    case Right => Square(at.row, at.col + k)
    case Left => Square(at.row, at.col - k)
    case DownRight => Square(at.row + k, at.col + k)
    case DownLeft => Square(at.row + k, at.col - k)
    case UpRight => Square(at.row - k, at.col + k)
    case UpLeft => Square(at.row - k, at.col - k)
  }

  /**
   * The rest of a sliding ray, from distance `k` on (the program's
   * `for i in range(1, 8)`): an empty square is taken and the walk goes on,
   * an opposing piece is taken and ends the walk, a piece of the mover's
   * side or the board edge ends it with nothing taken.
   */
  function Walk(g: Grid, side: Side, at: Square, d: Dir, k: nat): (ray: seq<Square>)
    requires ValidGrid(g)
    ensures forall s :: s in ray ==> OnBoard(s) && !OwnedBy(g, s, side)
    decreases Size - k
  {
    if k >= Size then []
    else
      var t := Offset(at, d, k);
      if OnBoard(t) && !OwnedBy(g, t, side) then
        [t] + (if At(g, t).Some? then [] else Walk(g, side, at, d, k + 1))
      else []
  }

  /** A whole ray: the program's loops start one square away from the piece. */
  function Ray(g: Grid, side: Side, at: Square, d: Dir): (ray: seq<Square>)
    requires ValidGrid(g)
    ensures |ray| <= Size - 1
  {
    WalkLength(g, side, at, d, 1);
    Walk(g, side, at, d, 1)
  }

  /** A walk from distance `k` never goes past distance `Size - 1`. */
  lemma {:induction false} WalkLength(g: Grid, side: Side, at: Square, d: Dir, k: nat)
    requires ValidGrid(g)
    ensures Walk(g, side, at, d, k) != [] ==> k + |Walk(g, side, at, d, k)| <= Size
    decreases Size - k
  {
    if k < Size {
      WalkLength(g, side, at, d, k + 1);
    }
  }

  /**
   * The squares of `ts`, in list order, that are on the board and not held
   * by the mover's side (the knight's and king's offset loops).
   */
  function Hops(g: Grid, side: Side, ts: seq<Square>): (r: seq<Square>)
    requires ValidGrid(g)
    ensures forall s :: s in r <==> s in ts && OnBoard(s) && !OwnedBy(g, s, side)
  {
    if ts == [] then []
    else
      var t := ts[|ts| - 1];
      Hops(g, side, ts[..|ts| - 1]) + (if OnBoard(t) && !OwnedBy(g, t, side) then [t] else [])
  }

  /** The knight's offset list: the eight L-shaped jumps, two squares one way and one the other. */
  function KnightTargets(at: Square): (ts: seq<Square>)
    ensures |ts| == 8
  {
    [Square(at.row + 2, at.col + 1), Square(at.row + 2, at.col - 1),
     Square(at.row - 2, at.col + 1), Square(at.row - 2, at.col - 1),
     Square(at.row + 1, at.col + 2), Square(at.row + 1, at.col - 2),
     Square(at.row - 1, at.col + 2), Square(at.row - 1, at.col - 2)]
  }

  /** The king's offset list: the eight neighbouring squares. */
  function KingTargets(at: Square): (ts: seq<Square>)
    ensures |ts| == 8
  {
    [Square(at.row + 1, at.col), Square(at.row - 1, at.col),
     Square(at.row, at.col + 1), Square(at.row, at.col - 1),
     Square(at.row + 1, at.col + 1), Square(at.row + 1, at.col - 1),
     Square(at.row - 1, at.col + 1), Square(at.row - 1, at.col - 1)]
  }

  /** Every knight target is an L-shaped jump: two squares one way and one square the other. */
  lemma KnightTargetsAreJumps(at: Square, t: Square)
    requires t in KnightTargets(at)
    ensures var dr, dc := t.row - at.row, t.col - at.col;
      ((dr == 2 || dr == -2) && (dc == 1 || dc == -1)) || ((dr == 1 || dr == -1) && (dc == 2 || dc == -2))
  {
  }

  /** Every king target is one of the eight squares next to the king's own. */
  lemma KingTargetsAreNeighbours(at: Square, t: Square)
    requires t in KingTargets(at)
    ensures t != at && -1 <= t.row - at.row <= 1 && -1 <= t.col - at.col <= 1
  {
  }

  /** The row a pawn of `side` starts on: the row of its pawns in the starting layout. */
  function StartRow(side: Side): (r: int)
    ensures 0 <= r < Size && InitialGrid()[r] == Row(Some(Piece(Pawn, side)))
  {
    var g := InitialGrid();
    if side == Black then
      assert g[1] == Row(Some(Piece(Pawn, side)));
      1
    else
      assert side == White && g[6] == Row(Some(Piece(Pawn, White)));
      6
  }

  /**
   * Pawns of Black move down the rows, pawns of White up: one step at a
   * time, towards the opponent's pawn row.
   */
  function Forward(side: Side): (d: int)
    ensures d == 1 || d == -1
    ensures StartRow(side) + 5 * d == StartRow(Opponent(side))
  {
    if side == Black then 1 else -1
  }

  /** The forward diagonal square `dc` columns over, when it holds an opposing piece. */
  function Capture(g: Grid, side: Side, at: Square, dc: int): (r: seq<Square>)
    requires ValidGrid(g)
    ensures forall s :: s in r ==> OnBoard(s) && HoldsOpponentOf(g, s, side)
  {
    var t := Square(at.row + Forward(side), at.col + dc);
    if OnBoard(t) && HoldsOpponentOf(g, t, side) then [t] else []
  }

  /** Diagonal captures, one per column shift in `dcs`, in that order. */
  function PawnCaptures(g: Grid, side: Side, at: Square, dcs: seq<int>): (r: seq<Square>)
    requires ValidGrid(g)
    ensures forall s :: s in r ==> OnBoard(s) && HoldsOpponentOf(g, s, side)
    ensures |r| <= |dcs|
  {
    if dcs == [] then []
    else PawnCaptures(g, side, at, dcs[..|dcs| - 1]) + Capture(g, side, at, dcs[|dcs| - 1])
  }

  /** One square forward, when that square is on the board and empty. */
  function SinglePush(g: Grid, side: Side, at: Square): (r: seq<Square>)
    requires ValidGrid(g) && OnBoard(at)
    ensures |r| <= 1
    ensures forall s :: s in r ==> OnBoard(s) && At(g, s).None?
  {
    var one := Square(at.row + Forward(side), at.col);
    if 0 <= one.row < Size && At(g, one).None? then [one] else []
  }

  /**
   * Two squares forward, from the start row only, when both squares are
   * empty. The program reads both squares without a bounds check; the start
   * row keeps them on the board.
   */
  function DoublePush(g: Grid, side: Side, at: Square): (r: seq<Square>)
    requires ValidGrid(g) && OnBoard(at)
    ensures |r| <= 1
    ensures forall s :: s in r ==> OnBoard(s) && At(g, s).None? && s.col == at.col
  {
    var one := Square(at.row + Forward(side), at.col);
    var two := Square(at.row + 2 * Forward(side), at.col);
    if at.row == StartRow(side) && At(g, one).None? && At(g, two).None? then [two] else []
  }

  /** Single push, double push from the start row, then the two captures. */
  function PawnMoves(g: Grid, side: Side, at: Square): (moves: seq<Square>)
    requires ValidGrid(g) && OnBoard(at)
    ensures |moves| <= 4
  {
    SinglePush(g, side, at) + DoublePush(g, side, at) + PawnCaptures(g, side, at, [-1, 1])
  }

  /** The four orthogonal rays, in the program's order. */
  function RookMoves(g: Grid, side: Side, at: Square): (moves: seq<Square>)
    requires ValidGrid(g)
    ensures |moves| <= 4 * (Size - 1)
  {
    Ray(g, side, at, Down) + Ray(g, side, at, Up) + Ray(g, side, at, Right) + Ray(g, side, at, Left)
  }

  /** The four diagonal rays, in the program's order. */
  function BishopMoves(g: Grid, side: Side, at: Square): (moves: seq<Square>)
    requires ValidGrid(g)
    ensures |moves| <= 4 * (Size - 1)
  {
    Ray(g, side, at, DownRight) + Ray(g, side, at, DownLeft) + Ray(g, side, at, UpRight) + Ray(g, side, at, UpLeft)
  }

  /**
   * The destinations `get_valid_moves(piece, row, col)` returns when the
   * computer plays `side`. A piece that is not of `side` matches no branch
   * and gets no moves. The program obtains the queen's list by calling
   * itself as a rook and then as a bishop; here the queen's list is the
   * rook's list followed by the bishop's.
   */
  function ValidMoves(g: Grid, side: Side, p: Piece, at: Square): (moves: seq<Square>)
    requires ValidGrid(g) && OnBoard(at)
    ensures forall s :: s in moves ==> OnBoard(s) && !OwnedBy(g, s, side)
  {
    if p.side != side then []
    else
      match p.kind
      case Pawn => PawnMoves(g, side, at)
      case Rook => RookMoves(g, side, at)
      case Knight => Hops(g, side, KnightTargets(at))
      case Bishop => BishopMoves(g, side, at)
      case Queen => RookMoves(g, side, at) + BishopMoves(g, side, at)
      case King => Hops(g, side, KingTargets(at))
  }

  lemma AppendAssoc<T>(a: seq<T>, b: seq<T>, c: seq<T>)
    ensures (a + b) + c == a + (b + c)
  {
  }

  lemma PawnCapturesSnoc(g: Grid, side: Side, at: Square, dcs: seq<int>, k: nat)
    requires ValidGrid(g) && k < |dcs|
    ensures PawnCaptures(g, side, at, dcs[..k + 1])
         == PawnCaptures(g, side, at, dcs[..k]) + Capture(g, side, at, dcs[k])
  {
    assert dcs[..k + 1][..k] == dcs[..k];
  }

  lemma HopsSnoc(g: Grid, side: Side, ts: seq<Square>, i: nat)
    requires ValidGrid(g) && i < |ts|
    ensures Hops(g, side, ts[..i + 1])
         == Hops(g, side, ts[..i]) + (if OnBoard(ts[i]) && !OwnedBy(g, ts[i], side) then [ts[i]] else [])
  {
    assert ts[..i + 1][..i] == ts[..i];
  }

  /** The square a ray would enter next is off the board or held by the mover's side. */
  predicate Blocked(g: Grid, side: Side, t: Square)
    requires ValidGrid(g)
  {
    !OnBoard(t) || OwnedBy(g, t, side)
  }

  /** One step of a ray loop: how the list built so far relates to the whole ray. */
  lemma WalkStep(g: Grid, side: Side, at: Square, d: Dir, i: nat, t: Square, moves: seq<Square>, ray: seq<Square>)
    requires ValidGrid(g) && i < Size && t == Offset(at, d, i)
    requires moves + Walk(g, side, at, d, i) == ray
    ensures Blocked(g, side, t) ==> moves == ray
    ensures !Blocked(g, side, t) && At(g, t).Some? ==> moves + [t] == ray
    ensures !Blocked(g, side, t) && At(g, t).None? ==> (moves + [t]) + Walk(g, side, at, d, i + 1) == ray
  {
    if !Blocked(g, side, t) && At(g, t).None? {
      var rest := Walk(g, side, at, d, i + 1);
      assert Walk(g, side, at, d, i) == [t] + rest;
      assert moves + ([t] + rest) == (moves + [t]) + rest;
    }
  }

  // ---------------------------------------------------------------------
  // The generator as the program runs it: list building with loops.
  // ---------------------------------------------------------------------

  /**
   * One of the eight `for i in range(1, 8)` ray loops. The program leaves
   * the loop with `break`; here `stop` records that and ends the loop.
   */
  method SlideRay(g: Grid, side: Side, at: Square, d: Dir) returns (moves: seq<Square>)
    requires ValidGrid(g)
    ensures moves == Ray(g, side, at, d)
  {
    moves := [];
    ghost var ray := Walk(g, side, at, d, 1);
    var i, stop := 1, false;
    while i < Size && !stop
      invariant 1 <= i <= Size
      invariant stop ==> moves == ray
      invariant !stop ==> moves + Walk(g, side, at, d, i) == ray
    {
      moves, stop := RayStep(g, side, at, d, i, moves, ray);
      i := i + 1;
    }
    if !stop {
      assert Walk(g, side, at, d, i) == [];
    }
  }

  /**
   * The body of a ray loop at distance `i`: a square that is on the board
   * and not the mover's is taken; the walk stops on an occupied square or
   * at a blocked one.
   */
  method RayStep(g: Grid, side: Side, at: Square, d: Dir, i: nat, moves: seq<Square>, ghost ray: seq<Square>)
    returns (moves': seq<Square>, stop: bool)
    requires ValidGrid(g) && i < Size
    requires moves + Walk(g, side, at, d, i) == ray
    ensures stop ==> moves' == ray
    ensures !stop ==> moves' + Walk(g, side, at, d, i + 1) == ray
  {
    var t := Offset(at, d, i);
    WalkStep(g, side, at, d, i, t, moves, ray);
    if OnBoard(t) && !OwnedBy(g, t, side) {
      moves' := moves + [t];
      stop := At(g, t).Some?;
    } else {
      moves', stop := moves, true;
    }
  }

  /** The knight's and king's loop over a fixed list of target squares. */
  method HopMoves(g: Grid, side: Side, ts: seq<Square>) returns (moves: seq<Square>)
    requires ValidGrid(g)
    ensures moves == Hops(g, side, ts)
  {
    moves := [];
    for i := 0 to |ts|
      invariant moves == Hops(g, side, ts[..i])
    {
      var t := ts[i];
      HopsSnoc(g, side, ts, i);
      if OnBoard(t) && !OwnedBy(g, t, side) {
        moves := moves + [t];
      }
    }
    assert ts[..|ts|] == ts;
  }

  /** The pawn branch, including the unguarded double-push reads. */
  method PawnMoveList(g: Grid, side: Side, at: Square) returns (moves: seq<Square>)
    requires ValidGrid(g) && OnBoard(at)
    ensures moves == PawnMoves(g, side, at)
  {
    moves := PawnPushList(g, side, at);
    moves := PawnCaptureList(g, side, at, moves);
  }

  /** The pushes of the pawn branch: one square forward, then two from the start row. */
  method PawnPushList(g: Grid, side: Side, at: Square) returns (moves: seq<Square>)
    requires ValidGrid(g) && OnBoard(at)
    ensures moves == SinglePush(g, side, at) + DoublePush(g, side, at)
  {
    var direction, startRow := Forward(side), StartRow(side);
    moves := [];
    var next := Square(at.row + direction, at.col);
    if 0 <= next.row < Size && At(g, next).None? {
      moves := moves + [next];
    }
    var twoAhead := Square(at.row + 2 * direction, at.col);
    if at.row == startRow && At(g, next).None? && At(g, twoAhead).None? {
      moves := moves + [twoAhead];
    }
  }

  /** The capture loop of the pawn branch: the left diagonal, then the right, appended to `pushes`. */
  method PawnCaptureList(g: Grid, side: Side, at: Square, pushes: seq<Square>) returns (moves: seq<Square>)
    requires ValidGrid(g) && OnBoard(at)
    ensures moves == pushes + PawnCaptures(g, side, at, [-1, 1])
  {
    var direction := Forward(side);
    moves := pushes;
    var dcs := [-1, 1];
    for k := 0 to |dcs|
      invariant moves == pushes + PawnCaptures(g, side, at, dcs[..k])
    {
      var capture := Square(at.row + direction, at.col + dcs[k]);
      PawnCapturesSnoc(g, side, at, dcs, k);
      AppendAssoc(pushes, PawnCaptures(g, side, at, dcs[..k]), Capture(g, side, at, dcs[k]));
      if OnBoard(capture) && HoldsOpponentOf(g, capture, side) {
        assert Capture(g, side, at, dcs[k]) == [capture];
        moves := moves + [capture];
      } else {
        assert Capture(g, side, at, dcs[k]) == [];
      }
    }
    assert dcs[..|dcs|] == dcs;
  }

  /** `get_valid_moves`: dispatch on the piece; the queen asks as rook, then as bishop. */
  method GetValidMoves(g: Grid, side: Side, p: Piece, at: Square) returns (moves: seq<Square>)
    requires ValidGrid(g) && OnBoard(at)
    ensures moves == ValidMoves(g, side, p, at)
    decreases if p.kind == Queen then 1 else 0
  {
    moves := [];
    if p == Piece(Pawn, side) {
      moves := PawnMoveList(g, side, at);
    } else if p == Piece(Rook, side) {
      var down := SlideRay(g, side, at, Down);
      var up := SlideRay(g, side, at, Up);
      var right := SlideRay(g, side, at, Right);
      var left := SlideRay(g, side, at, Left);
      moves := down + up + right + left;
      assert moves == RookMoves(g, side, at);
    } else if p == Piece(Knight, side) {
      moves := HopMoves(g, side, KnightTargets(at));
    } else if p == Piece(Bishop, side) {
      var downRight := SlideRay(g, side, at, DownRight);
      var downLeft := SlideRay(g, side, at, DownLeft);
      var upRight := SlideRay(g, side, at, UpRight);
      var upLeft := SlideRay(g, side, at, UpLeft);
      moves := downRight + downLeft + upRight + upLeft;
      assert moves == BishopMoves(g, side, at);
    } else if p == Piece(Queen, side) {
      var asRook := GetValidMoves(g, side, Piece(Rook, side), at);
      var asBishop := GetValidMoves(g, side, Piece(Bishop, side), at);
      moves := asRook + asBishop;
    } else if p == Piece(King, side) {
      moves := HopMoves(g, side, KingTargets(at));
    }
  }

  // ---------------------------------------------------------------------
  // Properties of the generator.
  // ---------------------------------------------------------------------

  /** The squares of a ray walked from distance `k` are the steps `k, k + 1, ...` from `at`. */
  lemma {:induction false} WalkSquares(g: Grid, side: Side, at: Square, d: Dir, k: nat)
    requires ValidGrid(g) && 1 <= k
    ensures forall j :: 0 <= j < |Walk(g, side, at, d, k)| ==> Walk(g, side, at, d, k)[j] == Offset(at, d, k + j)
    decreases Size - k
  {
    if k >= Size {
      assert Walk(g, side, at, d, k) == [];
    } else {
      var t := Offset(at, d, k);
      if Blocked(g, side, t) {
        assert Walk(g, side, at, d, k) == [];
      } else if At(g, t).Some? {
        assert Walk(g, side, at, d, k) == [t];
      } else {
        WalkSquares(g, side, at, d, k + 1);
        var rest := Walk(g, side, at, d, k + 1);
        var ray := [t] + rest;
        assert Walk(g, side, at, d, k) == ray;
        forall j | 0 <= j < |ray|
          ensures ray[j] == Offset(at, d, k + j)
        {
          if j > 0 {
            assert ray[j] == rest[j - 1] == Offset(at, d, k + 1 + (j - 1));
          }
        }
      }
    }
  }

  lemma {:induction false} WalkEmptyBeforeLast(g: Grid, side: Side, at: Square, d: Dir, k: nat)
    requires ValidGrid(g)
    ensures forall j :: 0 <= j < |Walk(g, side, at, d, k)| - 1 ==>
      OnBoard(Walk(g, side, at, d, k)[j]) && At(g, Walk(g, side, at, d, k)[j]).None?
    decreases Size - k
  {
    if k < Size {
      var t := Offset(at, d, k);
      if OnBoard(t) && !OwnedBy(g, t, side) && At(g, t).None? {
        WalkEmptyBeforeLast(g, side, at, d, k + 1);
        var rest := Walk(g, side, at, d, k + 1);
        var ray := [t] + rest;
        assert Walk(g, side, at, d, k) == ray;
        forall j | 0 <= j < |ray| - 1
          ensures OnBoard(ray[j]) && At(g, ray[j]).None?
        {
          if j > 0 {
            assert ray[j] == rest[j - 1];
          }
        }
      }
    }
  }

  /**
   * `ray`, walked from distance `k`, ended for one of the program's reasons:
   * the distance bound, a captured opposing piece, or a next square off the
   * board or held by the mover's side.
   */
  predicate Stopped(g: Grid, side: Side, at: Square, d: Dir, k: int, ray: seq<Square>)
    requires ValidGrid(g) && forall s :: s in ray ==> OnBoard(s)
  {
    || k + |ray| >= Size
    || (|ray| > 0 && At(g, ray[|ray| - 1]).Some?)
    || Blocked(g, side, Offset(at, d, k + |ray|))
  }

  lemma StoppedCons(g: Grid, side: Side, at: Square, d: Dir, k: int, t: Square, rest: seq<Square>)
    requires ValidGrid(g) && OnBoard(t) && forall s :: s in rest ==> OnBoard(s)
    requires Stopped(g, side, at, d, k + 1, rest)
    ensures Stopped(g, side, at, d, k, [t] + rest)
  {
    var ray := [t] + rest;
    assert k + |ray| == (k + 1) + |rest|;
    if |rest| > 0 {
      assert ray[|ray| - 1] == rest[|rest| - 1];
    }
  }

  lemma {:induction false} WalkStops(g: Grid, side: Side, at: Square, d: Dir, k: nat)
    requires ValidGrid(g)
    ensures Stopped(g, side, at, d, k, Walk(g, side, at, d, k))
    decreases Size - k
  {
    if k < Size {
      var t := Offset(at, d, k);
      if Blocked(g, side, t) {
        assert Walk(g, side, at, d, k) == [];
      } else if At(g, t).Some? {
        assert Walk(g, side, at, d, k) == [t];
      } else {
        WalkStops(g, side, at, d, k + 1);
        var rest := Walk(g, side, at, d, k + 1);
        StoppedCons(g, side, at, d, k, t, rest);
        assert Walk(g, side, at, d, k) == [t] + rest;
      }
    }
  }

  /**
   * The exact shape of a ray: its squares are the consecutive steps
   * `1, 2, ...` away from `at`, each on the board and not the mover's; all
   * but the last are empty; and the walk stopped because the distance bound
   * was reached, the last square holds an opposing piece, or the next square
   * is off the board or held by the mover's side.
   */
  lemma RayShape(g: Grid, side: Side, at: Square, d: Dir)
    requires ValidGrid(g)
    ensures forall j :: 0 <= j < |Ray(g, side, at, d)| ==>
      Ray(g, side, at, d)[j] == Offset(at, d, j + 1) && !OwnedBy(g, Ray(g, side, at, d)[j], side)
    ensures forall j :: 0 <= j < |Ray(g, side, at, d)| - 1 ==> At(g, Ray(g, side, at, d)[j]).None?
    ensures Stopped(g, side, at, d, 1, Ray(g, side, at, d))
  {
    WalkSquares(g, side, at, d, 1);
    WalkEmptyBeforeLast(g, side, at, d, 1);
    WalkStops(g, side, at, d, 1);
  }

  /** The queen's list is the rook's list followed by the bishop's. */
  lemma QueenIsRookThenBishop(g: Grid, side: Side, queen: Piece, rook: Piece, bishop: Piece, at: Square)
    requires ValidGrid(g) && OnBoard(at)
    requires queen.side == side && queen.kind == Queen
    requires rook.side == side && rook.kind == Rook
    requires bishop.side == side && bishop.kind == Bishop
    ensures ValidMoves(g, side, queen, at) == ValidMoves(g, side, rook, at) + ValidMoves(g, side, bishop, at)
  {
  }

  /** The capture loop tries the left diagonal, then the right. */
  lemma PawnCapturesBoth(g: Grid, side: Side, at: Square)
    requires ValidGrid(g)
    ensures PawnCaptures(g, side, at, [-1, 1]) == Capture(g, side, at, -1) + Capture(g, side, at, 1)
  {
    assert [-1, 1][..1] == [-1];
    assert [-1][..0] == [];
    assert PawnCaptures(g, side, at, [-1]) == [] + Capture(g, side, at, -1);
    assert PawnCaptures(g, side, at, [-1, 1]) == PawnCaptures(g, side, at, [-1]) + Capture(g, side, at, 1);
  }

  /**
   * A pawn's destinations: the forward square if empty; two squares forward
   * only from the start row with both squares empty; a forward diagonal
   * square only when it holds an opposing piece.
   */
  lemma PawnMovesExact(g: Grid, side: Side, pawn: Piece, at: Square, s: Square)
    requires ValidGrid(g) && OnBoard(at) && pawn.side == side && pawn.kind == Pawn
    ensures s in ValidMoves(g, side, pawn, at) <==>
      || (s == Square(at.row + Forward(side), at.col) && OnBoard(s) && At(g, s).None?)
      || (at.row == StartRow(side) && s == Square(at.row + 2 * Forward(side), at.col)
          && At(g, Square(at.row + Forward(side), at.col)).None? && OnBoard(s) && At(g, s).None?)
      || (s.row == at.row + Forward(side) && (s.col == at.col - 1 || s.col == at.col + 1)
          && OnBoard(s) && HoldsOpponentOf(g, s, side))
  {
    var one := Square(at.row + Forward(side), at.col);
    var two := Square(at.row + 2 * Forward(side), at.col);
    var left, right := Capture(g, side, at, -1), Capture(g, side, at, 1);
    assert ValidMoves(g, side, pawn, at) == PawnMoves(g, side, at);
    PawnCapturesBoth(g, side, at);
    assert s in PawnMoves(g, side, at) <==>
      s in SinglePush(g, side, at) || s in DoublePush(g, side, at) || s in left || s in right;
    PushesExact(g, side, at, s);
    CaptureExact(g, side, at, -1, s);
    CaptureExact(g, side, at, 1, s);
  }

  lemma PushesExact(g: Grid, side: Side, at: Square, s: Square)
    requires ValidGrid(g) && OnBoard(at)
    ensures s in SinglePush(g, side, at) <==>
      s == Square(at.row + Forward(side), at.col) && OnBoard(s) && At(g, s).None?
    ensures s in DoublePush(g, side, at) <==>
      && at.row == StartRow(side) && s == Square(at.row + 2 * Forward(side), at.col)
      && At(g, Square(at.row + Forward(side), at.col)).None? && OnBoard(s) && At(g, s).None?
  {
  }

  lemma CaptureExact(g: Grid, side: Side, at: Square, dc: int, s: Square)
    requires ValidGrid(g)
    ensures s in Capture(g, side, at, dc) <==>
      s == Square(at.row + Forward(side), at.col + dc) && OnBoard(s) && HoldsOpponentOf(g, s, side)
  {
  }

  /** The double push reads only squares on the board. */
  lemma DoublePushInBounds(side: Side, at: Square)
    requires OnBoard(at) && at.row == StartRow(side)
    ensures OnBoard(Square(at.row + Forward(side), at.col))
    ensures OnBoard(Square(at.row + 2 * Forward(side), at.col))
  {
  }

  /** Knight destinations are exactly the on-board, not-own squares of its offset list. */
  lemma KnightMovesExact(g: Grid, side: Side, knight: Piece, at: Square, s: Square)
    requires ValidGrid(g) && OnBoard(at) && knight.side == side && knight.kind == Knight
    ensures s in ValidMoves(g, side, knight, at) <==>
      s in KnightTargets(at) && OnBoard(s) && !OwnedBy(g, s, side)
  {
  }

  /** King destinations are exactly the on-board, not-own squares of its offset list. */
  lemma KingMovesExact(g: Grid, side: Side, king: Piece, at: Square, s: Square)
    requires ValidGrid(g) && OnBoard(at) && king.side == side && king.kind == King
    ensures s in ValidMoves(g, side, king, at) <==>
      s in KingTargets(at) && OnBoard(s) && !OwnedBy(g, s, side)
  {
  }

  /** From the corner a knight reaches at most two squares and a king at most three. */
  lemma CornerMoves(g: Grid, side: Side, knight: Piece, king: Piece, corner: Square)
    requires ValidGrid(g) && corner.row == 0 && corner.col == 0
    requires knight.side == side && knight.kind == Knight && king.side == side && king.kind == King
    ensures forall s :: s in ValidMoves(g, side, knight, corner) ==>
      s == Square(2, 1) || s == Square(1, 2)
    ensures forall s :: s in ValidMoves(g, side, king, corner) ==>
      s == Square(1, 0) || s == Square(0, 1) || s == Square(1, 1)
  {
  }
}
