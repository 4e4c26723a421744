/** Queen.java: the eight rays of the shared slider walk, each landing
    square tried with `testMoveSafety`, and a geometric `canMove` that only
    reads the board. */
module QueenRules {
  import opened Wrappers
  import opened Pieces
  import opened BoardValue
  import opened Attacks
  import opened Lines
  import opened Chessboard
  import opened Sliding
  import opened JavaInt

  /** The directions of `pieceMovement`, in the order it walks them:
      vertical, horizontal, then diagonal. */
  const QueenDirections: seq<(int, int)> :=
    [(-1, 0), (1, 0), (0, -1), (0, 1), (-1, -1), (-1, 1), (1, -1), (1, 1)]

  /** `pieceMovement` of a queen, as a list of squares. */
  function QueenMoves(g: Grid, q: Piece): seq<Square>
  {
    SlideMoves(g, q, QueenDirections)
  }

  /** `pieceMovement`: the eight rays, each candidate tried with
      `testMoveSafety` on the shared board. */
  method QueenPieceMovement(board: Board, q: Piece) returns (moves: seq<Square>)
    requires board.Valid() && Get(board.grid, q.row, q.col) == Some(q)
    modifies board, board.cells
    ensures board.Valid() && board.cells == old(board.cells)
    ensures board.grid == SlideAfter(old(board.grid), q, QueenDirections)
    ensures moves == QueenMoves(old(board.grid), q)
  {
    moves := SlidePieceMovement(board, q, QueenDirections);
  }

  /** The queen's moves by geometry: another square of the board on a row,
      a column or a diagonal through the queen, nothing strictly between,
      empty or an enemy other than a king, and leaving the queen's side out
      of check. */
  lemma QueenMovesExactly(g: Grid, q: Piece, t: Square)
    requires IsValidPosition(q.row, q.col)
    ensures var f := (q.row, q.col);
            t in QueenMoves(g, q) <==>
              IsValidPosition(t.0, t.1) && t != f && Aligned(f, t)
              && ClearBetween(g, f, t) && Lands(Get(g, t.0, t.1), q) && LeavesKingSafe(g, q, t)
  {
    var f := (q.row, q.col);
    SlideMovesGeometry(g, q, QueenDirections, t);
    assert t != f ==> (Sign(t.0 - f.0), Sign(t.1 - f.1)) in QueenDirections;
  }

  /** How the loop of `canMove` ends: its answer, and how many squares it
      has stood on, the one it stops on included. */
  datatype WalkEnd = WalkEnd(answer: bool, squares: nat)

  /** The loop of `canMove` standing on (r, c), the k-th square of its
      walk: it stops on the target, answering whether the target is free or
      an enemy, or on an occupied square, answering false; squares off the
      board read as empty.  The position is a pair of Java `int`s, so the
      walk wraps round the `int` range: after 2^32 squares it is back on its
      origin and repeats itself, and `None` is a loop that never ends. */
  function QueenWalk(g: Grid, color: Color, r: int, c: int, t: Square, rs: int, cs: int, k: nat): Option<WalkEnd>
    requires IsInt32(r) && IsInt32(c) && -1 <= rs <= 1 && -1 <= cs <= 1
    requires 1 <= k <= Modulus
    decreases Modulus - k
  {
    if (r, c) == t then Some(WalkEnd(FreeOrEnemy(g, t, color), k))
    else if Get(g, r, c).Some? then Some(WalkEnd(false, k))
    else if k == Modulus then None
    else QueenWalk(g, color, AddInt32(r, rs), AddInt32(c, cs), t, rs, cs, k + 1)
  }

  /** `canMove` as written, with `None` where it never returns.  The test
      of line 61 compares the signs of the displacement, so it always holds,
      and a target off every line through the origin is handed to the loop,
      which steps diagonally past it round the whole `int` range. */
  function QueenCanMoveAsWritten(g: Grid, q: Piece, fr: int, fc: int, tr: int, tc: int): Option<bool>
    requires IsInt32(fr) && IsInt32(fc)
  {
    if !IsValidPosition(tr, tc) then Some(false)
    else
      var rs, cs := Sign(tr - fr), Sign(tc - fc);
      if rs == 0 || cs == 0 || Abs(rs) == Abs(cs) then
        match QueenWalk(g, q.color, AddInt32(fr, rs), AddInt32(fc, cs), (tr, tc), rs, cs, 1)
        case Some(w) => Some(w.answer)
        case None => None
      else Some(false)
  }

  /** `canMove` with the alignment the comment of line 60 asks for: a target
      on the board, on a row, a column or a diagonal through the origin,
      reached by a clear walk, and empty or of the other colour.  Neither
      a king on the target nor the safety of the own king is looked at. */
  function QueenCanMove(g: Grid, q: Piece, fr: int, fc: int, tr: int, tc: int): bool
  {
    if IsValidPosition(tr, tc) && Aligned((fr, fc), (tr, tc)) then
      var rs, cs := Sign(tr - fr), Sign(tc - fc);
      PathClear(g, fr + rs, fc + cs, (tr, tc), rs, cs) && FreeOrEnemy(g, (tr, tc), q.color)
    else false
  }

  /** `canMove` stated without the walk. */
  lemma QueenCanMoveExactly(g: Grid, q: Piece, fr: int, fc: int, tr: int, tc: int)
    ensures QueenCanMove(g, q, fr, fc, tr, tc) <==>
            IsValidPosition(tr, tc) && Aligned((fr, fc), (tr, tc))
            && ClearBetween(g, (fr, fc), (tr, tc)) && FreeOrEnemy(g, (tr, tc), q.color)
  {
    if Aligned((fr, fc), (tr, tc)) {
      WalkClearsBetween(g, (fr, fc), (tr, tc));
    }
  }

  /** k steps of size d, d being -1, 0 or 1. */
  function Scaled(k: int, d: int): int
    requires -1 <= d <= 1
  {
    if d == 1 then k else if d == -1 then -k else 0
  }

  /** Where the walk from f in direction (rs, cs) stands after k steps. */
  function WalkSquare(f: Square, rs: int, cs: int, k: int): Square
    requires -1 <= rs <= 1 && -1 <= cs <= 1
  {
    (Wrap32(f.0 + Scaled(k, rs)), Wrap32(f.1 + Scaled(k, cs)))
  }

  /** Only f is occupied. */
  ghost predicate OnlyPieceOn(g: Grid, f: Square)
  {
    forall r, c :: Get(g, r, c).Some? ==> (r, c) == f
  }

  /** One more `int` step is one more step of the wrapped walk. */
  lemma WalkSquareNext(f: Square, rs: int, cs: int, k: int)
    requires -1 <= rs <= 1 && -1 <= cs <= 1
    ensures var s := WalkSquare(f, rs, cs, k);
            (AddInt32(s.0, rs), AddInt32(s.1, cs)) == WalkSquare(f, rs, cs, k + 1)
  {
    AddWraps(f.0 + Scaled(k, rs), rs);
    AddWraps(f.1 + Scaled(k, cs), cs);
  }

  /** The first step of the loop, `fromRow + rowStep`, from an `int` origin. */
  lemma WalkSquareFirst(f: Square, rs: int, cs: int)
    requires IsInt32(f.0) && IsInt32(f.1) && -1 <= rs <= 1 && -1 <= cs <= 1
    ensures (AddInt32(f.0, rs), AddInt32(f.1, cs)) == WalkSquare(f, rs, cs, 1)
  {
    WrapOfInt32(f.0);
    WrapOfInt32(f.1);
    WalkSquareNext(f, rs, cs, 0);
  }

  /** After 2^32 steps the walk is back on its origin. */
  lemma WalkSquareFullTurn(f: Square, rs: int, cs: int)
    requires IsInt32(f.0) && IsInt32(f.1) && (rs == 1 || rs == -1) && (cs == 1 || cs == -1)
    ensures WalkSquare(f, rs, cs, Modulus) == f
  {
    WrapPeriodic(f.0);
    WrapPeriodic(f.1);
    WrapOfInt32(f.0);
    WrapOfInt32(f.1);
  }

  /** A walk that stands on x after k steps of size d from x0 has gone
      the distance from x0 to x, modulo 2^32. */
  lemma WalkCoordinateCongruent(x0: int, x: int, d: int, k: int)
    requires IsInt32(x) && (d == 1 || d == -1) && Wrap32(x0 + Scaled(k, d)) == x
    ensures (Scaled(x - x0, d) - k) % Modulus == 0
  {
    assert (x - (x0 + Scaled(k, d))) % Modulus == 0;
  }

  /** A diagonal walk from a square of the board never stands on a square
      of the board off that diagonal: in k steps it has gone k squares
      along each axis, modulo 2^32. */
  lemma WalkSquareMisses(f: Square, t: Square, rs: int, cs: int, k: int)
    requires IsValidPosition(f.0, f.1) && IsValidPosition(t.0, t.1)
    requires (rs == 1 || rs == -1) && (cs == 1 || cs == -1)
    requires Scaled(t.0 - f.0, rs) != Scaled(t.1 - f.1, cs)
    ensures WalkSquare(f, rs, cs, k) != t
  {
    if WalkSquare(f, rs, cs, k) == t {
      var a, b := Scaled(t.0 - f.0, rs), Scaled(t.1 - f.1, cs);
      WalkCoordinateCongruent(f.0, t.0, rs, k);
      WalkCoordinateCongruent(f.1, t.1, cs, k);
      SameRemainder(a, b, k);
      CongruentInt32(a, b);
      assert false;
    }
  }

  /** Short of a whole turn, the walk is off its origin. */
  lemma WalkSquareLeavesOrigin(f: Square, rs: int, cs: int, k: int)
    requires IsInt32(f.0) && (rs == 1 || rs == -1) && (cs == 1 || cs == -1)
    requires 1 <= k < Modulus
    ensures WalkSquare(f, rs, cs, k) != f
  {
    if WalkSquare(f, rs, cs, k).0 == f.0 {
      WalkCoordinateCongruent(f.0, f.0, rs, k);
      assert false;
    }
  }

  /** A walk off every line through an occupied square of the board
      misses its target and answers false: at the latest after 2^32 squares,
      back on its origin, and exactly then when nothing else is on the board. */
  lemma {:induction false} WalkReturnsToOrigin(g: Grid, color: Color, f: Square, t: Square, rs: int, cs: int, k: nat)
    requires IsValidPosition(f.0, f.1) && IsValidPosition(t.0, t.1) && Get(g, f.0, f.1).Some?
    requires (rs == 1 || rs == -1) && (cs == 1 || cs == -1)
    requires Scaled(t.0 - f.0, rs) != Scaled(t.1 - f.1, cs)
    requires 1 <= k <= Modulus
    ensures var s := WalkSquare(f, rs, cs, k);
            var w := QueenWalk(g, color, s.0, s.1, t, rs, cs, k);
            w.Some? && !w.value.answer && (OnlyPieceOn(g, f) ==> w.value.squares == Modulus)
    decreases Modulus - k
  {
    var s := WalkSquare(f, rs, cs, k);
    WalkSquareMisses(f, t, rs, cs, k);
    if k == Modulus {
      WalkSquareFullTurn(f, rs, cs);
    } else {
      WalkSquareLeavesOrigin(f, rs, cs, k);
      WalkSquareNext(f, rs, cs, k);
      WalkReturnsToOrigin(g, color, f, t, rs, cs, k + 1);
    }
  }

  /** Along a line the walk is plain stepping: no `int` overflows between
      an `int` square and a target on the board, and the loop answers as
      the walk `PathClear` does. */
  lemma {:induction false} WalkFollowsPath(g: Grid, color: Color, r: int, c: int, t: Square, rs: int, cs: int, k: nat)
    requires IsInt32(r) && IsInt32(c) && IsValidPosition(t.0, t.1)
    requires -1 <= rs <= 1 && -1 <= cs <= 1 && Ahead(r, c, t, rs, cs)
    requires 1 <= k && k + Abs(t.0 - r) <= Modulus && k + Abs(t.1 - c) <= Modulus
    ensures var w := QueenWalk(g, color, r, c, t, rs, cs, k);
            w.Some? && w.value.answer == (PathClear(g, r, c, t, rs, cs) && FreeOrEnemy(g, t, color))
    decreases Abs(t.0 - r) + Abs(t.1 - c)
  {
    if (r, c) == t {
      assert QueenWalk(g, color, r, c, t, rs, cs, k) == Some(WalkEnd(FreeOrEnemy(g, t, color), k));
    } else if Get(g, r, c).Some? {
      assert QueenWalk(g, color, r, c, t, rs, cs, k) == Some(WalkEnd(false, k));
    } else {
      WalkStepsOn(g, color, r, c, t, rs, cs, k);
      WalkFollowsPath(g, color, r + rs, c + cs, t, rs, cs, k + 1);
    }
  }

  /** Past an empty square short of the target, the walk goes on from the
      next square by plain addition. */
  lemma WalkStepsOn(g: Grid, color: Color, r: int, c: int, t: Square, rs: int, cs: int, k: nat)
    requires IsInt32(r) && IsInt32(c) && IsValidPosition(t.0, t.1)
    requires -1 <= rs <= 1 && -1 <= cs <= 1 && Ahead(r, c, t, rs, cs) && (r, c) != t && Get(g, r, c).None?
    requires 1 <= k && k + Abs(t.0 - r) <= Modulus && k + Abs(t.1 - c) <= Modulus
    ensures IsInt32(r + rs) && IsInt32(c + cs) && Ahead(r + rs, c + cs, t, rs, cs)
    ensures k + 1 + Abs(t.0 - (r + rs)) <= Modulus && k + 1 + Abs(t.1 - (c + cs)) <= Modulus
    ensures Abs(t.0 - (r + rs)) + Abs(t.1 - (c + cs)) < Abs(t.0 - r) + Abs(t.1 - c)
    ensures QueenWalk(g, color, r, c, t, rs, cs, k) == QueenWalk(g, color, r + rs, c + cs, t, rs, cs, k + 1)
    ensures PathClear(g, r, c, t, rs, cs) == PathClear(g, r + rs, c + cs, t, rs, cs)
  {
    AheadNext(r, c, t, rs, cs);
    StepTowards(r, t.0);
    StepTowards(c, t.1);
  }

  /** One `int` step from x towards a column or row t of the board does not
      overflow, and leaves less than 2^32 to go. */
  lemma StepTowards(x: int, t: int)
    requires IsInt32(x) && 0 <= t < 8
    ensures var d := Sign(t - x);
            AddInt32(x, d) == x + d && 1 + Abs(t - (x + d)) <= Modulus
  {
  }

  /** The first step of the loop towards an aligned target on the board:
      plain addition, a square from which the target lies ahead, and less
      than 2^32 squares to go. */
  lemma FirstStep(fr: int, fc: int, t: Square)
    requires IsInt32(fr) && IsInt32(fc) && IsValidPosition(t.0, t.1) && Aligned((fr, fc), t)
    ensures var rs, cs := Sign(t.0 - fr), Sign(t.1 - fc);
            && AddInt32(fr, rs) == fr + rs && AddInt32(fc, cs) == fc + cs
            && IsInt32(fr + rs) && IsInt32(fc + cs)
            && 1 + Abs(t.0 - (fr + rs)) <= Modulus && 1 + Abs(t.1 - (fc + cs)) <= Modulus
            && Ahead(fr + rs, fc + cs, t, rs, cs)
  {
    StepTowards(fr, t.0);
    StepTowards(fc, t.1);
    FirstStepAhead((fr, fc), t);
  }

  /** The loop of `canMove` from an `int` origin towards an aligned target
      on the board answers as the clear-path walk does. */
  lemma AlignedWalk(g: Grid, color: Color, fr: int, fc: int, t: Square)
    requires IsInt32(fr) && IsInt32(fc) && IsValidPosition(t.0, t.1) && Aligned((fr, fc), t)
    ensures var rs, cs := Sign(t.0 - fr), Sign(t.1 - fc);
            var w := QueenWalk(g, color, AddInt32(fr, rs), AddInt32(fc, cs), t, rs, cs, 1);
            Ahead(fr + rs, fc + cs, t, rs, cs)
            && w.Some? && w.value.answer == (PathClear(g, fr + rs, fc + cs, t, rs, cs) && FreeOrEnemy(g, t, color))
  {
    var rs, cs := Sign(t.0 - fr), Sign(t.1 - fc);
    FirstStep(fr, fc, t);
    var r1, c1 := AddInt32(fr, rs), AddInt32(fc, cs);
    assert r1 == fr + rs && c1 == fc + cs;
    WalkFollowsPath(g, color, r1, c1, t, rs, cs, 1);
  }

  /** On every target on a line through the origin, and on every target
      off the board, the code as written answers, and answers as the
      aligned `canMove` does. */
  lemma QueenCanMoveAgreesWhenAligned(g: Grid, q: Piece, fr: int, fc: int, tr: int, tc: int)
    requires IsInt32(fr) && IsInt32(fc)
    requires Aligned((fr, fc), (tr, tc)) || !IsValidPosition(tr, tc)
    ensures QueenCanMoveAsWritten(g, q, fr, fc, tr, tc) == Some(QueenCanMove(g, q, fr, fc, tr, tc))
  {
    if IsValidPosition(tr, tc) {
      AlignedWalk(g, q.color, fr, fc, (tr, tc));
    }
  }

  /** With a piece on the origin, as there always is when a queen is asked
      about its own square, the code as written answers on every target,
      and answers as the aligned `canMove` does: a target off every line
      costs a walk round the `int` range that ends on the origin. */
  lemma QueenCanMoveAsWrittenAgrees(g: Grid, q: Piece, fr: int, fc: int, tr: int, tc: int)
    requires IsValidPosition(fr, fc) && Get(g, fr, fc).Some?
    ensures QueenCanMoveAsWritten(g, q, fr, fc, tr, tc) == Some(QueenCanMove(g, q, fr, fc, tr, tc))
  {
    if IsValidPosition(tr, tc) && !Aligned((fr, fc), (tr, tc)) {
      var rs, cs := Sign(tr - fr), Sign(tc - fc);
      WalkSquareFirst((fr, fc), rs, cs);
      WalkReturnsToOrigin(g, q.color, (fr, fc), (tr, tc), rs, cs, 1);
    } else {
      QueenCanMoveAgreesWhenAligned(g, q, fr, fc, tr, tc);
    }
  }

  /** A lone white queen on (0, 0) asked about the knight-jump square
      (1, 2): the code as written answers false, but only after its walk
      has stood on 2^32 squares, the last of them the queen's own. */
  lemma QueenCanMoveWalksFullTurn()
    ensures var q := NewPiece(Queen, White, 0, 0);
            var g := Set(EmptyGrid(), 0, 0, Some(q));
            QueenWalk(g, White, AddInt32(0, 1), AddInt32(0, 1), (1, 2), 1, 1, 1) == Some(WalkEnd(false, Modulus))
            && QueenCanMoveAsWritten(g, q, 0, 0, 1, 2) == Some(false)
  {
    var q := NewPiece(Queen, White, 0, 0);
    var g := Set(EmptyGrid(), 0, 0, Some(q));
    assert OnlyPieceOn(g, (0, 0));
    WalkSquareFirst((0, 0), 1, 1);
    WalkReturnsToOrigin(g, White, (0, 0), (1, 2), 1, 1, 1);
  }

  /** The kings of the queen tests: white on (7, 4), black on (0, 4). */
  function QueenTestBoard(): Grid
  {
    Set(Set(EmptyGrid(), 7, 4, Some(NewPiece(King, White, 7, 4))), 0, 4, Some(NewPiece(King, Black, 0, 4)))
  }

  /** The board of the pin test after the queen has gone from (2, 4) to
      (2, 3), square by square. */
  ghost predicate PinAfterCells(g: Grid)
  {
    forall r, c :: Get(g, r, c) ==
      if (r, c) == (7, 4) then Some(NewPiece(King, White, 7, 4))
      else if (r, c) == (0, 4) then Some(NewPiece(King, Black, 0, 4))
      else if (r, c) == (2, 1) then Some(NewPiece(King, White, 2, 1))
      else if (r, c) == (2, 6) then Some(NewPiece(Rook, Black, 2, 6))
      else if (r, c) == (2, 3) then Some(Piece(Queen, White, 2, 3, true))
      else None
  }

  /** On that board the rook's rays are blocked by the queen, so neither
      white king is attacked. */
  lemma PinAfterSafe(g: Grid)
    requires PinAfterCells(g)
    ensures !InCheck(g, White)
  {
    PinAfterKingSafe(g, 7, 4);
    PinAfterKingSafe(g, 2, 1);
  }

  lemma PinAfterKingSafe(g: Grid, r: int, c: int)
    requires PinAfterCells(g) && (r, c) in {(7, 4), (2, 1)}
    ensures !Attacked(g, r, c, Black)
  {
    assert Get(g, 2, 2).None? && Get(g, 2, 3).Some?;
    assert !PathClear(g, 2, 2, (2, 6), 0, 1);
    forall i | 0 <= i < 4
      ensures !RayHit(g, r, c, Straight[i].0, Straight[i].1, Black, true)
    {
      RayHitOnlyFromRook(g, Black, (2, 6), r, c, Straight[i].0, Straight[i].1);
    }
    AttackedOnlyStraight(g, Black, r, c);
  }

  /** The board of the pin test: the two kings, a second white king on
      (2, 1), a black rook on (2, 6) and the white queen on (2, 4). */
  function PinBoard(): Grid
  {
    Set(Set(Set(QueenTestBoard(), 2, 1, Some(NewPiece(King, White, 2, 1))),
            2, 6, Some(NewPiece(Rook, Black, 2, 6))), 2, 4, Some(NewPiece(Queen, White, 2, 4)))
  }

  /** That board square by square. */
  ghost predicate PinCells(g: Grid)
  {
    forall r, c :: Get(g, r, c) ==
      if (r, c) == (7, 4) then Some(NewPiece(King, White, 7, 4))
      else if (r, c) == (0, 4) then Some(NewPiece(King, Black, 0, 4))
      else if (r, c) == (2, 1) then Some(NewPiece(King, White, 2, 1))
      else if (r, c) == (2, 6) then Some(NewPiece(Rook, Black, 2, 6))
      else if (r, c) == (2, 4) then Some(NewPiece(Queen, White, 2, 4))
      else None
  }

  /** The pin test: a white queen on (2, 4) between a second white king on
      (2, 1) and a black rook on (2, 6) may still move along the pinning
      line to (2, 3). */
  lemma QueenMovesAlongPin()
    ensures (2, 3) in QueenMoves(PinBoard(), NewPiece(Queen, White, 2, 4))
  {
    assert PinCells(PinBoard());
    QueenAlongPinOn(PinBoard());
  }

  lemma QueenAlongPinOn(g: Grid)
    requires PinCells(g)
    ensures (2, 3) in QueenMoves(g, NewPiece(Queen, White, 2, 4))
  {
    var q := NewPiece(Queen, White, 2, 4);
    QueenMovesExactly(g, q, (2, 3));
    PinMoveLeaves(g);
    PinAfterSafe(AfterMove(g, 2, 4, 2, 3));
    assert ClearBetween(g, (2, 4), (2, 3));
  }

  lemma PinMoveLeaves(g: Grid)
    requires PinCells(g)
    ensures PinAfterCells(AfterMove(g, 2, 4, 2, 3))
  {
    AfterMoveEffect(g, 2, 4, 2, 3);
  }

  /** The board of the blocking test: the two kings, a white pawn on
      (4, 6) and the white queen on (4, 4). */
  function BlockBoard(q: Piece): Grid
  {
    Set(Set(QueenTestBoard(), 4, 6, Some(NewPiece(Pawn, White, 4, 6))), 4, 4, Some(q))
  }

  /** That board square by square. */
  ghost predicate BlockCells(g: Grid)
  {
    forall r, c :: Get(g, r, c) ==
      if (r, c) == (7, 4) then Some(NewPiece(King, White, 7, 4))
      else if (r, c) == (0, 4) then Some(NewPiece(King, Black, 0, 4))
      else if (r, c) == (4, 6) then Some(NewPiece(Pawn, White, 4, 6))
      else if (r, c) == (4, 4) then Some(NewPiece(Queen, White, 4, 4))
      else None
  }

  /** A white pawn on (4, 6) stops the queen on (4, 4): (4, 5) is reached,
      the pawn's square and the square behind it are not. */
  lemma QueenStopsAtOwnPiece()
    ensures var q := NewPiece(Queen, White, 4, 4);
            (4, 5) in QueenMoves(BlockBoard(q), q)
            && (4, 6) !in QueenMoves(BlockBoard(q), q) && (4, 7) !in QueenMoves(BlockBoard(q), q)
  {
    var q := NewPiece(Queen, White, 4, 4);
    assert BlockCells(BlockBoard(q));
    QueenStopsOn(BlockBoard(q));
  }

  lemma QueenStopsOn(g: Grid)
    requires BlockCells(g)
    ensures var q := NewPiece(Queen, White, 4, 4);
            (4, 5) in QueenMoves(g, q) && (4, 6) !in QueenMoves(g, q) && (4, 7) !in QueenMoves(g, q)
  {
    var q := NewPiece(Queen, White, 4, 4);
    QueenMovesExactly(g, q, (4, 6));
    QueenMovesExactly(g, q, (4, 7));
    assert Between((4, 4), (4, 7), (4, 6)) && Get(g, 4, 6).Some?;
    QueenReachesNeighbour(g);
  }

  lemma QueenReachesNeighbour(g: Grid)
    requires BlockCells(g)
    ensures (4, 5) in QueenMoves(g, NewPiece(Queen, White, 4, 4))
  {
    var q := NewPiece(Queen, White, 4, 4);
    QueenMovesExactly(g, q, (4, 5));
    assert ClearBetween(g, (4, 4), (4, 5));
    BlockAfterSafe(g);
  }

  lemma BlockAfterSafe(g: Grid)
    requires BlockCells(g)
    ensures LeavesKingSafe(g, NewPiece(Queen, White, 4, 4), (4, 5))
  {
    var g' := AfterMove(g, 4, 4, 4, 5);
    AfterMoveEffect(g, 4, 4, 4, 5);
    assert forall r, c :: Get(g', r, c).Some? && Get(g', r, c).value.color == Black ==> (r, c) == (0, 4);
    forall r, c ensures !Attacked(g', r, c, Black) {
      OnlyKingsAttackNothing(g', Black, r, c);
    }
  }
}
