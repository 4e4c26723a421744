/** The 8 x 8 grid of Board.java as a value, with the raw primitives of
    Board.java (`getPiece`, `setPiece`, `makeMove`, `undoMove`) as functions
    on it.  The class `Chessboard.Board` keeps such a value as the abstract
    view of its array; every rule of the game is specified on this value. */
module BoardValue {
  import opened Wrappers
  import opened Pieces

  /** One square: `null` or the piece standing on it. */
  type Cell = Option<Piece>

  /** `squares[row][col]`, exactly eight rows of eight squares. */
  type Grid = g: seq<seq<Cell>> | |g| == 8 && forall r | 0 <= r < 8 :: |g[r]| == 8
    witness seq(8, _ => seq(8, _ => None))

  /** A (row, column) pair, as in the `int[]{row, col}` move lists. */
  type Square = (int, int)

  function EmptyGrid(): (g: Grid)
    ensures forall r, c :: Get(g, r, c) == None
  {
    seq(8, _ => seq(8, _ => None))
  }

  /** `isValidPosition` */
  predicate IsValidPosition(r: int, c: int)
  {
    0 <= r < 8 && 0 <= c < 8
  }

  /** `getPiece`: off the board there is never a piece. */
  function Get(g: Grid, r: int, c: int): Cell
  {
    if IsValidPosition(r, c) then g[r][c] else None
  }

  /** `setPiece`: a write off the board is ignored, a write on the board
      changes that square and no other. */
  function Set(g: Grid, r: int, c: int, x: Cell): (g': Grid)
    ensures forall r', c' :: Get(g', r', c') ==
                             if IsValidPosition(r, c) && r' == r && c' == c then x else Get(g, r', c')
    ensures !IsValidPosition(r, c) ==> g' == g
  {
    if IsValidPosition(r, c) then g[r := g[r][c := x]] else g
  }

  /** `isEmpty`: true off the board, since `getPiece` answers null there. */
  predicate IsEmpty(g: Grid, r: int, c: int)
  {
    Get(g, r, c).None?
  }

  /** `hasEnemyPiece` */
  predicate HasEnemyPiece(g: Grid, r: int, c: int, myColor: Color)
  {
    Get(g, r, c).Some? && Get(g, r, c).value.color != myColor
  }

  /** Whether the square holds a piece of the given kind and colour (the
      Java `p instanceof K && p.getColor() == color`). */
  predicate IsPieceOf(x: Cell, kind: Kind, color: Color)
  {
    x.Some? && x.value.kind == kind && x.value.color == color
  }

  /** `makeMove`: the occupant of the origin goes to the target with its
      position updated and its flag set, and the origin is cleared.  The
      target is written first, so a move onto the origin itself empties it. */
  function AfterMove(g: Grid, fr: int, fc: int, tr: int, tc: int): Grid
  {
    var moving := Get(g, fr, fc);
    var placed := if moving.Some? then Some(SetHasMoved(SetPosition(moving.value, tr, tc), true)) else None;
    Set(Set(g, tr, tc, placed), fr, fc, None)
  }

  /** `undoMove`: the occupant of the target goes back to the origin with
      its position updated (its flag is left as it is) and the given
      captured piece is put on the target. */
  function AfterUndo(g: Grid, fr: int, fc: int, tr: int, tc: int, captured: Cell): Grid
  {
    var moving := Get(g, tr, tc);
    var back := if moving.Some? then Some(SetPosition(moving.value, fr, fc)) else None;
    Set(Set(g, fr, fc, back), tr, tc, captured)
  }

  /** `setHasMoved` on the piece standing on (r, c), if any. */
  function SetFlag(g: Grid, r: int, c: int, moved: bool): Grid
  {
    var x := Get(g, r, c);
    if x.Some? then Set(g, r, c, Some(SetHasMoved(x.value, moved))) else g
  }

  /** The grid with the flag of the piece on (r, c) raised. */
  function MarkMoved(g: Grid, r: int, c: int): Grid
  {
    SetFlag(g, r, c, true)
  }

  /** Putting back the flag a piece had undoes raising it. */
  lemma FlagRestored(g: Grid, r: int, c: int)
    requires Get(g, r, c).Some?
    ensures SetFlag(MarkMoved(g, r, c), r, c, Get(g, r, c).value.hasMoved) == g
  {
    GridExt(SetFlag(MarkMoved(g, r, c), r, c, Get(g, r, c).value.hasMoved), g);
  }

  /** A square with its moved flag forgotten. */
  function Strip(x: Cell): Cell
  {
    if x.Some? then Some(Man(x.value)) else None
  }

  /** Two grids that agree on every square up to the moved flags. */
  ghost predicate SameMen(g1: Grid, g2: Grid)
  {
    forall r, c :: Strip(Get(g1, r, c)) == Strip(Get(g2, r, c))
  }

  /** Every piece reports the square it stands on (the bidirectional
      consistency between `squares` and the pieces' `row`/`col`). */
  ghost predicate Consistent(g: Grid)
  {
    forall r, c :: Get(g, r, c).Some? ==> Get(g, r, c).value.row == r && Get(g, r, c).value.col == c
  }

  /** The piece `p` stands on the square it reports, up to its flag. */
  ghost predicate Stands(g: Grid, p: Piece)
  {
    Strip(Get(g, p.row, p.col)) == Some(Man(p))
  }

  /** Reads and writes off the board are harmless: the square reads as
      empty, holds no enemy, and a write there changes nothing. */
  lemma OffBoardIsHarmless(g: Grid, r: int, c: int, x: Cell, myColor: Color)
    requires !IsValidPosition(r, c)
    ensures IsEmpty(g, r, c) && !HasEnemyPiece(g, r, c, myColor)
    ensures Set(g, r, c, x) == g
  {
  }

  /** The squares of `ts` that pass `keep`, in order (the Java loops that
      append a candidate only when a test succeeds). */
  function Filter(ts: seq<Square>, keep: Square -> bool): (kept: seq<Square>)
    ensures |kept| <= |ts|
  {
    if ts == [] then []
    else Filter(ts[..|ts| - 1], keep) + (if keep(ts[|ts| - 1]) then [ts[|ts| - 1]] else [])
  }

  lemma {:induction false} FilterMembers(ts: seq<Square>, keep: Square -> bool)
    ensures forall t :: t in Filter(ts, keep) <==> t in ts && keep(t)
  {
    if ts != [] {
      FilterMembers(ts[..|ts| - 1], keep);
      assert ts == ts[..|ts| - 1] + [ts[|ts| - 1]];
    }
  }

  lemma {:induction false} FilterAppend(a: seq<Square>, b: seq<Square>, keep: Square -> bool)
    ensures Filter(a + b, keep) == Filter(a, keep) + Filter(b, keep)
    decreases |b|
  {
    if b == [] {
      assert a + b == a;
    } else {
      var front, last := b[..|b| - 1], b[|b| - 1];
      FilterAppend(a, front, keep);
      assert (a + b)[..|a + b| - 1] == a + front;
      assert (a + b)[|a + b| - 1] == last;
      var tail := if keep(last) then [last] else [];
      calc {
        Filter(a + b, keep);
        Filter(a + front, keep) + tail;
        (Filter(a, keep) + Filter(front, keep)) + tail;
        Filter(a, keep) + (Filter(front, keep) + tail);
      }
    }
  }


  lemma {:induction false} FilterAll(ts: seq<Square>, keep: Square -> bool)
    requires forall i | 0 <= i < |ts| :: keep(ts[i])
    ensures Filter(ts, keep) == ts
  {
    if ts != [] {
      FilterAll(ts[..|ts| - 1], keep);
    }
  }

  lemma GridExt(g1: Grid, g2: Grid)
    requires forall r, c :: IsValidPosition(r, c) ==> Get(g1, r, c) == Get(g2, r, c)
    ensures g1 == g2
  {
    forall r | 0 <= r < 8
      ensures g1[r] == g2[r]
    {
      assert forall c | 0 <= c < 8 :: g1[r][c] == Get(g1, r, c) && g2[r][c] == Get(g2, r, c);
    }
  }

  /** `makeMove` on two distinct squares of the board: the target holds the
      former occupant of the origin, now reporting the target and marked as
      moved; the origin is empty; every other square is unchanged. */
  lemma AfterMoveEffect(g: Grid, fr: int, fc: int, tr: int, tc: int)
    requires IsValidPosition(fr, fc) && IsValidPosition(tr, tc) && (fr, fc) != (tr, tc)
    ensures var g' := AfterMove(g, fr, fc, tr, tc);
      && Get(g', fr, fc) == None
      && (Get(g, fr, fc) == None ==> Get(g', tr, tc) == None)
      && (Get(g, fr, fc).Some? ==>
            Get(g', tr, tc) == Some(Get(g, fr, fc).value.(row := tr, col := tc, hasMoved := true)))
      && forall r, c :: (r, c) != (fr, fc) && (r, c) != (tr, tc) ==> Get(g', r, c) == Get(g, r, c)
  {
  }

  /** `undoMove` after `makeMove`, given the former occupant of the target,
      puts both squares back; the mover reports its origin again, but its
      moved flag stays raised (Board.undoMove never resets it). */
  lemma UndoAfterMove(g: Grid, fr: int, fc: int, tr: int, tc: int)
    requires IsValidPosition(fr, fc) && IsValidPosition(tr, tc) && (fr, fc) != (tr, tc)
    requires Get(g, fr, fc).Some? && Get(g, fr, fc).value.row == fr && Get(g, fr, fc).value.col == fc
    ensures AfterUndo(AfterMove(g, fr, fc, tr, tc), fr, fc, tr, tc, Get(g, tr, tc)) == MarkMoved(g, fr, fc)
    ensures SameMen(AfterUndo(AfterMove(g, fr, fc, tr, tc), fr, fc, tr, tc, Get(g, tr, tc)), g)
  {
    var g' := AfterUndo(AfterMove(g, fr, fc, tr, tc), fr, fc, tr, tc, Get(g, tr, tc));
    GridExt(g', MarkMoved(g, fr, fc));
  }

  /** Raising the flag of a piece that then moves makes no difference. */
  lemma AfterMoveMarked(g: Grid, fr: int, fc: int, tr: int, tc: int)
    ensures AfterMove(MarkMoved(g, fr, fc), fr, fc, tr, tc) == AfterMove(g, fr, fc, tr, tc)
  {
    GridExt(AfterMove(MarkMoved(g, fr, fc), fr, fc, tr, tc), AfterMove(g, fr, fc, tr, tc));
  }

  lemma MarkMovedTwice(g: Grid, r: int, c: int)
    ensures MarkMoved(MarkMoved(g, r, c), r, c) == MarkMoved(g, r, c)
  {
    GridExt(MarkMoved(MarkMoved(g, r, c), r, c), MarkMoved(g, r, c));
  }

  /** Moving the same squares on grids equal up to flags gives grids equal
      up to flags. */
  lemma SameMenAfterMove(g1: Grid, g2: Grid, fr: int, fc: int, tr: int, tc: int)
    requires SameMen(g1, g2)
    ensures SameMen(AfterMove(g1, fr, fc, tr, tc), AfterMove(g2, fr, fc, tr, tc))
  {
    var h1, h2 := AfterMove(g1, fr, fc, tr, tc), AfterMove(g2, fr, fc, tr, tc);
    forall r, c ensures Strip(Get(h1, r, c)) == Strip(Get(h2, r, c)) {
      assert Strip(Get(g1, fr, fc)) == Strip(Get(g2, fr, fc));
    }
  }

  lemma SameMenSet(g1: Grid, g2: Grid, r: int, c: int, x1: Cell, x2: Cell)
    requires SameMen(g1, g2) && Strip(x1) == Strip(x2)
    ensures SameMen(Set(g1, r, c, x1), Set(g2, r, c, x2))
  {
  }

  lemma SameMenMarked(g: Grid, r: int, c: int)
    ensures SameMen(MarkMoved(g, r, c), g)
  {
  }

  lemma MoveKeepsConsistent(g: Grid, fr: int, fc: int, tr: int, tc: int)
    requires Consistent(g)
    ensures Consistent(AfterMove(g, fr, fc, tr, tc))
  {
  }

  /** The back rank R, N, B, Q, K, B, N, R by column. */
  function BackRank(c: int): Kind
    requires 0 <= c < 8
  {
    [Rook, Knight, Bishop, Queen, King, Bishop, Knight, Rook][c]
  }

  /** The opening position of `setupInitialPosition`, white below, square
      by square. */
  function InitialGrid(): Grid
  {
    seq(8, r => seq(8, c => InitialCell(r, c)))
  }

  /** The pawn loop from column c on: a white pawn on row 6, a black one on row 1. */
  function PlacePawns(g: Grid, c: nat): Grid
    requires c <= 8
    decreases 8 - c
  {
    if c == 8 then g
    else PlacePawns(Set(Set(g, 6, c, Some(NewPiece(Pawn, White, 6, c))), 1, c, Some(NewPiece(Pawn, Black, 1, c))), c + 1)
  }

  /** The eight `placePiece` calls of one colour's back rank from column c on. */
  function PlaceRank(g: Grid, r: int, color: Color, c: nat): Grid
    requires c <= 8
    decreases 8 - c
  {
    if c == 8 then g
    else PlaceRank(Set(g, r, c, Some(NewPiece(BackRank(c), color, r, c))), r, color, c + 1)
  }

  lemma {:induction false} PlacePawnsEffect(g: Grid, c: nat)
    requires c <= 8
    ensures forall r, c' :: Get(PlacePawns(g, c), r, c') ==
                            if c <= c' < 8 && r == 6 then Some(NewPiece(Pawn, White, 6, c'))
                            else if c <= c' < 8 && r == 1 then Some(NewPiece(Pawn, Black, 1, c'))
                            else Get(g, r, c')
    decreases 8 - c
  {
    if c < 8 {
      PlacePawnsEffect(Set(Set(g, 6, c, Some(NewPiece(Pawn, White, 6, c))), 1, c, Some(NewPiece(Pawn, Black, 1, c))), c + 1);
    }
  }

  lemma {:induction false} PlaceRankEffect(g: Grid, r: int, color: Color, c: nat)
    requires c <= 8 && 0 <= r < 8
    ensures forall r', c' :: Get(PlaceRank(g, r, color, c), r', c') ==
                             if c <= c' < 8 && r' == r then Some(NewPiece(BackRank(c'), color, r, c')) else Get(g, r', c')
    decreases 8 - c
  {
    if c < 8 {
      PlaceRankEffect(Set(g, r, c, Some(NewPiece(BackRank(c), color, r, c))), r, color, c + 1);
    }
  }

  /** What `setupInitialPosition` puts on one square. */
  function InitialCell(r: int, c: int): Cell
  {
    if !IsValidPosition(r, c) then None
    else if r == 6 then Some(NewPiece(Pawn, White, 6, c))
    else if r == 1 then Some(NewPiece(Pawn, Black, 1, c))
    else if r == 7 then Some(NewPiece(BackRank(c), White, 7, c))
    else if r == 0 then Some(NewPiece(BackRank(c), Black, 0, c))
    else None
  }

  lemma InitialGridCells()
    ensures forall r, c :: Get(InitialGrid(), r, c) == InitialCell(r, c)
  {
  }

  /** The pawn loop and the two back-rank loops of `setupInitialPosition`,
      run on an empty board, build the opening position. */
  lemma PlacementBuildsOpening()
    ensures PlaceRank(PlaceRank(PlacePawns(EmptyGrid(), 0), 7, White, 0), 0, Black, 0) == InitialGrid()
  {
    PlacementOnEmpty(EmptyGrid());
  }

  lemma PlacementOnEmpty(g: Grid)
    requires forall r, c :: Get(g, r, c) == None
    ensures PlaceRank(PlaceRank(PlacePawns(g, 0), 7, White, 0), 0, Black, 0) == InitialGrid()
  {
    var g1 := PlacePawns(g, 0);
    var g2 := PlaceRank(g1, 7, White, 0);
    PlacePawnsEffect(g, 0);
    PlaceRankEffect(g1, 7, White, 0);
    PlaceRankEffect(g2, 0, Black, 0);
    InitialGridCells();
    GridExt(PlaceRank(g2, 0, Black, 0), InitialGrid());
  }

  /** The opening position: white pawns on row 6 and black ones on row 1,
      the back ranks R N B Q K B N R on rows 7 (white) and 0 (black), rows
      2 to 5 empty, nobody has moved, and every piece reports its square. */
  lemma InitialGridLayout()
    ensures forall c | 0 <= c < 8 :: Get(InitialGrid(), 6, c) == Some(Piece(Pawn, White, 6, c, false))
    ensures forall c | 0 <= c < 8 :: Get(InitialGrid(), 1, c) == Some(Piece(Pawn, Black, 1, c, false))
    ensures forall c | 0 <= c < 8 :: Get(InitialGrid(), 7, c) == Some(Piece(BackRank(c), White, 7, c, false))
    ensures forall c | 0 <= c < 8 :: Get(InitialGrid(), 0, c) == Some(Piece(BackRank(c), Black, 0, c, false))
    ensures forall r, c | 2 <= r < 6 :: Get(InitialGrid(), r, c) == None
  {
    InitialGridCells();
  }

  /** Every piece of the opening position reports the square it stands on. */
  lemma InitialGridConsistent()
    ensures Consistent(InitialGrid())
  {
    var g := InitialGrid();
    InitialGridCells();
    forall r, c | Get(g, r, c).Some?
      ensures Get(g, r, c).value.row == r && Get(g, r, c).value.col == c
    {
      InitialCellReports(r, c);
    }
  }

  lemma InitialCellReports(r: int, c: int)
    ensures InitialCell(r, c).Some? ==> InitialCell(r, c).value.row == r && InitialCell(r, c).value.col == c
  {
  }

  /** Filtering with two tests that agree on every element gives the same list. */
  lemma {:induction false} FilterSameKeep(ts: seq<Square>, k1: Square -> bool, k2: Square -> bool)
    requires forall i | 0 <= i < |ts| :: k1(ts[i]) == k2(ts[i])
    ensures Filter(ts, k1) == Filter(ts, k2)
  {
    if ts != [] {
      FilterSameKeep(ts[..|ts| - 1], k1, k2);
    }
  }

  /** Grids equal up to flags agree on what stands where. */
  lemma SameMenAt(g1: Grid, g2: Grid, r: int, c: int)
    requires SameMen(g1, g2)
    ensures Get(g1, r, c).None? == Get(g2, r, c).None?
    ensures Get(g1, r, c).Some? ==> Man(Get(g1, r, c).value) == Man(Get(g2, r, c).value)
  {
    assert Strip(Get(g1, r, c)) == Strip(Get(g2, r, c));
  }

  lemma SameMenTrans(g1: Grid, g2: Grid, g3: Grid)
    requires SameMen(g1, g2) && SameMen(g2, g3)
    ensures SameMen(g1, g3)
  {
  }

  /** Changing flags keeps every piece on the square it reports. */
  lemma ConsistentSameMen(g1: Grid, g2: Grid)
    requires SameMen(g1, g2) && Consistent(g1)
    ensures Consistent(g2)
  {
    forall r, c | Get(g2, r, c).Some?
      ensures Get(g2, r, c).value.row == r && Get(g2, r, c).value.col == c
    {
      SameMenAt(g1, g2, r, c);
    }
  }
}
