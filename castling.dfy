/** `tryCastle` of ChessGame.java: the king and an unmoved rook of its
    colour, an emptiness test between them, two simulated king steps, then
    the two moves.  It only touches the board, so it takes the board and the
    two pieces (the records standing on the king's and the rook's squares). */
module Castling {
  import opened Wrappers
  import opened Pieces
  import opened BoardValue
  import opened Attacks
  import opened Chessboard
  import opened JavaInt

  /** `dir`: towards the rook, and to the right unless the rook's column is
      smaller than the king's. */
  function CastleDir(kc: int, rc: int): int
  {
    if rc < kc then -1 else 1
  }

  /** The columns of the king's row the emptiness loop looks at: those
      strictly between king and rook.  With the rook in the king's own
      column the loop runs to the right, wraps round the `int` range and
      stops back at the king, so it looks at every other column. */
  predicate GapColumn(kc: int, rc: int, x: int)
  {
    if rc < kc then rc < x < kc else if kc < rc then kc < x < rc else x != kc
  }

  predicate GapClear(g: Grid, r: int, kc: int, rc: int)
  {
    forall x | 0 <= x < 8 && GapColumn(kc, rc, x) :: IsEmpty(g, r, x)
  }

  /** The columns the loop has looked at when its counter is c. */
  predicate Visited(kc: int, dir: int, c: int, x: int)
  {
    if dir == -1 then c < x < kc else if c > kc then kc < x < c else x > kc || x < c
  }

  /** One turn of the second loop: the king made to step to (r, c), then the
      step undone with the square's former occupant put back. */
  function CastleProbe(g: Grid, r: int, kc: int, c: int): Grid
  {
    AfterUndo(AfterMove(g, r, kc, r, c), r, kc, r, c, Get(g, r, c))
  }

  /** The king's side is not in check after the king's step to (r, c). */
  predicate StepSafe(g: Grid, r: int, kc: int, c: int, color: Color)
  {
    !InCheck(AfterMove(g, r, kc, r, c), color)
  }

  /** Both simulated king steps end out of check, the second made on the
      grid the first left behind. */
  predicate PassageSafe(g: Grid, k: Piece, rk: Piece)
  {
    var r, kc := k.row, k.col;
    var dir := CastleDir(kc, rk.col);
    StepSafe(g, r, kc, kc + dir, k.color)
    && StepSafe(CastleProbe(g, r, kc, kc + dir), r, kc, kc + 2 * dir, k.color)
  }

  /** Whether `tryCastle` accepts: neither piece has moved, the king's side
      is not in check, the gap is empty and the king's passage is safe. */
  predicate CastleAllowed(g: Grid, k: Piece, rk: Piece)
  {
    !k.hasMoved && !rk.hasMoved && !InCheck(g, k.color)
    && GapClear(g, k.row, k.col, rk.col) && PassageSafe(g, k, rk)
  }

  /** `king.setHasMoved(false); rook.setHasMoved(false)` after a step into
      check: the king is back on its square (or gone, when it stepped off
      the board) and the rook on its own. */
  function ResetFlags(g: Grid, k: Piece, rk: Piece): Grid
  {
    SetFlag(SetFlag(g, k.row, k.col, false), rk.row, rk.col, false)
  }

  /** The grid the second loop of `tryCastle` leaves: each probe raises the
      king's flag, and the first step into check puts both flags down. */
  function PassageAfter(g: Grid, k: Piece, rk: Piece): Grid
  {
    var r, kc := k.row, k.col;
    var dir := CastleDir(kc, rk.col);
    var g1 := CastleProbe(g, r, kc, kc + dir);
    var g2 := CastleProbe(g1, r, kc, kc + 2 * dir);
    if !StepSafe(g, r, kc, kc + dir, k.color) then ResetFlags(g1, k, rk)
    else if !StepSafe(g1, r, kc, kc + 2 * dir, k.color) then ResetFlags(g2, k, rk)
    else g2
  }

  /** Where the king object is after the two moves: on its destination,
      unless that was the rook's square, in which case the second move took
      it on to the rook's destination. */
  function KingEnd(kc: int, rc: int): int
  {
    var dir := CastleDir(kc, rc);
    if rc == kc + 2 * dir then kc + dir else kc + 2 * dir
  }

  /** Where the rook object is after the two moves: the second move starts
      from the rook's column on the king's row, so a rook on another row
      stays where it is.  (When the rook was taken or moved onto itself the
      square named here holds the king or nothing, and raising the flag
      there changes nothing.) */
  function RookEnd(k: Piece, rk: Piece): Square
  {
    if rk.row == k.row then (k.row, k.col + CastleDir(k.col, rk.col)) else (rk.row, rk.col)
  }

  /** The two moves of an accepted castling and the two raised flags. */
  function CastleMoves(g: Grid, k: Piece, rk: Piece): Grid
  {
    var r, kc, rc := k.row, k.col, rk.col;
    var dir := CastleDir(kc, rc);
    var g3 := AfterMove(AfterMove(g, r, kc, r, kc + 2 * dir), r, rc, r, kc + dir);
    SetFlag(SetFlag(g3, r, KingEnd(kc, rc), true), RookEnd(k, rk).0, RookEnd(k, rk).1, true)
  }

  /** The grid `tryCastle` leaves behind. */
  function CastleAfter(g: Grid, k: Piece, rk: Piece): Grid
  {
    if k.hasMoved || rk.hasMoved || InCheck(g, k.color) || !GapClear(g, k.row, k.col, rk.col) then g
    else if !PassageSafe(g, k, rk) then PassageAfter(g, k, rk)
    else CastleMoves(PassageAfter(g, k, rk), k, rk)
  }

  /** `tryCastle(king, rook)`. */
  method TryCastle(board: Board, k: Piece, rk: Piece) returns (ok: bool)
    requires board.Valid()
    requires Get(board.grid, k.row, k.col) == Some(k) && Get(board.grid, rk.row, rk.col) == Some(rk)
    modifies board, board.cells
    ensures board.Valid() && board.cells == old(board.cells)
    ensures ok == CastleAllowed(old(board.grid), k, rk)
    ensures board.grid == CastleAfter(old(board.grid), k, rk)
  {
    if k.hasMoved || rk.hasMoved {
      return false;
    }
    var check := board.IsInCheck(k.color);
    if check {
      return false;
    }
    var r, kc, rc := k.row, k.col, rk.col;
    var dir := if rc < kc then -1 else 1;
    var clear := GapIsClear(board, r, kc, rc, dir);
    if !clear {
      return false;
    }
    var safe := KingPassage(board, k, rk, dir);
    if !safe {
      return false;
    }
    CastleBoth(board, k, rk);
    return true;
  }

  /** The end of `tryCastle`: the king to its destination, the rook to
      its own, and both flags raised. */
  method CastleBoth(board: Board, k: Piece, rk: Piece)
    requires board.Valid()
    modifies board, board.cells
    ensures board.Valid() && board.cells == old(board.cells)
    ensures board.grid == CastleMoves(old(board.grid), k, rk)
  {
    var r, kc, rc := k.row, k.col, rk.col;
    var dir := if rc < kc then -1 else 1;
    var kingDst, rookDst := kc + 2 * dir, kc + dir;
    board.MakeMove(r, kc, r, kingDst);
    board.MakeMove(r, rc, r, rookDst);
    // `king.setHasMoved(true); rook.setHasMoved(true)`, on the squares the
    // two objects now stand on
    var kingAt := if rc == kingDst then rookDst else kingDst;
    board.SetHasMovedAt(r, kingAt, true);
    if rk.row == r {
      board.SetHasMovedAt(r, rookDst, true);
    } else {
      board.SetHasMovedAt(rk.row, rk.col, true);
    }
  }

  /** The second loop of `tryCastle`: the king made to step one and then two
      squares towards the rook, each step undone, stopping at the first
      step into check with both flags put down. */
  method KingPassage(board: Board, k: Piece, rk: Piece, dir: int) returns (safe: bool)
    requires board.Valid() && dir == CastleDir(k.col, rk.col)
    modifies board, board.cells
    ensures board.Valid() && board.cells == old(board.cells)
    ensures safe == PassageSafe(old(board.grid), k, rk)
    ensures board.grid == PassageAfter(old(board.grid), k, rk)
  {
    ghost var g := board.grid;
    var r, kc := k.row, k.col;
    ghost var g1 := CastleProbe(g, r, kc, kc + dir);
    var c := kc + dir;
    while c != kc + 3 * dir
      invariant c == kc + dir || c == kc + 2 * dir || c == kc + 3 * dir
      invariant board.Valid() && board.cells == old(board.cells)
      invariant c == kc + dir ==> board.grid == g
      invariant c != kc + dir ==> StepSafe(g, r, kc, kc + dir, k.color)
      invariant c == kc + 2 * dir ==> board.grid == g1
      invariant c == kc + 3 * dir ==> board.grid == CastleProbe(g1, r, kc, kc + 2 * dir)
                                      && StepSafe(g1, r, kc, kc + 2 * dir, k.color)
      decreases (kc + 3 * dir - c) * dir
    {
      var inCheck := Probe(board, r, kc, c, k.color);
      if inCheck {
        PutFlagsDown(board, k, rk);
        return false;
      }
      c := c + dir;
    }
    return true;
  }

  /** `king.setHasMoved(false); rook.setHasMoved(false)` */
  method PutFlagsDown(board: Board, k: Piece, rk: Piece)
    requires board.Valid()
    modifies board, board.cells
    ensures board.Valid() && board.cells == old(board.cells)
    ensures board.grid == ResetFlags(old(board.grid), k, rk)
  {
    board.SetHasMovedAt(k.row, k.col, false);
    board.SetHasMovedAt(rk.row, rk.col, false);
  }

  /** One turn of the second loop: `getPiece`, `makeMove`, `isInCheck`,
      `undoMove`. */
  method Probe(board: Board, r: int, kc: int, c: int, color: Color) returns (inCheck: bool)
    requires board.Valid()
    modifies board, board.cells
    ensures board.Valid() && board.cells == old(board.cells)
    ensures inCheck == !StepSafe(old(board.grid), r, kc, c, color)
    ensures board.grid == CastleProbe(old(board.grid), r, kc, c)
  {
    var cap := board.GetPiece(r, c);
    board.MakeMove(r, kc, r, c);
    inCheck := board.IsInCheck(color);
    board.UndoMove(r, kc, r, c, cap);
  }

  /** The first loop of `tryCastle`: `for (c = kc + dir; c != rc; c += dir)`
      over Java `int`s, stopping at the first occupied square. */
  method GapIsClear(board: Board, r: int, kc: int, rc: int, dir: int) returns (clear: bool)
    requires board.Valid() && 0 <= kc < 8 && 0 <= rc < 8 && dir == CastleDir(kc, rc)
    ensures clear == GapClear(board.grid, r, kc, rc)
  {
    var c := kc + dir;
    while c != rc
      invariant IsInt32(c)
      invariant dir == -1 ==> rc <= c < kc
      invariant dir == 1 && kc < rc ==> kc < c <= rc
      invariant forall x | 0 <= x < 8 && Visited(kc, dir, c, x) :: IsEmpty(board.grid, r, x)
      decreases if dir == -1 then c - rc else if c <= rc then rc - c else rc - c + Modulus
    {
      if !board.IsEmpty(r, c) {
        return false;
      }
      c := AddInt32(c, dir);
    }
    forall x | 0 <= x < 8 && GapColumn(kc, rc, x)
      ensures Visited(kc, dir, c, x)
    {
    }
    return true;
  }

  /** Writing back the flag a piece already has changes nothing. */
  lemma SetFlagUnchanged(g: Grid, r: int, c: int, moved: bool)
    requires Get(g, r, c).Some? ==> Get(g, r, c).value.hasMoved == moved
    ensures SetFlag(g, r, c, moved) == g
  {
    if Get(g, r, c).Some? {
      GridExt(SetFlag(g, r, c, moved), g);
    }
  }

  /** A probe step onto a square of the board only raises the king's flag. */
  lemma ProbeMarks(g: Grid, k: Piece, c: int)
    requires Get(g, k.row, k.col) == Some(k) && IsValidPosition(k.row, c) && c != k.col
    ensures CastleProbe(g, k.row, k.col, c) == MarkMoved(g, k.row, k.col)
  {
    UndoAfterMove(g, k.row, k.col, k.row, c);
  }

  /** The acceptance test of `tryCastle` in the terms of the rules: neither
      piece has moved, the king is not in check, every square between king
      and rook is empty, and the king is safe on each of the two squares it
      passes over (the flag the first probe leaves on the king does not
      matter to the second). */
  lemma CastleAllowedExactly(g: Grid, k: Piece, rk: Piece)
    requires Get(g, k.row, k.col) == Some(k)
    ensures var r, kc, dir := k.row, k.col, CastleDir(k.col, rk.col);
            CastleAllowed(g, k, rk) <==>
              !k.hasMoved && !rk.hasMoved && !InCheck(g, k.color) && GapClear(g, r, kc, rk.col)
              && LeavesKingSafe(g, k, (r, kc + dir)) && LeavesKingSafe(g, k, (r, kc + 2 * dir))
  {
    var r, kc, dir := k.row, k.col, CastleDir(k.col, rk.col);
    if IsValidPosition(r, kc + dir) {
      ProbeMarks(g, k, kc + dir);
      AfterMoveMarked(g, r, kc, r, kc + 2 * dir);
    } else {
      OffBoardProbes(g, r, kc, kc + dir, kc + 2 * dir);
    }
  }

  /** King steps to columns c1 and c2 off the board only lift the king off
      its square, whether made on the grid or after the first probe. */
  lemma OffBoardProbes(g: Grid, r: int, kc: int, c1: int, c2: int)
    requires IsValidPosition(r, kc) && !IsValidPosition(r, c1) && !IsValidPosition(r, c2)
    ensures var e := Set(g, r, kc, None);
            && CastleProbe(g, r, kc, c1) == e
            && AfterMove(e, r, kc, r, c2) == e
            && AfterMove(g, r, kc, r, c1) == e
            && AfterMove(g, r, kc, r, c2) == e
  {
    var e := Set(g, r, kc, None);
    GridExt(CastleProbe(g, r, kc, c1), e);
    GridExt(AfterMove(e, r, kc, r, c2), e);
    GridExt(AfterMove(g, r, kc, r, c1), e);
    GridExt(AfterMove(g, r, kc, r, c2), e);
  }

  /** The second probe starts from the grid the first left, which differs
      from the original only by the king's flag. */
  lemma PassageMarks(g: Grid, k: Piece, rk: Piece)
    requires Get(g, k.row, k.col) == Some(k)
    requires IsValidPosition(k.row, k.col + 2 * CastleDir(k.col, rk.col))
    ensures var r, kc, dir := k.row, k.col, CastleDir(k.col, rk.col);
            CastleProbe(CastleProbe(g, r, kc, kc + dir), r, kc, kc + 2 * dir) == MarkMoved(g, r, kc)
  {
    var r, kc, dir := k.row, k.col, CastleDir(k.col, rk.col);
    var g1 := CastleProbe(g, r, kc, kc + dir);
    ProbeMarks(g, k, kc + dir);
    var k1 := k.(hasMoved := true);
    assert Get(g1, r, kc) == Some(k1);
    ProbeMarks(g1, k1, kc + 2 * dir);
    MarkMovedTwice(g, r, kc);
  }

  /** A refused castling leaves the board exactly as it was: the flags the
      probes raise on the king are put down again, and they were down to
      begin with.  (The king's two squares must be on the board: a probe
      off the board loses the king.) */
  lemma CastleRefusedKeepsBoard(g: Grid, k: Piece, rk: Piece)
    requires Get(g, k.row, k.col) == Some(k) && Get(g, rk.row, rk.col) == Some(rk)
    requires IsValidPosition(k.row, k.col + 2 * CastleDir(k.col, rk.col))
    requires !CastleAllowed(g, k, rk)
    ensures CastleAfter(g, k, rk) == g
  {
    if !k.hasMoved && !rk.hasMoved && !InCheck(g, k.color) && GapClear(g, k.row, k.col, rk.col) {
      var r, kc, dir := k.row, k.col, CastleDir(k.col, rk.col);
      var g1 := CastleProbe(g, r, kc, kc + dir);
      ProbeMarks(g, k, kc + dir);
      PassageMarks(g, k, rk);
      FlagRestored(g, r, kc);
      SetFlagUnchanged(g, rk.row, rk.col, false);
      assert PassageAfter(g, k, rk) == ResetFlags(MarkMoved(g, r, kc), k, rk);
    }
  }

  /** An accepted castling with the rook on the king's row and at least
      three columns away: the king stands two squares towards the rook, the
      rook on the square the king passed over, both marked as moved, their
      former squares are empty and no other square changes. */
  lemma CastleMovesBoth(g: Grid, k: Piece, rk: Piece)
    requires Get(g, k.row, k.col) == Some(k) && Get(g, rk.row, rk.col) == Some(rk)
    requires rk.row == k.row && Abs(rk.col - k.col) >= 3
    requires CastleAllowed(g, k, rk)
    ensures var r, kc, rc, dir := k.row, k.col, rk.col, CastleDir(k.col, rk.col);
            var h := CastleAfter(g, k, rk);
            && Get(h, r, kc + 2 * dir) == Some(k.(col := kc + 2 * dir, hasMoved := true))
            && Get(h, r, kc + dir) == Some(rk.(col := kc + dir, hasMoved := true))
            && Get(h, r, kc) == None && Get(h, r, rc) == None
            && forall r', c' :: (r', c') !in {(r, kc), (r, kc + dir), (r, kc + 2 * dir), (r, rc)} ==>
                 Get(h, r', c') == Get(g, r', c')
  {
    var r, kc := k.row, k.col;
    PassageMarks(g, k, rk);
    assert CastleAfter(g, k, rk) == CastleMoves(MarkMoved(g, r, kc), k, rk);
    CastleMovesEffect(g, k, rk);
  }

  /** The two moves of castling, made on the grid the probes left. */
  lemma CastleMovesEffect(g: Grid, k: Piece, rk: Piece)
    requires Get(g, k.row, k.col) == Some(k) && Get(g, rk.row, rk.col) == Some(rk)
    requires rk.row == k.row && Abs(rk.col - k.col) >= 3
    ensures var r, kc, rc, dir := k.row, k.col, rk.col, CastleDir(k.col, rk.col);
            var h := CastleMoves(MarkMoved(g, r, kc), k, rk);
            && Get(h, r, kc + 2 * dir) == Some(k.(col := kc + 2 * dir, hasMoved := true))
            && Get(h, r, kc + dir) == Some(rk.(col := kc + dir, hasMoved := true))
            && Get(h, r, kc) == None && Get(h, r, rc) == None
            && forall r', c' :: (r', c') !in {(r, kc), (r, kc + dir), (r, kc + 2 * dir), (r, rc)} ==>
                 Get(h, r', c') == Get(g, r', c')
  {
    var r, kc, rc, dir := k.row, k.col, rk.col, CastleDir(k.col, rk.col);
    AfterMoveMarked(g, r, kc, r, kc + 2 * dir);
    var g3 := AfterMove(g, r, kc, r, kc + 2 * dir);
    AfterMoveEffect(g, r, kc, r, kc + 2 * dir);
    var g4 := AfterMove(g3, r, rc, r, kc + dir);
    AfterMoveEffect(g3, r, rc, r, kc + dir);
    SetFlagUnchanged(g4, r, kc + 2 * dir, true);
    SetFlagUnchanged(g4, r, kc + dir, true);
  }

  /** The back rank of a colour and the rank of its pawns in front of it. */
  function HomeRow(color: Color): int
  {
    if color == White then 7 else 0
  }

  function FrontRow(color: Color): int
  {
    HomeRow(color) + PawnDir(color)
  }

  /** A position where the enemy cannot reach the back rank of `color`: no
      enemy piece within two ranks of it, the rank in front of it full, and
      the kings of `color` on the back rank. */
  ghost predicate HomeGuarded(g: Grid, color: Color)
  {
    && (forall r, c | Abs(r - HomeRow(color)) <= 2 && Get(g, r, c).Some? :: Get(g, r, c).value.color == color)
    && (forall c | 0 <= c < 8 :: Get(g, FrontRow(color), c).Some?)
    && (forall r, c | IsPieceOf(Get(g, r, c), King, color) :: r == HomeRow(color))
  }

  /** Along the back rank every piece belongs to `color`, so a ray along it
      meets no enemy slider. */
  lemma {:induction false} HomeRayBlind(g: Grid, color: Color, c: int, dc: int, rookLike: bool)
    requires HomeGuarded(g, color) && (dc == 1 || dc == -1)
    ensures !RayHit(g, HomeRow(color), c, 0, dc, Opponent(color), rookLike)
    decreases Reach(c, dc)
  {
    var r, nc := HomeRow(color), c + dc;
    if IsValidPosition(r, nc) && Get(g, r, nc).None? {
      HomeRayBlind(g, color, nc, dc, rookLike);
    }
  }

  /** No square of a guarded back rank is attacked by the enemy. */
  lemma HomeSquareSafe(g: Grid, color: Color, c: int)
    requires HomeGuarded(g, color) && 0 <= c < 8
    ensures !Attacked(g, HomeRow(color), c, Opponent(color))
  {
    var r, e := HomeRow(color), Opponent(color);
    HomeRayBlind(g, color, c, 1, true);
    HomeRayBlind(g, color, c, -1, true);
    assert Get(g, FrontRow(color), c).Some?;
    assert !RayHit(g, r, c, Straight[0].0, Straight[0].1, e, true);
    assert !RayHit(g, r, c, Straight[1].0, Straight[1].1, e, true);
    forall i | 0 <= i < 4
      ensures !RayHit(g, r, c, Diagonals[i].0, Diagonals[i].1, e, false)
    {
      var nr, nc := r + Diagonals[i].0, c + Diagonals[i].1;
      if IsValidPosition(nr, nc) {
        assert nr == FrontRow(color) && Get(g, nr, nc).Some?;
      }
    }
  }

  /** A side whose back rank is guarded is not in check. */
  lemma HomeGuardedSafe(g: Grid, color: Color)
    requires HomeGuarded(g, color)
    ensures !InCheck(g, color)
  {
    forall r, c | 0 <= r < 8 && 0 <= c < 8 && IsPieceOf(Get(g, r, c), King, color)
      ensures !Attacked(g, r, c, Opponent(color))
    {
      HomeSquareSafe(g, color, c);
    }
  }

  /** The king sliding along a guarded back rank keeps it guarded. */
  lemma HomeGuardedAfterStep(g: Grid, color: Color, kc: int, c: int)
    requires HomeGuarded(g, color) && 0 <= kc < 8 && 0 <= c < 8 && kc != c
    ensures HomeGuarded(AfterMove(g, HomeRow(color), kc, HomeRow(color), c), color)
  {
    AfterMoveEffect(g, HomeRow(color), kc, HomeRow(color), c);
  }

  /** On a guarded back rank with the king's two squares free of danger,
      castling is refused or accepted only on the flags and the gap. */
  lemma GuardedCastleAllowed(g: Grid, k: Piece, rk: Piece)
    requires HomeGuarded(g, k.color) && k.row == HomeRow(k.color)
    requires Get(g, k.row, k.col) == Some(k) && 0 <= k.col + 2 * CastleDir(k.col, rk.col) < 8
    ensures CastleAllowed(g, k, rk) <==> !k.hasMoved && !rk.hasMoved && GapClear(g, k.row, k.col, rk.col)
  {
    var r, kc, dir := k.row, k.col, CastleDir(k.col, rk.col);
    HomeGuardedSafe(g, k.color);
    GuardedStepSafe(g, k, kc + dir);
    GuardedStepSafe(g, k, kc + 2 * dir);
    assert !InCheck(g, k.color) && LeavesKingSafe(g, k, (r, kc + dir)) && LeavesKingSafe(g, k, (r, kc + 2 * dir));
    CastleAllowedExactly(g, k, rk);
  }

  /** A king stepping along its guarded back rank stays out of check. */
  lemma GuardedStepSafe(g: Grid, k: Piece, c: int)
    requires HomeGuarded(g, k.color) && k.row == HomeRow(k.color)
    requires 0 <= k.col < 8 && 0 <= c < 8 && c != k.col
    ensures LeavesKingSafe(g, k, (k.row, c))
  {
    HomeGuardedAfterStep(g, k.color, k.col, c);
    HomeGuardedSafe(AfterMove(g, k.row, k.col, k.row, c), k.color);
  }

  /** Short castling of white from the opening position with the bishop and
      the knight taken off (7, 5) and (7, 6): accepted, the king ends on
      (7, 6) and the rook on (7, 5). */
  lemma WhiteShortCastle()
    ensures var h := Set(Set(InitialGrid(), 7, 5, None), 7, 6, None);
            var k, rk := NewPiece(King, White, 7, 4), NewPiece(Rook, White, 7, 7);
            && CastleAllowed(h, k, rk)
            && Get(CastleAfter(h, k, rk), 7, 6) == Some(Piece(King, White, 7, 6, true))
            && Get(CastleAfter(h, k, rk), 7, 5) == Some(Piece(Rook, White, 7, 5, true))
  {
    var h := Set(Set(InitialGrid(), 7, 5, None), 7, 6, None);
    var k, rk := NewPiece(King, White, 7, 4), NewPiece(Rook, White, 7, 7);
    InitialGridCells();
    assert Get(h, 7, 4) == Some(k) && Get(h, 7, 7) == Some(rk);
    assert HomeGuarded(h, White);
    GuardedCastleAllowed(h, k, rk);
    CastleMovesBoth(h, k, rk);
  }

  /** The black side after white's e2-e4, with the knight, the bishop and
      the queen taken off (0, 1), (0, 2) and (0, 3). */
  function BlackLongBoard(): Grid
  {
    Set(Set(Set(AfterMove(InitialGrid(), 6, 4, 4, 4), 0, 1, None), 0, 2, None), 0, 3, None)
  }

  /** That board square by square. */
  function BlackLongCell(r: int, c: int): Cell
  {
    if (r, c) == (0, 1) || (r, c) == (0, 2) || (r, c) == (0, 3) || (r, c) == (6, 4) then None
    else if (r, c) == (4, 4) then Some(Piece(Pawn, White, 4, 4, true))
    else InitialCell(r, c)
  }

  lemma BlackLongCells()
    ensures forall r, c :: Get(BlackLongBoard(), r, c) == BlackLongCell(r, c)
  {
    InitialGridCells();
    AfterMoveEffect(InitialGrid(), 6, 4, 4, 4);
  }

  /** On any board with those squares black's back rank is shielded, the
      king and the queen's rook stand unmoved, and the gap between them is
      empty. */
  lemma BlackLongGuarded(h: Grid)
    requires forall r, c :: Get(h, r, c) == BlackLongCell(r, c)
    ensures HomeGuarded(h, Black)
    ensures Get(h, 0, 4) == Some(NewPiece(King, Black, 0, 4)) && Get(h, 0, 0) == Some(NewPiece(Rook, Black, 0, 0))
    ensures GapClear(h, 0, 4, 0)
  {
  }

  /** Long castling of black on that board: accepted, the king ends on
      (0, 2) and the rook on (0, 3). */
  lemma BlackLongCastle()
    ensures var k, rk := NewPiece(King, Black, 0, 4), NewPiece(Rook, Black, 0, 0);
            && CastleAllowed(BlackLongBoard(), k, rk)
            && Get(CastleAfter(BlackLongBoard(), k, rk), 0, 2) == Some(Piece(King, Black, 0, 2, true))
            && Get(CastleAfter(BlackLongBoard(), k, rk), 0, 3) == Some(Piece(Rook, Black, 0, 3, true))
  {
    var h := BlackLongBoard();
    var k, rk := NewPiece(King, Black, 0, 4), NewPiece(Rook, Black, 0, 0);
    BlackLongCells();
    BlackLongGuarded(h);
    GuardedCastleAllowed(h, k, rk);
    CastleMovesBoth(h, k, rk);
  }

  /** A white king on (7, 4) and an unmoved white rook in the same column
      on (0, 4), say a promoted one, with nothing else on the king's row and
      a lone black king on (0, 0). */
  function ColumnRookBoard(): Grid
  {
    Set(Set(Set(EmptyGrid(), 7, 4, Some(NewPiece(King, White, 7, 4))),
            0, 4, Some(NewPiece(Rook, White, 0, 4))), 0, 0, Some(NewPiece(King, Black, 0, 0)))
  }

  /** Castling with that rook is accepted: the emptiness loop walks right,
      wraps round the `int` range and comes back to the king's column, so it
      has looked at the whole row; the king goes to (7, 6) and the rook stays
      on (0, 4), now marked as moved. */
  lemma CastleWithRookInKingsColumn()
    ensures var k, rk := NewPiece(King, White, 7, 4), NewPiece(Rook, White, 0, 4);
            var h := CastleAfter(ColumnRookBoard(), k, rk);
            && CastleAllowed(ColumnRookBoard(), k, rk)
            && Get(h, 7, 6) == Some(Piece(King, White, 7, 6, true))
            && Get(h, 0, 4) == Some(Piece(Rook, White, 0, 4, true))
            && Get(h, 7, 4) == None && Get(h, 7, 5) == None
  {
    var g := ColumnRookBoard();
    var k, rk := NewPiece(King, White, 7, 4), NewPiece(Rook, White, 0, 4);
    assert Get(g, 7, 4) == Some(k) && Get(g, 0, 4) == Some(rk);
    forall r, c ensures !Attacked(g, r, c, Black) {
      OnlyKingsAttackNothing(g, Black, r, c);
    }
    forall c | 5 <= c <= 6 ensures !InCheck(AfterMove(g, 7, 4, 7, c), White) {
      var g' := AfterMove(g, 7, 4, 7, c);
      AfterMoveEffect(g, 7, 4, 7, c);
      forall r', c' ensures !Attacked(g', r', c', Black) {
        OnlyKingsAttackNothing(g', Black, r', c');
      }
    }
    CastleAllowedExactly(g, k, rk);
    PassageMarks(g, k, rk);
    ColumnRookMoves(g, k, rk);
  }

  lemma ColumnRookMoves(g: Grid, k: Piece, rk: Piece)
    requires g == ColumnRookBoard()
    requires k == NewPiece(King, White, 7, 4) && rk == NewPiece(Rook, White, 0, 4)
    ensures var h := CastleMoves(MarkMoved(g, 7, 4), k, rk);
            && Get(h, 7, 6) == Some(Piece(King, White, 7, 6, true))
            && Get(h, 0, 4) == Some(Piece(Rook, White, 0, 4, true))
            && Get(h, 7, 4) == None && Get(h, 7, 5) == None
  {
    AfterMoveMarked(g, 7, 4, 7, 6);
    var g3 := AfterMove(g, 7, 4, 7, 6);
    AfterMoveEffect(g, 7, 4, 7, 6);
    AfterMoveEffect(g3, 7, 4, 7, 5);
  }

  /** A probe puts the king back where it reports itself and the former
      occupant of the square back on it. */
  lemma ProbeKeepsConsistent(g: Grid, r: int, kc: int, c: int)
    requires Consistent(g)
    ensures Consistent(CastleProbe(g, r, kc, c))
  {
    MoveKeepsConsistent(g, r, kc, r, c);
  }

  lemma SetFlagKeepsConsistent(g: Grid, r: int, c: int, moved: bool)
    requires Consistent(g)
    ensures Consistent(SetFlag(g, r, c, moved))
  {
  }

  /** `tryCastle` keeps every piece reporting the square it stands on. */
  lemma CastleKeepsConsistent(g: Grid, k: Piece, rk: Piece)
    requires Consistent(g)
    ensures Consistent(CastleAfter(g, k, rk))
  {
    PassageKeepsConsistent(g, k, rk);
    CastleMovesKeepConsistent(PassageAfter(g, k, rk), k, rk);
  }

  lemma PassageKeepsConsistent(g: Grid, k: Piece, rk: Piece)
    requires Consistent(g)
    ensures Consistent(PassageAfter(g, k, rk))
  {
    var r, kc, dir := k.row, k.col, CastleDir(k.col, rk.col);
    var g1 := CastleProbe(g, r, kc, kc + dir);
    ProbeKeepsConsistent(g, r, kc, kc + dir);
    var g2 := CastleProbe(g1, r, kc, kc + 2 * dir);
    ProbeKeepsConsistent(g1, r, kc, kc + 2 * dir);
    SetFlagKeepsConsistent(g1, r, kc, false);
    SetFlagKeepsConsistent(SetFlag(g1, r, kc, false), rk.row, rk.col, false);
    SetFlagKeepsConsistent(g2, r, kc, false);
    SetFlagKeepsConsistent(SetFlag(g2, r, kc, false), rk.row, rk.col, false);
  }

  lemma CastleMovesKeepConsistent(g: Grid, k: Piece, rk: Piece)
    requires Consistent(g)
    ensures Consistent(CastleMoves(g, k, rk))
  {
    var r, kc, rc, dir := k.row, k.col, rk.col, CastleDir(k.col, rk.col);
    var g3 := AfterMove(AfterMove(g, r, kc, r, kc + 2 * dir), r, rc, r, kc + dir);
    MoveKeepsConsistent(g, r, kc, r, kc + 2 * dir);
    MoveKeepsConsistent(AfterMove(g, r, kc, r, kc + 2 * dir), r, rc, r, kc + dir);
    SetFlagKeepsConsistent(g3, r, KingEnd(kc, rc), true);
    SetFlagKeepsConsistent(SetFlag(g3, r, KingEnd(kc, rc), true), RookEnd(k, rk).0, RookEnd(k, rk).1, true);
  }
}
