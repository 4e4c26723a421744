/** Knight.java: the jumps, filtered by simulating each one on the shared
    board, asking `isInCheck` and undoing it (the knight's own flag is put
    back by hand). */
module KnightRules {
  import opened Wrappers
  import opened Pieces
  import opened BoardValue
  import opened Attacks
  import opened Chessboard

  /** The eight jump targets of knight k, in the order of `step`. */
  function KnightCandidates(k: Piece): seq<Square>
  {
    seq(8, i requires 0 <= i < 8 => (k.row + KnightJumps[i].0, k.col + KnightJumps[i].1))
  }

  /** A target a knight may land on before the safety test: on the board,
      and empty or holding an enemy piece other than a king. */
  predicate KnightTargetOk(g: Grid, k: Piece, t: Square)
  {
    IsValidPosition(t.0, t.1)
    && (Get(g, t.0, t.1).None? || (Get(g, t.0, t.1).value.color != k.color && Get(g, t.0, t.1).value.kind != King))
  }

  function KnightKeep(g: Grid, k: Piece): Square -> bool
  {
    (t: Square) => KnightTargetOk(g, k, t) && LeavesKingSafe(g, k, t)
  }

  /** `pieceMovement` on the grid the knight stands on. */
  function KnightMoves(g: Grid, k: Piece): seq<Square>
  {
    Filter(KnightCandidates(k), KnightKeep(g, k))
  }

  /** An L-shaped displacement: two squares one way and one the other. */
  predicate IsJump(fr: int, fc: int, tr: int, tc: int)
  {
    (Abs(tr - fr) == 2 && Abs(tc - fc) == 1) || (Abs(tr - fr) == 1 && Abs(tc - fc) == 2)
  }

  /** `pieceMovement` holds exactly the L-shaped targets on the board that
      are empty or hold an enemy non-king, and whose simulation leaves the
      knight's side out of check. */
  lemma KnightMovesExactly(g: Grid, k: Piece)
    ensures forall t :: t in KnightMoves(g, k) <==>
                          IsJump(k.row, k.col, t.0, t.1) && KnightTargetOk(g, k, t) && LeavesKingSafe(g, k, t)
  {
    FilterMembers(KnightCandidates(k), KnightKeep(g, k));
    forall t: Square {
      KnightCandidatesAreJumps(k, t);
    }
  }

  /** The candidate list is the eight L-shaped jumps, on the board or not. */
  lemma KnightCandidatesAreJumps(k: Piece, t: Square)
    ensures t in KnightCandidates(k) <==> IsJump(k.row, k.col, t.0, t.1)
  {
    if IsJump(k.row, k.col, t.0, t.1) {
      var dr, dc := t.0 - k.row, t.1 - k.col;
      var j := if dr == -2 then (if dc == -1 then 0 else 1)
               else if dr == -1 then (if dc == -2 then 2 else 3)
               else if dr == 1 then (if dc == -2 then 4 else 5)
               else (if dc == -1 then 6 else 7);
      assert t == KnightCandidates(k)[j];
    }
  }

  /** `pieceMovement`: every candidate is tried on the board itself; the
      board, flags included, is as it was afterwards. */
  method KnightPieceMovement(board: Board, k: Piece) returns (safe: seq<Square>)
    requires board.Valid() && Get(board.grid, k.row, k.col) == Some(k)
    modifies board, board.cells
    ensures board.Valid() && board.cells == old(board.cells)
    ensures board.grid == old(board.grid)
    ensures safe == KnightMoves(old(board.grid), k)
  {
    ghost var g := board.grid;
    ghost var keep := KnightKeep(g, k);
    safe := [];
    for i := 0 to 8
      invariant board.Valid() && board.cells == old(board.cells)
      invariant board.grid == g
      invariant safe == Filter(KnightCandidates(k)[..i], keep)
    {
      assert KnightCandidates(k)[..i + 1][..i] == KnightCandidates(k)[..i];
      var toR, toC := k.row + KnightJumps[i].0, k.col + KnightJumps[i].1;
      assert KnightCandidates(k)[i] == (toR, toC);
      if !IsValidPosition(toR, toC) {
        continue;
      }
      var tgt := board.GetPiece(toR, toC);
      if tgt.Some? {
        if tgt.value.color == k.color {
          continue;
        }
        if tgt.value.kind == King {
          continue;
        }
      }
      ProbeRestores(g, k, toR, toC);
      var inCheck := Probe(board, k, toR, toC);
      if !inCheck {
        safe := safe + [(toR, toC)];
      }
    }
    assert KnightCandidates(k)[..8] == KnightCandidates(k);
  }

  /** The body shared by both loops of Knight.java: make the move, ask
      `isInCheck`, undo it with the former occupant of the target and put
      the knight's flag back. */
  method Probe(board: Board, k: Piece, tr: int, tc: int) returns (inCheck: bool)
    requires board.Valid() && Get(board.grid, k.row, k.col) == Some(k)
    modifies board, board.cells
    ensures board.Valid() && board.cells == old(board.cells)
    ensures board.grid == ProbeAfter(old(board.grid), k, tr, tc)
    ensures inCheck == !LeavesKingSafe(old(board.grid), k, (tr, tc))
  {
    var tgt := board.GetPiece(tr, tc);
    var fromR, fromC := k.row, k.col;
    var movedFlag := k.hasMoved;
    board.MakeMove(fromR, fromC, tr, tc);
    inCheck := board.IsInCheck(k.color);
    board.UndoMove(fromR, fromC, tr, tc, tgt);
    board.SetHasMovedAt(fromR, fromC, movedFlag);
  }

  /** The grid after `Probe`. */
  function ProbeAfter(g: Grid, k: Piece, tr: int, tc: int): Grid
  {
    SetFlag(AfterUndo(AfterMove(g, k.row, k.col, tr, tc), k.row, k.col, tr, tc, Get(g, tr, tc)), k.row, k.col, k.hasMoved)
  }

  /** A probe of a target on the board leaves the grid exactly as it was. */
  lemma ProbeRestores(g: Grid, k: Piece, tr: int, tc: int)
    requires Get(g, k.row, k.col) == Some(k) && IsValidPosition(tr, tc) && (tr, tc) != (k.row, k.col)
    ensures ProbeAfter(g, k, tr, tc) == g
  {
    UndoAfterMove(g, k.row, k.col, tr, tc);
    FlagRestored(g, k.row, k.col);
  }

  /** What `canMove` answers, as written: an L shape, a target that is not
      the knight's own colour nor a king, and a simulation that leaves the
      knight's side out of check.  Nothing checks that the target is on
      the board. */
  predicate KnightCanMoveAsWrittenSpec(g: Grid, k: Piece, tr: int, tc: int)
  {
    IsJump(k.row, k.col, tr, tc)
    && (Get(g, tr, tc).None? || (Get(g, tr, tc).value.color != k.color && Get(g, tr, tc).value.kind != King))
    && LeavesKingSafe(g, k, (tr, tc))
  }

  /** The grid `canMove` leaves behind, as written. */
  function KnightCanMoveAsWrittenAfter(g: Grid, k: Piece, tr: int, tc: int): Grid
  {
    if IsJump(k.row, k.col, tr, tc)
       && (Get(g, tr, tc).None? || (Get(g, tr, tc).value.color != k.color && Get(g, tr, tc).value.kind != King))
    then ProbeAfter(g, k, tr, tc)
    else g
  }

  /** `canMove` as written, called with the knight's own square as origin. */
  method KnightCanMoveAsWritten(board: Board, k: Piece, fr: int, fc: int, tr: int, tc: int) returns (ok: bool)
    requires board.Valid() && (fr, fc) == (k.row, k.col) && Get(board.grid, fr, fc) == Some(k)
    modifies board, board.cells
    ensures board.Valid() && board.cells == old(board.cells)
    ensures board.grid == KnightCanMoveAsWrittenAfter(old(board.grid), k, tr, tc)
    ensures ok == KnightCanMoveAsWrittenSpec(old(board.grid), k, tr, tc)
  {
    var dR, dC := Abs(tr - fr), Abs(tc - fc);
    if !((dR == 2 && dC == 1) || (dR == 1 && dC == 2)) {
      return false;
    }
    var tgt := board.GetPiece(tr, tc);
    if tgt.Some? {
      if tgt.value.color == k.color {
        return false;
      }
      if tgt.value.kind == King {
        return false;
      }
    }
    var inCheck := Probe(board, k, tr, tc);
    return !inCheck;
  }

  /** As written, `canMove` towards an L-shaped square off the board takes
      the knight off the board: the simulated move drops it and the undo
      finds nothing to bring back.  A lone white knight on (0, 1) asked
      about (-2, 0) vanishes and the answer is yes. */
  lemma KnightVanishesOffBoard()
    ensures var k := NewPiece(Knight, White, 0, 1);
            var g := Set(EmptyGrid(), 0, 1, Some(k));
            KnightCanMoveAsWrittenSpec(g, k, -2, 0)
            && KnightCanMoveAsWrittenAfter(g, k, -2, 0) == EmptyGrid()
  {
    var k := NewPiece(Knight, White, 0, 1);
    var g := Set(EmptyGrid(), 0, 1, Some(k));
    GridExt(KnightCanMoveAsWrittenAfter(g, k, -2, 0), EmptyGrid());
  }

  /** `canMove` with the target kept on the board: a square off the board
      is refused before anything is simulated. */
  method KnightCanMove(board: Board, k: Piece, fr: int, fc: int, tr: int, tc: int) returns (ok: bool)
    requires board.Valid() && (fr, fc) == (k.row, k.col) && Get(board.grid, fr, fc) == Some(k)
    modifies board, board.cells
    ensures board.Valid() && board.cells == old(board.cells)
    ensures board.grid == old(board.grid)
    ensures ok <==> (tr, tc) in KnightMoves(old(board.grid), k)
  {
    KnightMovesExactly(board.grid, k);
    if !IsValidPosition(tr, tc) {
      return false;
    }
    if IsJump(k.row, k.col, tr, tc) {
      ProbeRestores(board.grid, k, tr, tc);
    }
    ok := KnightCanMoveAsWritten(board, k, fr, fc, tr, tc);
  }

  /** A knight on (3, 3) with only the white king on (7, 4) besides it has
      all eight jumps. */
  lemma CentralKnightHasEightMoves()
    ensures var k := NewPiece(Knight, White, 3, 3);
            var g := Set(Set(EmptyGrid(), 7, 4, Some(NewPiece(King, White, 7, 4))), 3, 3, Some(k));
            KnightMoves(g, k) == KnightCandidates(k) && |KnightMoves(g, k)| == 8
  {
    var k := NewPiece(Knight, White, 3, 3);
    var g := Set(Set(EmptyGrid(), 7, 4, Some(NewPiece(King, White, 7, 4))), 3, 3, Some(k));
    forall i | 0 <= i < 8
      ensures KnightKeep(g, k)(KnightCandidates(k)[i])
    {
      OneSidedBoardIsSafe(g, k, KnightCandidates(k)[i]);
    }
    FilterAll(KnightCandidates(k), KnightKeep(g, k));
  }

  /** The knight's moves do not depend on any moved flag. */
  lemma KnightMovesSameMen(g1: Grid, g2: Grid, k: Piece)
    requires SameMen(g1, g2)
    ensures KnightMoves(g1, k) == KnightMoves(g2, k)
  {
    var ts := KnightCandidates(k);
    forall i | 0 <= i < |ts|
      ensures KnightKeep(g1, k)(ts[i]) == KnightKeep(g2, k)(ts[i])
    {
      SameMenAt(g1, g2, ts[i].0, ts[i].1);
      LeavesKingSafeSameMen(g1, g2, k, ts[i]);
    }
    FilterSameKeep(ts, KnightKeep(g1, k), KnightKeep(g2, k));
  }
}
