/** Pawn.java: pushes, captures and en passant, each candidate filtered by
    simulating it on the shared board.  The game's en-passant target is a
    parameter here; the simulation never changes it. */
module PawnRules {
  import opened Wrappers
  import opened Pieces
  import opened BoardValue
  import opened Attacks
  import opened Chessboard

  /** The row a colour's pawns start on. */
  function StartRow(color: Color): int
  {
    if color == White then 6 else 1
  }

  /** `addCaptureIfEnemy` as a list of zero or one square. */
  function CaptureIfEnemy(g: Grid, p: Piece, r: int, c: int): seq<Square>
  {
    if IsValidPosition(r, c) && Get(g, r, c).Some? && Get(g, r, c).value.color != p.color && Get(g, r, c).value.kind != King
    then [(r, c)] else []
  }

  /** The single push: the next square ahead, when it is on the board and
      empty. */
  function SinglePush(g: Grid, p: Piece): seq<Square>
  {
    var nextRow := p.row + PawnDir(p.color);
    if IsValidPosition(nextRow, p.col) && IsEmpty(g, nextRow, p.col) then [(nextRow, p.col)] else []
  }

  /** The double push: two squares ahead, from the start row, when both
      squares ahead are empty. */
  function DoublePush(g: Grid, p: Piece): seq<Square>
  {
    var nextRow, twoRow := p.row + PawnDir(p.color), p.row + 2 * PawnDir(p.color);
    if p.row == StartRow(p.color) && IsEmpty(g, nextRow, p.col) && IsEmpty(g, twoRow, p.col) then [(twoRow, p.col)] else []
  }

  /** The en-passant target, when it is diagonally ahead of the pawn. */
  function EnPassantCandidate(p: Piece, ep: Option<Square>): seq<Square>
  {
    if ep.Some? && ep.value.0 == p.row + PawnDir(p.color) && Abs(ep.value.1 - p.col) == 1 then [ep.value] else []
  }

  /** The candidate list of `pieceMovement`, in its order: single push,
      double push, left and right captures, the en-passant square. */
  function PawnCandidates(g: Grid, p: Piece, ep: Option<Square>): seq<Square>
  {
    var nextRow := p.row + PawnDir(p.color);
    SinglePush(g, p) + DoublePush(g, p)
    + CaptureIfEnemy(g, p, nextRow, p.col - 1) + CaptureIfEnemy(g, p, nextRow, p.col + 1)
    + EnPassantCandidate(p, ep)
  }

  /** Whether the simulation of a move to t is an en-passant capture: t is
      the en-passant target and is empty. */
  predicate IsEnPassant(g: Grid, ep: Option<Square>, t: Square)
  {
    ep == Some(t) && Get(g, t.0, t.1).None?
  }

  /** The square of the pawn an en-passant capture onto t takes: behind t. */
  function CapturedSquare(p: Piece, t: Square): Square
  {
    (t.0 - PawnDir(p.color), t.1)
  }

  /** The grid `isInCheck` is asked about in `moveKeepsKingSafe`: the pawn
      taken en passant removed, then the move made. */
  function PawnSimulated(g: Grid, p: Piece, ep: Option<Square>, t: Square): Grid
  {
    var cap := CapturedSquare(p, t);
    var g1 := if IsEnPassant(g, ep, t) && Get(g, cap.0, cap.1).Some? then Set(g, cap.0, cap.1, None) else g;
    AfterMove(g1, p.row, p.col, t.0, t.1)
  }

  /** `moveKeepsKingSafe` */
  predicate PawnSafe(g: Grid, p: Piece, ep: Option<Square>, t: Square)
  {
    !InCheck(PawnSimulated(g, p, ep, t), p.color)
  }

  function PawnKeep(g: Grid, p: Piece, ep: Option<Square>): Square -> bool
  {
    (t: Square) => PawnSafe(g, p, ep, t)
  }

  /** `pieceMovement` */
  function PawnMoves(g: Grid, p: Piece, ep: Option<Square>): seq<Square>
  {
    Filter(PawnCandidates(g, p, ep), PawnKeep(g, p, ep))
  }

  /** The result of `pieceMovement` is exactly the candidates whose
      simulation leaves the pawn's side out of check. */
  lemma PawnMovesExactly(g: Grid, p: Piece, ep: Option<Square>)
    ensures forall t :: t in PawnMoves(g, p, ep) <==> t in PawnCandidates(g, p, ep) && PawnSafe(g, p, ep, t)
  {
    FilterMembers(PawnCandidates(g, p, ep), PawnKeep(g, p, ep));
  }

  /** The candidates square by square. */
  lemma PawnCandidatesMembers(g: Grid, p: Piece, ep: Option<Square>, t: Square)
    ensures var dir, next := PawnDir(p.color), p.row + PawnDir(p.color);
            t in PawnCandidates(g, p, ep) <==>
              (t == (next, p.col) && IsValidPosition(next, p.col) && IsEmpty(g, next, p.col))
              || (t == (p.row + 2 * dir, p.col) && p.row == StartRow(p.color) && IsEmpty(g, next, p.col) && IsEmpty(g, t.0, t.1))
              || t in CaptureIfEnemy(g, p, next, p.col - 1) || t in CaptureIfEnemy(g, p, next, p.col + 1)
              || (ep == Some(t) && t.0 == next && Abs(t.1 - p.col) == 1)
  {
  }

  /** The single push is a candidate exactly when the next square is on the
      board and empty. */
  lemma SinglePushRule(g: Grid, p: Piece, ep: Option<Square>)
    ensures var next := p.row + PawnDir(p.color);
            (next, p.col) in PawnCandidates(g, p, ep) <==> IsValidPosition(next, p.col) && IsEmpty(g, next, p.col)
  {
    PawnCandidatesMembers(g, p, ep, (p.row + PawnDir(p.color), p.col));
  }

  /** The double push is a candidate exactly from the start row with both
      squares ahead empty. */
  lemma DoublePushRule(g: Grid, p: Piece, ep: Option<Square>)
    ensures var dir := PawnDir(p.color);
            (p.row + 2 * dir, p.col) in PawnCandidates(g, p, ep) <==>
              p.row == StartRow(p.color) && IsEmpty(g, p.row + dir, p.col) && IsEmpty(g, p.row + 2 * dir, p.col)
  {
    PawnCandidatesMembers(g, p, ep, (p.row + 2 * PawnDir(p.color), p.col));
  }

  /** A forward diagonal square is a candidate exactly when an enemy piece
      other than a king stands on it, or when it is the en-passant target. */
  lemma DiagonalRule(g: Grid, p: Piece, ep: Option<Square>, d: int)
    requires d == -1 || d == 1
    ensures var t := (p.row + PawnDir(p.color), p.col + d);
            t in PawnCandidates(g, p, ep) <==>
              (IsValidPosition(t.0, t.1) && Get(g, t.0, t.1).Some?
               && Get(g, t.0, t.1).value.color != p.color && Get(g, t.0, t.1).value.kind != King)
              || ep == Some(t)
  {
    PawnCandidatesMembers(g, p, ep, (p.row + PawnDir(p.color), p.col + d));
  }

  /** Every candidate lies one row forward, or two from the start row, and
      at most one column aside. */
  lemma CandidatesGoForward(g: Grid, p: Piece, ep: Option<Square>, t: Square)
    requires t in PawnCandidates(g, p, ep)
    ensures t.0 == p.row + PawnDir(p.color) || (t == (p.row + 2 * PawnDir(p.color), p.col) && p.row == StartRow(p.color))
    ensures Abs(t.1 - p.col) <= 1
  {
    PawnCandidatesMembers(g, p, ep, t);
  }

  /** With the en-passant target on the board, every candidate is a square
      of the board other than the pawn's own. */
  lemma PawnCandidatesOnBoard(g: Grid, p: Piece, ep: Option<Square>, t: Square)
    requires IsValidPosition(p.row, p.col)
    requires ep.Some? ==> IsValidPosition(ep.value.0, ep.value.1)
    requires t in PawnCandidates(g, p, ep)
    ensures IsValidPosition(t.0, t.1) && t != (p.row, p.col)
  {
    PawnCandidatesMembers(g, p, ep, t);
  }

  /** `moveKeepsKingSafe` leaves the board as it found it, flags included,
      for any target on the board other than the pawn's own square. */
  lemma PawnProbeRestores(g: Grid, p: Piece, ep: Option<Square>, t: Square)
    requires Get(g, p.row, p.col) == Some(p) && IsValidPosition(t.0, t.1) && t != (p.row, p.col)
    ensures var cap := CapturedSquare(p, t);
            var behind := Get(g, cap.0, cap.1);
            var g1 := if IsEnPassant(g, ep, t) && behind.Some? then Set(g, cap.0, cap.1, None) else g;
            var onTarget := if IsEnPassant(g, ep, t) then None else Get(g, t.0, t.1);
            var g4 := SetFlag(AfterUndo(AfterMove(g1, p.row, p.col, t.0, t.1), p.row, p.col, t.0, t.1, onTarget), p.row, p.col, p.hasMoved);
            (if IsEnPassant(g, ep, t) && behind.Some? then Set(g4, cap.0, cap.1, behind) else g4) == g
  {
    var cap := CapturedSquare(p, t);
    var behind := Get(g, cap.0, cap.1);
    if IsEnPassant(g, ep, t) && behind.Some? {
      var g1 := Set(g, cap.0, cap.1, None);
      if cap == (p.row, p.col) {
        var g4 := SetFlag(AfterUndo(AfterMove(g1, p.row, p.col, t.0, t.1), p.row, p.col, t.0, t.1, None), p.row, p.col, p.hasMoved);
        GridExt(Set(g4, cap.0, cap.1, behind), g);
      } else {
        UndoAfterMove(g1, p.row, p.col, t.0, t.1);
        FlagRestored(g1, p.row, p.col);
        GridExt(Set(g1, cap.0, cap.1, behind), g);
      }
    } else {
      UndoAfterMove(g, p.row, p.col, t.0, t.1);
      FlagRestored(g, p.row, p.col);
    }
  }

  /** `addCaptureIfEnemy` */
  method AddCaptureIfEnemy(board: Board, p: Piece, list: seq<Square>, r: int, c: int) returns (list': seq<Square>)
    requires board.Valid()
    ensures list' == list + CaptureIfEnemy(board.grid, p, r, c)
  {
    list' := list;
    if !IsValidPosition(r, c) {
      return;
    }
    var tgt := board.GetPiece(r, c);
    if tgt.Some? && tgt.value.color != p.color && tgt.value.kind != King {
      list' := list + [(r, c)];
    }
  }

  /** `moveKeepsKingSafe`: the pawn taken en passant is lifted, the move is
      made, `isInCheck` is asked, and everything is put back. */
  method MoveKeepsKingSafe(board: Board, p: Piece, ep: Option<Square>, toRow: int, toCol: int) returns (safe: bool)
    requires board.Valid() && Get(board.grid, p.row, p.col) == Some(p)
    requires IsValidPosition(toRow, toCol) && (toRow, toCol) != (p.row, p.col)
    modifies board, board.cells
    ensures board.Valid() && board.cells == old(board.cells)
    ensures board.grid == old(board.grid)
    ensures safe == PawnSafe(old(board.grid), p, ep, (toRow, toCol))
  {
    ghost var g := board.grid;
    PawnProbeRestores(g, p, ep, (toRow, toCol));
    var enPassant := ep.Some? && toRow == ep.value.0 && toCol == ep.value.1 && board.GetPiece(toRow, toCol).None?;
    var capturedOnTarget := board.GetPiece(toRow, toCol);
    var capturedBehind: Cell := None;
    var capRow, capCol := -1, -1;
    var capturedMovedFlag := false;
    if enPassant {
      capRow := toRow + (if p.color == White then 1 else -1);
      capCol := toCol;
      capturedBehind := board.GetPiece(capRow, capCol);
      if capturedBehind.Some? {
        capturedMovedFlag := capturedBehind.value.hasMoved;
        board.SetPiece(capRow, capCol, None);
      }
      capturedOnTarget := None;
    }
    var fromRow, fromCol := p.row, p.col;
    var originalMovedFlag := p.hasMoved;
    board.MakeMove(fromRow, fromCol, toRow, toCol);
    var inCheck := board.IsInCheck(p.color);
    board.UndoMove(fromRow, fromCol, toRow, toCol, capturedOnTarget);
    board.SetHasMovedAt(fromRow, fromCol, originalMovedFlag);
    if enPassant && capturedBehind.Some? {
      board.SetPiece(capRow, capCol, Some(SetHasMoved(capturedBehind.value, capturedMovedFlag)));
    }
    return !inCheck;
  }

  /** `pieceMovement`: the candidates are listed, then each is kept when
      `moveKeepsKingSafe` says so.  The board is unchanged afterwards. */
  method PawnPieceMovement(board: Board, p: Piece, ep: Option<Square>) returns (safe: seq<Square>)
    requires board.Valid() && Get(board.grid, p.row, p.col) == Some(p)
    requires ep.Some? ==> IsValidPosition(ep.value.0, ep.value.1)
    modifies board, board.cells
    ensures board.Valid() && board.cells == old(board.cells)
    ensures board.grid == old(board.grid)
    ensures safe == PawnMoves(old(board.grid), p, ep)
  {
    var candidates := CollectCandidates(board, p, ep);
    forall t | t in candidates
      ensures IsValidPosition(t.0, t.1) && t != (p.row, p.col)
    {
      PawnCandidatesOnBoard(board.grid, p, ep, t);
    }
    safe := KeepSafe(board, p, ep, candidates);
  }

  /** The first half of `pieceMovement`: the candidate list, built by
      looking at the board. */
  method CollectCandidates(board: Board, p: Piece, ep: Option<Square>) returns (candidates: seq<Square>)
    requires board.Valid()
    ensures candidates == PawnCandidates(board.grid, p, ep)
  {
    ghost var g := board.grid;
    var dir := if p.color == White then -1 else 1;
    var startRow := if p.color == White then 6 else 1;
    assert dir == PawnDir(p.color) && startRow == StartRow(p.color);
    var nextRow := p.row + dir;
    candidates := [];
    if IsValidPosition(nextRow, p.col) && board.IsEmpty(nextRow, p.col) {
      candidates := candidates + [(nextRow, p.col)];
    }
    assert candidates == SinglePush(g, p);
    var twoRow := p.row + 2 * dir;
    if p.row == startRow && board.IsEmpty(nextRow, p.col) && board.IsEmpty(twoRow, p.col) {
      candidates := candidates + [(twoRow, p.col)];
    }
    assert candidates == SinglePush(g, p) + DoublePush(g, p);
    candidates := AddCaptureIfEnemy(board, p, candidates, nextRow, p.col - 1);
    candidates := AddCaptureIfEnemy(board, p, candidates, nextRow, p.col + 1);
    if ep.Some? && ep.value.0 == nextRow && Abs(ep.value.1 - p.col) == 1 {
      candidates := candidates + [ep.value];
    }
  }

  /** The filter loop of `pieceMovement`. */
  method KeepSafe(board: Board, p: Piece, ep: Option<Square>, candidates: seq<Square>) returns (safe: seq<Square>)
    requires board.Valid() && Get(board.grid, p.row, p.col) == Some(p)
    requires forall t | t in candidates :: IsValidPosition(t.0, t.1) && t != (p.row, p.col)
    modifies board, board.cells
    ensures board.Valid() && board.cells == old(board.cells)
    ensures board.grid == old(board.grid)
    ensures safe == Filter(candidates, PawnKeep(old(board.grid), p, ep))
  {
    ghost var g := board.grid;
    safe := [];
    for i := 0 to |candidates|
      invariant board.Valid() && board.cells == old(board.cells)
      invariant board.grid == g
      invariant safe == Filter(candidates[..i], PawnKeep(g, p, ep))
    {
      var t := candidates[i];
      assert candidates[..i + 1][..i] == candidates[..i] && candidates[..i + 1][i] == t;
      var ok := MoveKeepsKingSafe(board, p, ep, t.0, t.1);
      assert ok == PawnKeep(g, p, ep)(t);
      if ok {
        safe := safe + [t];
      }
    }
    assert candidates[..|candidates|] == candidates;
  }

  /** `canMove`: membership in `pieceMovement`; the origin is ignored. */
  method PawnCanMove(board: Board, p: Piece, ep: Option<Square>, fr: int, fc: int, tr: int, tc: int) returns (ok: bool)
    requires board.Valid() && Get(board.grid, p.row, p.col) == Some(p)
    requires ep.Some? ==> IsValidPosition(ep.value.0, ep.value.1)
    modifies board, board.cells
    ensures board.Valid() && board.cells == old(board.cells)
    ensures board.grid == old(board.grid)
    ensures ok <==> (tr, tc) in PawnCandidates(old(board.grid), p, ep) && PawnSafe(old(board.grid), p, ep, (tr, tc))
  {
    PawnMovesExactly(board.grid, p, ep);
    var moves := PawnPieceMovement(board, p, ep);
    ok := (tr, tc) in moves;
  }

  /** A white pawn on (5, 3) between the white king on (5, 2) and a black
      rook on (5, 4) may not push: the push would uncover the king. */
  lemma PinnedPawnCannotPush()
    ensures var pawn := NewPiece(Pawn, White, 5, 3);
            var g := Set(Set(Set(EmptyGrid(), 5, 2, Some(NewPiece(King, White, 5, 2))), 5, 3, Some(pawn)),
                         5, 4, Some(NewPiece(Rook, Black, 5, 4)));
            (4, 3) in PawnCandidates(g, pawn, None) && (4, 3) !in PawnMoves(g, pawn, None)
  {
    var pawn := NewPiece(Pawn, White, 5, 3);
    var g := Set(Set(Set(EmptyGrid(), 5, 2, Some(NewPiece(King, White, 5, 2))), 5, 3, Some(pawn)),
                 5, 4, Some(NewPiece(Rook, Black, 5, 4)));
    PawnMovesExactly(g, pawn, None);
    var g' := PawnSimulated(g, pawn, None, (4, 3));
    assert RayHit(g', 5, 3, 0, 1, Black, true);
    assert RayHit(g', 5, 2, Straight[2].0, Straight[2].1, Black, true);
    assert IsPieceOf(Get(g', 5, 2), King, White) && Attacked(g', 5, 2, Black);
  }

  /** The pawn's simulation answers alike on grids equal up to flags. */
  lemma PawnSafeSameMen(g1: Grid, g2: Grid, p: Piece, ep: Option<Square>, t: Square)
    requires SameMen(g1, g2)
    ensures PawnSafe(g1, p, ep, t) == PawnSafe(g2, p, ep, t)
  {
    var cap := CapturedSquare(p, t);
    SameMenAt(g1, g2, t.0, t.1);
    SameMenAt(g1, g2, cap.0, cap.1);
    var h1 := if IsEnPassant(g1, ep, t) && Get(g1, cap.0, cap.1).Some? then Set(g1, cap.0, cap.1, None) else g1;
    var h2 := if IsEnPassant(g2, ep, t) && Get(g2, cap.0, cap.1).Some? then Set(g2, cap.0, cap.1, None) else g2;
    SameMenSet(g1, g2, cap.0, cap.1, None, None);
    assert SameMen(h1, h2);
    SameMenAfterMove(h1, h2, p.row, p.col, t.0, t.1);
    InCheckSameMen(AfterMove(h1, p.row, p.col, t.0, t.1), AfterMove(h2, p.row, p.col, t.0, t.1), p.color);
  }

  /** The pawn's moves do not depend on any moved flag. */
  lemma PawnMovesSameMen(g1: Grid, g2: Grid, p: Piece, ep: Option<Square>)
    requires SameMen(g1, g2)
    ensures PawnMoves(g1, p, ep) == PawnMoves(g2, p, ep)
  {
    var next := p.row + PawnDir(p.color);
    SameMenAt(g1, g2, next, p.col);
    SameMenAt(g1, g2, p.row + 2 * PawnDir(p.color), p.col);
    SameMenAt(g1, g2, next, p.col - 1);
    SameMenAt(g1, g2, next, p.col + 1);
    assert PawnCandidates(g1, p, ep) == PawnCandidates(g2, p, ep);
    var ts := PawnCandidates(g1, p, ep);
    forall i | 0 <= i < |ts|
      ensures PawnKeep(g1, p, ep)(ts[i]) == PawnKeep(g2, p, ep)(ts[i])
    {
      PawnSafeSameMen(g1, g2, p, ep, ts[i]);
    }
    FilterSameKeep(ts, PawnKeep(g1, p, ep), PawnKeep(g2, p, ep));
  }
}
