/** Piece.java: the two operations every piece implements, `pieceMovement`
    and `canMove`, dispatched on the kind of the piece. */
module Movement {
  import opened Wrappers
  import opened Pieces
  import opened BoardValue
  import opened Attacks
  import opened Lines
  import opened Chessboard
  import opened Sliding
  import opened PawnRules
  import opened KnightRules
  import opened BishopRules
  import opened RookRules
  import opened QueenRules
  import opened KingRules

  /** The game's en-passant target, when there is one, is a square of the
      board. */
  predicate EpOnBoard(ep: Option<Square>)
  {
    ep.Some? ==> IsValidPosition(ep.value.0, ep.value.1)
  }

  /** `pieceMovement` of any piece. */
  function Moves(g: Grid, p: Piece, ep: Option<Square>): seq<Square>
  {
    match p.kind
    case Pawn => PawnMoves(g, p, ep)
    case Knight => KnightMoves(g, p)
    case Bishop => BishopMoves(g, p)
    case Rook => RookMoves(g, p)
    case Queen => QueenMoves(g, p)
    case King => KingMoves(g, p)
  }

  /** The grid `pieceMovement` leaves behind: only the bishop's and the
      queen's probes leave a trace, the piece's raised flag. */
  function MovementAfter(g: Grid, p: Piece): Grid
  {
    match p.kind
    case Bishop => SlideAfter(g, p, BishopDirections)
    case Queen => SlideAfter(g, p, QueenDirections)
    case _ => g
  }

  /** `pieceMovement`, called on the piece standing on its square. */
  method PieceMovement(board: Board, p: Piece, ep: Option<Square>) returns (moves: seq<Square>)
    requires board.Valid() && Get(board.grid, p.row, p.col) == Some(p) && EpOnBoard(ep)
    modifies board, board.cells
    ensures board.Valid() && board.cells == old(board.cells)
    ensures board.grid == MovementAfter(old(board.grid), p)
    ensures moves == Moves(old(board.grid), p, ep)
  {
    match p.kind
    case Pawn => moves := PawnPieceMovement(board, p, ep);
    case Knight => moves := KnightPieceMovement(board, p);
    case Bishop => moves := BishopPieceMovement(board, p);
    case Rook =>
      var g := board.Snapshot();
      moves := RookMoves(g, p);
    case Queen => moves := QueenPieceMovement(board, p);
    case King =>
      var g := board.Snapshot();
      moves := KingMoves(g, p);
  }

  /** The answer of `canMove` from the piece's own square: the rook and the
      queen judge by geometry, every other piece searches its move list. */
  function CanMoveAnswer(g: Grid, p: Piece, ep: Option<Square>, t: Square): bool
  {
    match p.kind
    case Rook => RookCanMove(g, p, p.row, p.col, t.0, t.1)
    case Queen => QueenCanMove(g, p, p.row, p.col, t.0, t.1)
    case _ => t in Moves(g, p, ep)
  }

  /** The grid `canMove` leaves behind: only the bishop's search, through
      `pieceMovement`, leaves a trace. */
  function CanMoveAfter(g: Grid, p: Piece): Grid
  {
    if p.kind == Bishop then SlideAfter(g, p, BishopDirections) else g
  }

  /** `canMove(row, col, toRow, toCol)` of the piece standing on (row, col). */
  method CanMove(board: Board, p: Piece, ep: Option<Square>, tr: int, tc: int) returns (ok: bool)
    requires board.Valid() && Get(board.grid, p.row, p.col) == Some(p) && EpOnBoard(ep)
    modifies board, board.cells
    ensures board.Valid() && board.cells == old(board.cells)
    ensures board.grid == CanMoveAfter(old(board.grid), p)
    ensures ok == CanMoveAnswer(old(board.grid), p, ep, (tr, tc))
  {
    match p.kind
    case Pawn =>
      PawnMovesExactly(board.grid, p, ep);
      ok := PawnCanMove(board, p, ep, p.row, p.col, tr, tc);
    case Knight => ok := KnightCanMove(board, p, p.row, p.col, tr, tc);
    case Bishop => ok := BishopCanMove(board, p, p.row, p.col, tr, tc);
    case Rook =>
      var g := board.Snapshot();
      ok := RookCanMove(g, p, p.row, p.col, tr, tc);
    case Queen =>
      var g := board.Snapshot();
      ok := QueenCanMove(g, p, p.row, p.col, tr, tc);
    case King =>
      var g := board.Snapshot();
      KingMovesExactly(g, p);
      ok := KingCanMove(g, p, p.row, p.col, tr, tc);
  }

  /** Every piece other than the queen accepts in `canMove` exactly the
      squares its `pieceMovement` lists; the rook's geometric test agrees
      with its rays. */
  lemma CanMoveMatchesMoves(g: Grid, p: Piece, ep: Option<Square>, t: Square)
    requires Get(g, p.row, p.col) == Some(p) && p.kind != Queen
    ensures CanMoveAnswer(g, p, ep, t) <==> t in Moves(g, p, ep)
  {
    if p.kind == Rook {
      RookMovesMatchCanMove(g, p, t);
    }
  }

  /** Every move of a piece standing on its square goes to another square
      of the board. */
  lemma MovesTargets(g: Grid, p: Piece, ep: Option<Square>, t: Square)
    requires Get(g, p.row, p.col) == Some(p) && EpOnBoard(ep)
    requires t in Moves(g, p, ep)
    ensures IsValidPosition(t.0, t.1) && t != (p.row, p.col)
  {
    match p.kind
    case Pawn =>
      PawnMovesExactly(g, p, ep);
      PawnCandidatesOnBoard(g, p, ep, t);
    case Knight =>
      KnightMovesExactly(g, p);
    case Bishop =>
      BishopMovesExactly(g, p, t);
    case Rook =>
      RookMovesMatchCanMove(g, p, t);
    case Queen =>
      QueenMovesExactly(g, p, t);
    case King =>
      KingMovesExactly(g, p);
  }

  /** A move never lands on a piece of the mover's colour, and only the
      rook may land on a king (with the en-passant square empty, as the
      game keeps it). */
  lemma MovesLand(g: Grid, p: Piece, ep: Option<Square>, t: Square)
    requires Get(g, p.row, p.col) == Some(p) && EpOnBoard(ep)
    requires ep.Some? ==> Get(g, ep.value.0, ep.value.1).None?
    requires t in Moves(g, p, ep)
    ensures Get(g, t.0, t.1).None? || Get(g, t.0, t.1).value.color != p.color
    ensures p.kind != Rook ==> !IsPieceOf(Get(g, t.0, t.1), King, Opponent(p.color))
  {
    match p.kind
    case Pawn =>
      PawnLands(g, p, ep, t);
    case Knight =>
      KnightMovesExactly(g, p);
    case Bishop =>
      BishopMovesExactly(g, p, t);
    case Rook =>
      RookMovesMatchCanMove(g, p, t);
    case Queen =>
      QueenMovesExactly(g, p, t);
    case King =>
      KingMovesExactly(g, p);
  }

  /** The pawn's part of `MovesLand`: a push lands on an empty square, a
      capture on an enemy other than a king, an en-passant capture on the
      empty en-passant square. */
  lemma PawnLands(g: Grid, p: Piece, ep: Option<Square>, t: Square)
    requires p.kind == Pawn
    requires ep.Some? ==> Get(g, ep.value.0, ep.value.1).None?
    requires t in PawnMoves(g, p, ep)
    ensures Get(g, t.0, t.1).None? || (Get(g, t.0, t.1).value.color != p.color && Get(g, t.0, t.1).value.kind != King)
  {
    PawnMovesExactly(g, p, ep);
    PawnCandidatesMembers(g, p, ep, t);
  }

  /** The knight's, the bishop's and the queen's moves all leave their side
      out of check. */
  lemma FilteredMovesAreSafe(g: Grid, p: Piece, ep: Option<Square>, t: Square)
    requires IsValidPosition(p.row, p.col) && p.kind in {Knight, Bishop, Queen}
    requires t in Moves(g, p, ep)
    ensures LeavesKingSafe(g, p, t)
  {
    match p.kind
    case Knight => KnightMovesExactly(g, p);
    case Bishop => BishopMovesExactly(g, p, t);
    case Queen => QueenMovesExactly(g, p, t);
  }

  /** The rook has no such filter: with the white king on (7, 4), a white
      rook on (6, 4) and a black rook on (0, 4), the white rook may step
      aside to (6, 0) and leave its king in check. */
  lemma PinnedRookMayStepAside()
    ensures var rook := NewPiece(Rook, White, 6, 4);
            var g := Set(Set(Set(EmptyGrid(), 7, 4, Some(NewPiece(King, White, 7, 4))), 6, 4, Some(rook)),
                         0, 4, Some(NewPiece(Rook, Black, 0, 4)));
            (6, 0) in Moves(g, rook, None) && !LeavesKingSafe(g, rook, (6, 0))
  {
    var rook := NewPiece(Rook, White, 6, 4);
    var g := Set(Set(Set(EmptyGrid(), 7, 4, Some(NewPiece(King, White, 7, 4))), 6, 4, Some(rook)),
                 0, 4, Some(NewPiece(Rook, Black, 0, 4)));
    RookMovesMatchCanMove(g, rook, (6, 0));
    assert PathClear(g, 6, 3, (6, 0), 0, -1) by {
      assert PathClear(g, 6, 0, (6, 0), 0, -1);
      assert PathClear(g, 6, 1, (6, 0), 0, -1);
      assert PathClear(g, 6, 2, (6, 0), 0, -1);
    }
    var g' := AfterMove(g, 6, 4, 6, 0);
    AfterMoveEffect(g, 6, 4, 6, 0);
    assert RayHit(g', 1, 4, -1, 0, Black, true);
    assert RayHit(g', 2, 4, -1, 0, Black, true);
    assert RayHit(g', 3, 4, -1, 0, Black, true);
    assert RayHit(g', 4, 4, -1, 0, Black, true);
    assert RayHit(g', 5, 4, -1, 0, Black, true);
    assert RayHit(g', 6, 4, -1, 0, Black, true);
    assert RayHit(g', 7, 4, Straight[1].0, Straight[1].1, Black, true);
    assert IsPieceOf(Get(g', 7, 4), King, White) && Attacked(g', 7, 4, Black);
  }

  /** A piece's moves do not depend on any moved flag. */
  lemma MovesSameMen(g1: Grid, g2: Grid, p: Piece, ep: Option<Square>)
    requires SameMen(g1, g2)
    ensures Moves(g1, p, ep) == Moves(g2, p, ep)
  {
    match p.kind
    case Pawn => PawnMovesSameMen(g1, g2, p, ep);
    case Knight => KnightMovesSameMen(g1, g2, p);
    case Bishop => SlideMovesSameMen(g1, g2, p, BishopDirections);
    case Rook => RookMovesSameMen(g1, g2, p);
    case Queen => SlideMovesSameMen(g1, g2, p, QueenDirections);
    case King => KingMovesSameMen(g1, g2, p);
  }

  /** `pieceMovement` either leaves the board alone or raises the piece's
      own flag. */
  lemma MovementAfterMarks(g: Grid, p: Piece)
    ensures MovementAfter(g, p) == g || MovementAfter(g, p) == MarkMoved(g, p.row, p.col)
    ensures CanMoveAfter(g, p) == g || CanMoveAfter(g, p) == MarkMoved(g, p.row, p.col)
  {
  }
}
