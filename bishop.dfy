/** Bishop.java: the diagonal rays of the shared slider walk, and a
    `canMove` that searches the list `pieceMovement` returns. */
module BishopRules {
  import opened Wrappers
  import opened Pieces
  import opened BoardValue
  import opened Attacks
  import opened Lines
  import opened Chessboard
  import opened Sliding

  /** The directions of `pieceMovement`, in the order it walks them. */
  const BishopDirections: seq<(int, int)> := [(-1, -1), (-1, 1), (1, -1), (1, 1)]

  /** `pieceMovement` of a bishop, as a list of squares. */
  function BishopMoves(g: Grid, b: Piece): seq<Square>
  {
    SlideMoves(g, b, BishopDirections)
  }

  /** `pieceMovement`: the diagonal rays, each candidate tried with
      `testMoveSafety` on the shared board. */
  method BishopPieceMovement(board: Board, b: Piece) returns (moves: seq<Square>)
    requires board.Valid() && Get(board.grid, b.row, b.col) == Some(b)
    modifies board, board.cells
    ensures board.Valid() && board.cells == old(board.cells)
    ensures board.grid == SlideAfter(old(board.grid), b, BishopDirections)
    ensures moves == BishopMoves(old(board.grid), b)
  {
    moves := SlidePieceMovement(board, b, BishopDirections);
  }

  /** `canMove`: whether the target is in the list `pieceMovement` builds;
      the origin arguments are not read. */
  method BishopCanMove(board: Board, b: Piece, fromRow: int, fromCol: int, toRow: int, toCol: int) returns (ok: bool)
    requires board.Valid() && Get(board.grid, b.row, b.col) == Some(b)
    modifies board, board.cells
    ensures board.Valid() && board.cells == old(board.cells)
    ensures board.grid == SlideAfter(old(board.grid), b, BishopDirections)
    ensures ok <==> (toRow, toCol) in BishopMoves(old(board.grid), b)
  {
    var validMoves := BishopPieceMovement(board, b);
    ok := FindMove(validMoves, toRow, toCol);
  }

  /** The bishop's moves by geometry: another square of the board on a
      diagonal through the bishop, nothing strictly between, empty or an
      enemy other than a king, and leaving the bishop's side out of check. */
  lemma BishopMovesExactly(g: Grid, b: Piece, t: Square)
    requires IsValidPosition(b.row, b.col)
    ensures var f := (b.row, b.col);
            t in BishopMoves(g, b) <==>
              IsValidPosition(t.0, t.1) && t != f && Abs(t.0 - f.0) == Abs(t.1 - f.1)
              && ClearBetween(g, f, t) && Lands(Get(g, t.0, t.1), b) && LeavesKingSafe(g, b, t)
  {
    var f := (b.row, b.col);
    SlideMovesGeometry(g, b, BishopDirections, t);
    assert (Sign(t.0 - f.0), Sign(t.1 - f.1)) in BishopDirections <==> t.0 != f.0 && t.1 != f.1;
  }

  /** The board of the bishop tests: the white king on (7, 4) and a white
      bishop on (4, 4), with `extra` placed on (3, 3) when given. */
  function TestBoard(extra: Cell): Grid
  {
    var g := Set(Set(EmptyGrid(), 7, 4, Some(NewPiece(King, White, 7, 4))), 4, 4, Some(NewPiece(Bishop, White, 4, 4)));
    if extra.Some? then Set(g, 3, 3, extra) else g
  }

  /** With nothing else on the board the bishop reaches its four diagonal
      neighbours and not the squares beside it on its row and column. */
  lemma UnblockedBishopMovesDiagonally()
    ensures var b := NewPiece(Bishop, White, 4, 4);
            var g := TestBoard(None);
            (3, 3) in BishopMoves(g, b) && (3, 5) in BishopMoves(g, b)
            && (5, 3) in BishopMoves(g, b) && (5, 5) in BishopMoves(g, b)
            && (4, 5) !in BishopMoves(g, b) && (5, 4) !in BishopMoves(g, b)
  {
    var b := NewPiece(Bishop, White, 4, 4);
    var g := TestBoard(None);
    assert forall r, c :: Get(g, r, c).Some? ==> Get(g, r, c).value.color == White;
    DiagonalStepOnOneSidedBoard(g, b, (3, 3));
    DiagonalStepOnOneSidedBoard(g, b, (3, 5));
    DiagonalStepOnOneSidedBoard(g, b, (5, 3));
    DiagonalStepOnOneSidedBoard(g, b, (5, 5));
    BishopMovesExactly(g, b, (4, 5));
    BishopMovesExactly(g, b, (5, 4));
  }

  /** On a board holding pieces of one colour only, a bishop may step to an
      empty diagonal neighbour. */
  lemma DiagonalStepOnOneSidedBoard(g: Grid, b: Piece, t: Square)
    requires forall r, c :: Get(g, r, c).Some? ==> Get(g, r, c).value.color == b.color
    requires IsValidPosition(b.row, b.col) && IsValidPosition(t.0, t.1) && Get(g, t.0, t.1).None?
    requires Abs(t.0 - b.row) == 1 && Abs(t.1 - b.col) == 1
    ensures t in BishopMoves(g, b)
  {
    BishopMovesExactly(g, b, t);
    OneSidedBoardIsSafe(g, b, t);
    forall s | Between((b.row, b.col), t, s)
      ensures false
    {
    }
  }

  /** A white pawn on (3, 3) is neither taken nor jumped over. */
  lemma BishopStopsAtOwnPiece()
    ensures var b := NewPiece(Bishop, White, 4, 4);
            var g := TestBoard(Some(NewPiece(Pawn, White, 3, 3)));
            (3, 3) !in BishopMoves(g, b) && (2, 2) !in BishopMoves(g, b)
  {
    var b := NewPiece(Bishop, White, 4, 4);
    var g := TestBoard(Some(NewPiece(Pawn, White, 3, 3)));
    BishopMovesExactly(g, b, (3, 3));
    BishopMovesExactly(g, b, (2, 2));
    assert Between((4, 4), (2, 2), (3, 3));
  }

  /** A black king on (3, 3) is not offered as a capture. */
  lemma BishopCannotCaptureKing()
    ensures var b := NewPiece(Bishop, White, 4, 4);
            (3, 3) !in BishopMoves(TestBoard(Some(NewPiece(King, Black, 3, 3))), b)
  {
    var b := NewPiece(Bishop, White, 4, 4);
    BishopMovesExactly(TestBoard(Some(NewPiece(King, Black, 3, 3))), b, (3, 3));
  }
}
