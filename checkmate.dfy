/** `isCheckmate` of Board.java.  It asks every piece of the colour for its
    `pieceMovement`, so it sits above the pieces here and takes the board as
    a parameter. */
module Checkmate {
  import opened Wrappers
  import opened Pieces
  import opened BoardValue
  import opened Attacks
  import opened Chessboard
  import opened Movement

  /** Where a scan of the piece list ends: whether it stopped early, and the
      grid it leaves behind. */
  datatype Scan = Scan(found: bool, after: Grid)

  /** Some move of p, simulated from p's square, leaves p's side out of
      check. */
  ghost predicate Escapes(g: Grid, p: Piece, ep: Option<Square>)
  {
    exists t | t in Moves(g, p, ep) :: LeavesKingSafe(g, p, t)
  }

  /** The grid one piece's turn of `isCheckmate` leaves: `pieceMovement`,
      then each simulated move raises the piece's flag. */
  function TurnAfter(g: Grid, p: Piece, ep: Option<Square>): Grid
  {
    if Moves(g, p, ep) == [] then MovementAfter(g, p) else MarkMoved(MovementAfter(g, p), p.row, p.col)
  }

  /** The loop of `isCheckmate` over a piece list: pieces of the other
      colour are skipped; the scan stops at the first piece with an escape. */
  ghost function MateScan(g: Grid, ps: seq<Piece>, color: Color, ep: Option<Square>): Scan
    decreases |ps|
  {
    if ps == [] then Scan(false, g)
    else if ps[0].color != color then MateScan(g, ps[1..], color, ep)
    else if Escapes(g, ps[0], ep) then Scan(true, TurnAfter(g, ps[0], ep))
    else MateScan(TurnAfter(g, ps[0], ep), ps[1..], color, ep)
  }

  /** The grid `isCheckmate` leaves behind. */
  ghost function CheckmateAfter(g: Grid, color: Color, ep: Option<Square>): Grid
  {
    if InCheck(g, color) then MateScan(g, AllPieces(g), color, ep).after else g
  }

  /** The piece on (r, c) is of the colour and has an escape. */
  ghost predicate EscapeFrom(g: Grid, r: int, c: int, color: Color, ep: Option<Square>)
  {
    Get(g, r, c).Some? && Get(g, r, c).value.color == color && Escapes(g, Get(g, r, c).value, ep)
  }

  /** Checkmate: the colour is in check and none of its pieces has a move
      after which it is out of check. */
  ghost predicate Checkmated(g: Grid, color: Color, ep: Option<Square>)
  {
    InCheck(g, color) && !exists r, c | IsValidPosition(r, c) :: EscapeFrom(g, r, c, color, ep)
  }

  /** One piece's turn of `isCheckmate`: its moves are listed, then each is
      made, `isInCheck` asked, and the move undone, until one leaves p's
      side out of check. */
  method TryEscape(board: Board, p: Piece, ep: Option<Square>) returns (escaped: bool)
    requires board.Valid() && Get(board.grid, p.row, p.col) == Some(p) && EpOnBoard(ep)
    modifies board, board.cells
    ensures board.Valid() && board.cells == old(board.cells)
    ensures board.grid == TurnAfter(old(board.grid), p, ep)
    ensures escaped == Escapes(old(board.grid), p, ep)
  {
    ghost var g := board.grid;
    var moves := PieceMovement(board, p, ep);
    MovementAfterMarks(g, p);
    SameMenMarked(g, p.row, p.col);
    forall t | t in moves
      ensures IsValidPosition(t.0, t.1) && t != (p.row, p.col)
      ensures LeavesKingSafe(board.grid, p, t) == LeavesKingSafe(g, p, t)
    {
      MovesTargets(g, p, ep, t);
      LeavesKingSafeSameMen(board.grid, g, p, t);
    }
    escaped := TryMoves(board, p, moves);
  }

  /** The inner loop of `isCheckmate` over a given move list. */
  method TryMoves(board: Board, p: Piece, moves: seq<Square>) returns (escaped: bool)
    requires board.Valid()
    requires Get(board.grid, p.row, p.col).Some?
    requires Get(board.grid, p.row, p.col).value.row == p.row && Get(board.grid, p.row, p.col).value.col == p.col
    requires forall t | t in moves :: IsValidPosition(t.0, t.1) && t != (p.row, p.col)
    modifies board, board.cells
    ensures board.Valid() && board.cells == old(board.cells)
    ensures board.grid == if moves == [] then old(board.grid) else MarkMoved(old(board.grid), p.row, p.col)
    ensures escaped == exists t | t in moves :: LeavesKingSafe(old(board.grid), p, t)
  {
    ghost var g1 := board.grid;
    for j := 0 to |moves|
      invariant board.Valid() && board.cells == old(board.cells)
      invariant board.grid == if j == 0 then g1 else MarkMoved(g1, p.row, p.col)
      invariant forall k | 0 <= k < j :: !LeavesKingSafe(g1, p, moves[k])
    {
      var stillInCheck := TryOne(board, p, moves[j].0, moves[j].1, g1);
      if !stillInCheck {
        return true;
      }
    }
    return false;
  }

  /** One turn of the inner loop, on a board that is the scanned grid with
      perhaps the piece's flag already raised. */
  method TryOne(board: Board, p: Piece, tr: int, tc: int, ghost g1: Grid) returns (stillInCheck: bool)
    requires board.Valid() && IsValidPosition(tr, tc) && (tr, tc) != (p.row, p.col)
    requires Get(g1, p.row, p.col).Some?
    requires Get(g1, p.row, p.col).value.row == p.row && Get(g1, p.row, p.col).value.col == p.col
    requires board.grid == g1 || board.grid == MarkMoved(g1, p.row, p.col)
    modifies board, board.cells
    ensures board.Valid() && board.cells == old(board.cells)
    ensures board.grid == MarkMoved(g1, p.row, p.col)
    ensures stillInCheck == !LeavesKingSafe(g1, p, (tr, tc))
  {
    SameMenMarked(g1, p.row, p.col);
    MarkMovedTwice(g1, p.row, p.col);
    LeavesKingSafeSameMen(board.grid, g1, p, (tr, tc));
    stillInCheck := Simulate(board, p, tr, tc);
  }

  /** The body of the inner loop: make the move from the piece's square,
      ask `isInCheck`, undo the move; the piece's flag stays raised. */
  method Simulate(board: Board, p: Piece, tr: int, tc: int) returns (stillInCheck: bool)
    requires board.Valid() && IsValidPosition(tr, tc) && (tr, tc) != (p.row, p.col)
    requires Get(board.grid, p.row, p.col).Some?
    requires Get(board.grid, p.row, p.col).value.row == p.row && Get(board.grid, p.row, p.col).value.col == p.col
    modifies board, board.cells
    ensures board.Valid() && board.cells == old(board.cells)
    ensures board.grid == MarkMoved(old(board.grid), p.row, p.col)
    ensures stillInCheck == !LeavesKingSafe(old(board.grid), p, (tr, tc))
  {
    var fr, fc := p.row, p.col;
    UndoAfterMove(board.grid, fr, fc, tr, tc);
    var captured := board.GetPiece(tr, tc);
    board.MakeMove(fr, fc, tr, tc);
    stillInCheck := board.IsInCheck(p.color);
    board.UndoMove(fr, fc, tr, tc, captured);
  }

  /** `isCheckmate`: false when the colour is not in check; otherwise true
      unless some move of some piece of the colour gets it out of check. */
  method IsCheckmate(board: Board, color: Color, ep: Option<Square>) returns (mate: bool)
    requires board.Valid() && Consistent(board.grid) && EpOnBoard(ep)
    modifies board, board.cells
    ensures board.Valid() && board.cells == old(board.cells)
    ensures board.grid == CheckmateAfter(old(board.grid), color, ep)
    ensures mate == Checkmated(old(board.grid), color, ep)
  {
    ghost var g0 := board.grid;
    var check := board.IsInCheck(color);
    if !check {
      return false;
    }
    var pieces := board.GetAllPieces();
    AllPiecesStand(g0);
    MateScanFindsEscape(g0, color, ep);
    for i := 0 to |pieces|
      invariant board.Valid() && board.cells == old(board.cells)
      invariant MateScan(board.grid, pieces[i..], color, ep) == MateScan(g0, pieces, color, ep)
      invariant forall k | i <= k < |pieces| :: Get(board.grid, pieces[k].row, pieces[k].col) == Some(pieces[k])
    {
      var p := pieces[i];
      assert pieces[i..][1..] == pieces[i + 1..];
      if p.color != color {
        continue;
      }
      ghost var before := board.grid;
      var escaped := TryEscape(board, p, ep);
      if escaped {
        return false;
      }
      TurnAfterOnlyTouches(before, p, ep);
    }
    assert pieces[|pieces|..] == [];
    return true;
  }

  /** A piece's turn changes no square but its own. */
  lemma TurnAfterOnlyTouches(g: Grid, p: Piece, ep: Option<Square>)
    ensures forall r, c | (r, c) != (p.row, p.col) :: Get(TurnAfter(g, p, ep), r, c) == Get(g, r, c)
    ensures SameMen(TurnAfter(g, p, ep), g)
  {
    MovementAfterMarks(g, p);
    SameMenMarked(g, p.row, p.col);
    SameMenMarked(MovementAfter(g, p), p.row, p.col);
    SameMenTrans(MarkMoved(MovementAfter(g, p), p.row, p.col), MovementAfter(g, p), g);
  }

  /** Whether a piece has an escape does not depend on any moved flag. */
  lemma EscapesSameMen(g1: Grid, g2: Grid, p: Piece, ep: Option<Square>)
    requires SameMen(g1, g2)
    ensures Escapes(g1, p, ep) == Escapes(g2, p, ep)
  {
    MovesSameMen(g1, g2, p, ep);
    forall t ensures LeavesKingSafe(g1, p, t) == LeavesKingSafe(g2, p, t) {
      LeavesKingSafeSameMen(g1, g2, p, t);
    }
  }

  /** The scan stops early exactly when some listed piece of the colour has
      an escape on the grid the scan started from: the flags the earlier
      turns raise change nothing. */
  lemma {:induction false} MateScanFound(g: Grid, h: Grid, ps: seq<Piece>, color: Color, ep: Option<Square>)
    requires SameMen(h, g)
    ensures MateScan(h, ps, color, ep).found <==>
            exists i | 0 <= i < |ps| :: ps[i].color == color && Escapes(g, ps[i], ep)
    decreases |ps|
  {
    if ps != [] {
      var p := ps[0];
      EscapesSameMen(h, g, p, ep);
      TurnAfterOnlyTouches(h, p, ep);
      SameMenTrans(TurnAfter(h, p, ep), h, g);
      MateScanFound(g, h, ps[1..], color, ep);
      MateScanFound(g, TurnAfter(h, p, ep), ps[1..], color, ep);
      if exists i | 0 <= i < |ps[1..]| :: ps[1..][i].color == color && Escapes(g, ps[1..][i], ep) {
        var i :| 0 <= i < |ps[1..]| && ps[1..][i].color == color && Escapes(g, ps[1..][i], ep);
        assert ps[i + 1] == ps[1..][i];
      }
      if exists i | 0 <= i < |ps| :: ps[i].color == color && Escapes(g, ps[i], ep) {
        var i :| 0 <= i < |ps| && ps[i].color == color && Escapes(g, ps[i], ep);
        if i > 0 {
          assert ps[1..][i - 1] == ps[i];
        }
      }
    }
  }

  /** `isCheckmate`'s scan over `getAllPieces` stops early exactly when some
      piece of the colour on the board has an escape. */
  lemma MateScanFindsEscape(g: Grid, color: Color, ep: Option<Square>)
    ensures MateScan(g, AllPieces(g), color, ep).found <==>
            exists r, c | IsValidPosition(r, c) :: EscapeFrom(g, r, c, color, ep)
  {
    MateScanFound(g, g, AllPieces(g), color, ep);
    ListedEscapeIsOnBoard(g, color, ep);
    BoardEscapeIsListed(g, color, ep);
  }

  lemma ListedEscapeIsOnBoard(g: Grid, color: Color, ep: Option<Square>)
    ensures (exists i | 0 <= i < |AllPieces(g)| :: AllPieces(g)[i].color == color && Escapes(g, AllPieces(g)[i], ep))
            ==> exists r, c | IsValidPosition(r, c) :: EscapeFrom(g, r, c, color, ep)
  {
    var ps := AllPieces(g);
    if exists i | 0 <= i < |ps| :: ps[i].color == color && Escapes(g, ps[i], ep) {
      var i :| 0 <= i < |ps| && ps[i].color == color && Escapes(g, ps[i], ep);
      AllPiecesMembers(g);
      assert ps[i] in ps;
      var r, c :| IsValidPosition(r, c) && Get(g, r, c) == Some(ps[i]);
      assert EscapeFrom(g, r, c, color, ep);
    }
  }

  lemma BoardEscapeIsListed(g: Grid, color: Color, ep: Option<Square>)
    ensures (exists r, c | IsValidPosition(r, c) :: EscapeFrom(g, r, c, color, ep))
            ==> exists i | 0 <= i < |AllPieces(g)| :: AllPieces(g)[i].color == color && Escapes(g, AllPieces(g)[i], ep)
  {
    var ps := AllPieces(g);
    if exists r, c | IsValidPosition(r, c) :: EscapeFrom(g, r, c, color, ep) {
      var r, c :| IsValidPosition(r, c) && EscapeFrom(g, r, c, color, ep);
      var p := Get(g, r, c).value;
      AllPiecesMembers(g);
      assert p in ps;
      var i :| 0 <= i < |ps| && ps[i] == p;
    }
  }

  /** `isCheckmate` changes no more than moved flags. */
  lemma CheckmateKeepsMen(g: Grid, color: Color, ep: Option<Square>)
    ensures SameMen(CheckmateAfter(g, color, ep), g)
  {
    if InCheck(g, color) {
      MateScanKeepsMen(g, AllPieces(g), color, ep);
    }
  }

  lemma {:induction false} MateScanKeepsMen(g: Grid, ps: seq<Piece>, color: Color, ep: Option<Square>)
    ensures SameMen(MateScan(g, ps, color, ep).after, g)
    decreases |ps|
  {
    if ps != [] {
      var p := ps[0];
      TurnAfterOnlyTouches(g, p, ep);
      MateScanKeepsMen(g, ps[1..], color, ep);
      MateScanKeepsMen(TurnAfter(g, p, ep), ps[1..], color, ep);
      SameMenTrans(MateScan(TurnAfter(g, p, ep), ps[1..], color, ep).after, TurnAfter(g, p, ep), g);
    }
  }
}
