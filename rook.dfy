/** Rook.java: orthogonal rays with no safety filter, and the geometric
    `canMove`.  Neither writes to the board. */
module RookRules {
  import opened Wrappers
  import opened Pieces
  import opened BoardValue
  import opened Attacks
  import opened Lines

  /** One ray of `pieceMovement` from (r, c): empty squares are added and
      the walk goes on; the first occupied square is added when its piece
      is of the other colour (a king included) and ends the ray. */
  function RookRay(g: Grid, rook: Piece, r: int, c: int, dr: int, dc: int): seq<Square>
    requires IsStep(dr, dc)
    decreases Reach(r, dr) + Reach(c, dc)
  {
    var nr, nc := r + dr, c + dc;
    if !IsValidPosition(nr, nc) then []
    else match Get(g, nr, nc)
      case None => [(nr, nc)] + RookRay(g, rook, nr, nc, dr, dc)
      case Some(p) => if p.color != rook.color then [(nr, nc)] else []
  }

  /** `pieceMovement`: the rays up, down, left and right, in that order. */
  function RookMoves(g: Grid, rook: Piece): seq<Square>
  {
    var r, c := rook.row, rook.col;
    RookRay(g, rook, r, c, -1, 0) + RookRay(g, rook, r, c, 1, 0)
    + RookRay(g, rook, r, c, 0, -1) + RookRay(g, rook, r, c, 0, 1)
  }

  /** `canMove`: a target on the same row or column, on the board, reached
      by a clear walk, and empty or holding a piece of the other colour. */
  function RookCanMove(g: Grid, rook: Piece, fr: int, fc: int, tr: int, tc: int): bool
  {
    if fr == tr || fc == tc then
      if 0 <= tr < 8 && 0 <= tc < 8 then
        var rs, cs := Sign(tr - fr), Sign(tc - fc);
        PathClear(g, fr + rs, fc + cs, (tr, tc), rs, cs) && FreeOrEnemy(g, (tr, tc), rook.color)
      else false
    else false
  }

  /** `canMove` stated without the walk: same row or column, on the board,
      nothing strictly between, and the target empty or of the other colour. */
  lemma RookCanMoveExactly(g: Grid, rook: Piece, fr: int, fc: int, tr: int, tc: int)
    ensures RookCanMove(g, rook, fr, fc, tr, tc) <==>
            (fr == tr || fc == tc) && IsValidPosition(tr, tc)
            && ClearBetween(g, (fr, fc), (tr, tc)) && FreeOrEnemy(g, (tr, tc), rook.color)
  {
    if fr == tr || fc == tc {
      WalkClearsBetween(g, (fr, fc), (tr, tc));
    }
  }

  /** A rook standing on its square never "moves" to it. */
  lemma RookCannotStay(g: Grid, rook: Piece)
    requires Get(g, rook.row, rook.col) == Some(rook)
    ensures !RookCanMove(g, rook, rook.row, rook.col, rook.row, rook.col)
  {
  }

  /** The members of one ray: the squares t ahead of (r, c) on the board,
      reached by a clear walk, and empty or of the other colour. */
  lemma {:induction false} RookRayMembers(g: Grid, rook: Piece, r: int, c: int, dr: int, dc: int, t: Square)
    requires IsStep(dr, dc) && IsValidPosition(r, c)
    ensures t in RookRay(g, rook, r, c, dr, dc) <==>
            t != (r, c) && Ahead(r + dr, c + dc, t, dr, dc) && IsValidPosition(t.0, t.1)
            && PathClear(g, r + dr, c + dc, t, dr, dc) && FreeOrEnemy(g, t, rook.color)
    decreases Reach(r, dr) + Reach(c, dc)
  {
    var nr, nc := r + dr, c + dc;
    if IsValidPosition(nr, nc) && Get(g, nr, nc).None? {
      RookRayMembers(g, rook, nr, nc, dr, dc, t);
      AheadNext(nr, nc, t, dr, dc);
    }
  }

  /** `pieceMovement` and `canMove` agree for a rook standing on its square:
      the list holds exactly the targets `canMove` accepts. */
  lemma RookMovesMatchCanMove(g: Grid, rook: Piece, t: Square)
    requires Get(g, rook.row, rook.col) == Some(rook)
    ensures t in RookMoves(g, rook) <==> RookCanMove(g, rook, rook.row, rook.col, t.0, t.1)
  {
    var r, c := rook.row, rook.col;
    RookRayMembers(g, rook, r, c, -1, 0, t);
    RookRayMembers(g, rook, r, c, 1, 0, t);
    RookRayMembers(g, rook, r, c, 0, -1, t);
    RookRayMembers(g, rook, r, c, 0, 1, t);
  }

  /** A lone rook on (3, 3) of an empty board has the 14 squares of its row
      and column; there is no self-check filter to remove any. */
  lemma LoneRookHasFourteenMoves()
    ensures var rook := NewPiece(Rook, White, 3, 3);
            |RookMoves(Set(EmptyGrid(), 3, 3, Some(rook)), rook)| == 14
  {
    var rook := NewPiece(Rook, White, 3, 3);
    var g := Set(EmptyGrid(), 3, 3, Some(rook));
    assert |RookRay(g, rook, 0, 3, -1, 0)| == 0;
    assert |RookRay(g, rook, 1, 3, -1, 0)| == 1;
    assert |RookRay(g, rook, 2, 3, -1, 0)| == 2;
    assert |RookRay(g, rook, 3, 3, -1, 0)| == 3;
    assert |RookRay(g, rook, 7, 3, 1, 0)| == 0;
    assert |RookRay(g, rook, 6, 3, 1, 0)| == 1;
    assert |RookRay(g, rook, 5, 3, 1, 0)| == 2;
    assert |RookRay(g, rook, 4, 3, 1, 0)| == 3;
    assert |RookRay(g, rook, 3, 3, 1, 0)| == 4;
    assert |RookRay(g, rook, 3, 0, 0, -1)| == 0;
    assert |RookRay(g, rook, 3, 1, 0, -1)| == 1;
    assert |RookRay(g, rook, 3, 2, 0, -1)| == 2;
    assert |RookRay(g, rook, 3, 3, 0, -1)| == 3;
    assert |RookRay(g, rook, 3, 7, 0, 1)| == 0;
    assert |RookRay(g, rook, 3, 6, 0, 1)| == 1;
    assert |RookRay(g, rook, 3, 5, 0, 1)| == 2;
    assert |RookRay(g, rook, 3, 4, 0, 1)| == 3;
    assert |RookRay(g, rook, 3, 3, 0, 1)| == 4;
  }

  lemma {:induction false} RookRaySameMen(g1: Grid, g2: Grid, rook: Piece, r: int, c: int, dr: int, dc: int)
    requires IsStep(dr, dc) && SameMen(g1, g2)
    ensures RookRay(g1, rook, r, c, dr, dc) == RookRay(g2, rook, r, c, dr, dc)
    decreases Reach(r, dr) + Reach(c, dc)
  {
    var nr, nc := r + dr, c + dc;
    SameMenAt(g1, g2, nr, nc);
    if IsValidPosition(nr, nc) && Get(g1, nr, nc).None? {
      RookRaySameMen(g1, g2, rook, nr, nc, dr, dc);
    }
  }

  /** The rook's moves do not depend on any moved flag. */
  lemma RookMovesSameMen(g1: Grid, g2: Grid, rook: Piece)
    requires SameMen(g1, g2)
    ensures RookMoves(g1, rook) == RookMoves(g2, rook)
  {
    var r, c := rook.row, rook.col;
    RookRaySameMen(g1, g2, rook, r, c, -1, 0);
    RookRaySameMen(g1, g2, rook, r, c, 1, 0);
    RookRaySameMen(g1, g2, rook, r, c, 0, -1);
    RookRaySameMen(g1, g2, rook, r, c, 0, 1);
  }
}
