/** King.java: the king's destinations and its own attack test.  Nothing
    here writes to the board, so everything is a function of the grid and of
    the king (its colour and the square it reports). */
module KingRules {
  import opened Wrappers
  import opened Pieces
  import opened BoardValue
  import opened Attacks

  /** The eight neighbour offsets, in the order of `dRow`/`dCol`. */
  const KingOffsets: seq<(int, int)> :=
    [(-1, -1), (-1, 0), (-1, 1), (0, -1), (0, 1), (1, -1), (1, 0), (1, 1)]

  /** `rayHits` of King.java: like the board's, except that the king's own
      square is looked through when it holds a king of the king's colour. */
  predicate KingRayHit(g: Grid, k: Piece, r: int, c: int, dr: int, dc: int, byColor: Color, rookLike: bool)
    requires IsStep(dr, dc)
    decreases Reach(r, dr) + Reach(c, dc)
  {
    var nr, nc := r + dr, c + dc;
    if !IsValidPosition(nr, nc) then false
    else match Get(g, nr, nc)
      case None => KingRayHit(g, k, nr, nc, dr, dc, byColor, rookLike)
      case Some(p) =>
        if nr == k.row && nc == k.col && p.kind == King && p.color == k.color
        then KingRayHit(g, k, nr, nc, dr, dc, byColor, rookLike)
        else p.color == byColor && Slides(p.kind, rookLike)
  }

  predicate KingAnyRayHits(g: Grid, k: Piece, r: int, c: int, dirs: seq<(int, int)>, byColor: Color, rookLike: bool)
    requires AllSteps(dirs)
  {
    exists i | 0 <= i < |dirs| :: KingRayHit(g, k, r, c, dirs[i].0, dirs[i].1, byColor, rookLike)
  }

  /** A king of colour `byColor` on one of the eight neighbours of (r, c). */
  predicate KingAdjacent(g: Grid, r: int, c: int, byColor: Color)
  {
    exists i | 0 <= i < 8 :: IsPieceOf(Get(g, r + KingOffsets[i].0, c + KingOffsets[i].1), King, byColor)
  }

  /** `isSquareUnderAttack`: knights, pawns, orthogonal and diagonal rays
      (looking through the king's own square), then an adjacent enemy king. */
  predicate KingSquareAttacked(g: Grid, k: Piece, r: int, c: int)
  {
    var enemy := Opponent(k.color);
    KnightAttack(g, r, c, enemy) || PawnAttack(g, r, c, enemy)
    || KingAnyRayHits(g, k, r, c, Straight, enemy, true) || KingAnyRayHits(g, k, r, c, Diagonals, enemy, false)
    || KingAdjacent(g, r, c, enemy)
  }

  /** The filter of `pieceMovement` for one neighbour square. */
  predicate KingKeeps(g: Grid, k: Piece, r: int, c: int)
  {
    IsValidPosition(r, c)
    && !(Get(g, r, c).Some? && Get(g, r, c).value.kind == King)
    && (Get(g, r, c).None? || Get(g, r, c).value.color != k.color)
    && !KingSquareAttacked(g, k, r, c)
  }

  /** The eight neighbour squares in the order of the offset tables. */
  function KingCandidates(k: Piece): seq<(int, int)>
  {
    seq(8, i requires 0 <= i < 8 => (k.row + KingOffsets[i].0, k.col + KingOffsets[i].1))
  }

  /** `pieceMovement` */
  function KingMoves(g: Grid, k: Piece): seq<(int, int)>
  {
    Filter(KingCandidates(k), (t: Square) => KingKeeps(g, k, t.0, t.1))
  }

  /** A king destination stated directly: a square of the board at
      Chebyshev distance 1, holding no king of either colour and no piece of
      the king's colour, and not under attack by the king's own test. */
  predicate KingDestination(g: Grid, k: Piece, t: (int, int))
  {
    IsValidPosition(t.0, t.1)
    && (Abs(t.0 - k.row) <= 1 && Abs(t.1 - k.col) <= 1 && t != (k.row, k.col))
    && !(Get(g, t.0, t.1).Some? && Get(g, t.0, t.1).value.kind == King)
    && (Get(g, t.0, t.1).None? || Get(g, t.0, t.1).value.color != k.color)
    && !KingSquareAttacked(g, k, t.0, t.1)
  }

  /** `pieceMovement` lists exactly the king destinations. */
  lemma KingMovesExactly(g: Grid, k: Piece)
    ensures forall t :: t in KingMoves(g, k) <==> KingDestination(g, k, t)
  {
    FilterMembers(KingCandidates(k), (t: Square) => KingKeeps(g, k, t.0, t.1));
    forall t | KingDestination(g, k, t)
      ensures t in KingCandidates(k)
    {
      var dr, dc := t.0 - k.row, t.1 - k.col;
      var j := if dr == -1 then 1 + dc else if dr == 0 then (if dc == -1 then 3 else 4) else 6 + dc;
      assert t == KingCandidates(k)[j];
    }
  }

  /** `canMove`: membership in `pieceMovement`; the origin is ignored. */
  function KingCanMove(g: Grid, k: Piece, fr: int, fc: int, tr: int, tc: int): (b: bool)
    ensures b <==> KingDestination(g, k, (tr, tc))
  {
    KingMovesExactly(g, k);
    (tr, tc) in KingMoves(g, k)
  }

  /** The grid with the king lifted off its own square, when it stands there. */
  function Lift(g: Grid, k: Piece): Grid
  {
    if IsPieceOf(Get(g, k.row, k.col), King, k.color) then Set(g, k.row, k.col, None) else g
  }

  lemma {:induction false} KingRayHitLifted(g: Grid, k: Piece, r: int, c: int, dr: int, dc: int, byColor: Color, rookLike: bool)
    requires IsStep(dr, dc)
    ensures KingRayHit(g, k, r, c, dr, dc, byColor, rookLike) == RayHit(Lift(g, k), r, c, dr, dc, byColor, rookLike)
    decreases Reach(r, dr) + Reach(c, dc)
  {
    var nr, nc := r + dr, c + dc;
    if IsValidPosition(nr, nc) {
      KingRayHitLifted(g, k, nr, nc, dr, dc, byColor, rookLike);
    }
  }

  /** The king's attack test is the board's oracle on the grid with the
      king lifted off its square (so a slider behind the king still counts),
      plus an adjacent enemy king. */
  lemma KingAttackIsLiftedAttack(g: Grid, k: Piece, r: int, c: int)
    ensures KingSquareAttacked(g, k, r, c) <==>
            Attacked(Lift(g, k), r, c, Opponent(k.color)) || KingAdjacent(g, r, c, Opponent(k.color))
  {
    var e := Opponent(k.color);
    forall i | 0 <= i < 4
      ensures KingRayHit(g, k, r, c, Straight[i].0, Straight[i].1, e, true) == RayHit(Lift(g, k), r, c, Straight[i].0, Straight[i].1, e, true)
      ensures KingRayHit(g, k, r, c, Diagonals[i].0, Diagonals[i].1, e, false) == RayHit(Lift(g, k), r, c, Diagonals[i].0, Diagonals[i].1, e, false)
    {
      KingRayHitLifted(g, k, r, c, Straight[i].0, Straight[i].1, e, true);
      KingRayHitLifted(g, k, r, c, Diagonals[i].0, Diagonals[i].1, e, false);
    }
  }

  /** A king that is the only king of its colour never moves into check:
      after moving to any destination of `pieceMovement`, the board's
      `isInCheck` is false for its colour. */
  lemma KingNeverMovesIntoCheck(g: Grid, k: Piece, t: (int, int))
    requires Get(g, k.row, k.col) == Some(k) && k.kind == King
    requires forall r, c :: IsPieceOf(Get(g, r, c), King, k.color) ==> (r, c) == (k.row, k.col)
    requires t in KingMoves(g, k)
    ensures !InCheck(AfterMove(g, k.row, k.col, t.0, t.1), k.color)
  {
    KingMovesExactly(g, k);
    var g1 := AfterMove(g, k.row, k.col, t.0, t.1);
    var lifted := Lift(g, k);
    var placed := Some(SetHasMoved(SetPosition(k, t.0, t.1), true));
    GridExt(g1, Set(lifted, t.0, t.1, placed));
    AttackedIgnoresSquare(lifted, t.0, t.1, placed, Opponent(k.color));
    KingAttackIsLiftedAttack(g, k, t.0, t.1);
    forall r, c | IsPieceOf(Get(g1, r, c), King, k.color)
      ensures (r, c) == t
    {
    }
  }

  /** Unlike the board's oracle, the king's test sees through the king: with
      the white king on (7, 4) and a black rook on (7, 0), the square (7, 5)
      behind the king is attacked for the king but not for `squareAttacked`. */
  lemma RayThroughOwnSquare()
    ensures var k := NewPiece(King, White, 7, 4);
            var g := Set(Set(EmptyGrid(), 7, 4, Some(k)), 7, 0, Some(NewPiece(Rook, Black, 7, 0)));
            KingSquareAttacked(g, k, 7, 5) && !Attacked(g, 7, 5, Black) && (7, 5) !in KingMoves(g, k)
  {
    var k := NewPiece(King, White, 7, 4);
    var rook := Some(NewPiece(Rook, Black, 7, 0));
    var g0 := Set(EmptyGrid(), 7, 4, Some(k));
    var g := Set(g0, 7, 0, rook);
    assert KingRayHit(g, k, 7, 1, 0, -1, Black, true);
    assert KingRayHit(g, k, 7, 2, 0, -1, Black, true);
    assert KingRayHit(g, k, 7, 3, 0, -1, Black, true);
    assert KingRayHit(g, k, 7, 4, 0, -1, Black, true);
    assert KingRayHit(g, k, 7, 5, Straight[3].0, Straight[3].1, Black, true);
    KingMovesExactly(g, k);
    assert !RayHit(g, 7, 5, 0, -1, Black, true);
    forall i | 0 <= i < 4
      ensures !RayHit(g, 7, 5, Straight[i].0, Straight[i].1, Black, true)
      ensures !RayHit(g, 7, 5, Diagonals[i].0, Diagonals[i].1, Black, false)
    {
      if i != 3 {
        RayHitIgnoresBehind(g0, 7, 0, rook, 7, 5, Straight[i].0, Straight[i].1, Black, true);
        RayHitNeedsSlider(g0, 7, 5, Straight[i].0, Straight[i].1, Black, true);
      }
      RayHitIgnoresBehind(g0, 7, 0, rook, 7, 5, Diagonals[i].0, Diagonals[i].1, Black, false);
      RayHitNeedsSlider(g0, 7, 5, Diagonals[i].0, Diagonals[i].1, Black, false);
    }
  }

  lemma {:induction false} KingRayHitSameMen(g1: Grid, g2: Grid, k: Piece, r: int, c: int, dr: int, dc: int,
                                             byColor: Color, rookLike: bool)
    requires IsStep(dr, dc) && SameMen(g1, g2)
    ensures KingRayHit(g1, k, r, c, dr, dc, byColor, rookLike) == KingRayHit(g2, k, r, c, dr, dc, byColor, rookLike)
    decreases Reach(r, dr) + Reach(c, dc)
  {
    var nr, nc := r + dr, c + dc;
    SameMenAt(g1, g2, nr, nc);
    if IsValidPosition(nr, nc) {
      KingRayHitSameMen(g1, g2, k, nr, nc, dr, dc, byColor, rookLike);
    }
  }

  /** The king's attack test does not depend on any moved flag. */
  lemma KingSquareAttackedSameMen(g1: Grid, g2: Grid, k: Piece, r: int, c: int)
    requires SameMen(g1, g2)
    ensures KingSquareAttacked(g1, k, r, c) == KingSquareAttacked(g2, k, r, c)
  {
    var e := Opponent(k.color);
    forall i | 0 <= i < 4
      ensures KingRayHit(g1, k, r, c, Straight[i].0, Straight[i].1, e, true) == KingRayHit(g2, k, r, c, Straight[i].0, Straight[i].1, e, true)
      ensures KingRayHit(g1, k, r, c, Diagonals[i].0, Diagonals[i].1, e, false) == KingRayHit(g2, k, r, c, Diagonals[i].0, Diagonals[i].1, e, false)
    {
      KingRayHitSameMen(g1, g2, k, r, c, Straight[i].0, Straight[i].1, e, true);
      KingRayHitSameMen(g1, g2, k, r, c, Diagonals[i].0, Diagonals[i].1, e, false);
    }
    forall r', c' ensures IsPieceOf(Get(g1, r', c'), Knight, e) == IsPieceOf(Get(g2, r', c'), Knight, e)
      ensures IsPieceOf(Get(g1, r', c'), Pawn, e) == IsPieceOf(Get(g2, r', c'), Pawn, e)
      ensures IsPieceOf(Get(g1, r', c'), King, e) == IsPieceOf(Get(g2, r', c'), King, e)
    {
      SameMenAt(g1, g2, r', c');
    }
  }

  /** The king's moves do not depend on any moved flag. */
  lemma KingMovesSameMen(g1: Grid, g2: Grid, k: Piece)
    requires SameMen(g1, g2)
    ensures KingMoves(g1, k) == KingMoves(g2, k)
  {
    var ts := KingCandidates(k);
    var k1 := (t: Square) => KingKeeps(g1, k, t.0, t.1);
    var k2 := (t: Square) => KingKeeps(g2, k, t.0, t.1);
    forall i | 0 <= i < |ts|
      ensures k1(ts[i]) == k2(ts[i])
    {
      SameMenAt(g1, g2, ts[i].0, ts[i].1);
      KingSquareAttackedSameMen(g1, g2, k, ts[i].0, ts[i].1);
    }
    FilterSameKeep(ts, k1, k2);
  }
}
