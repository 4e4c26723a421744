/** The square-attack oracle of Board.java (`squareAttacked`, `rayHits`,
    `isInCheck`) as functions on a grid value. */
module Attacks {
  import opened Wrappers
  import opened Pieces
  import opened BoardValue

  /** The eight knight jumps, in the order of the Java tables. */
  const KnightJumps: seq<(int, int)> :=
    [(-2, -1), (-2, 1), (-1, -2), (-1, 2), (1, -2), (1, 2), (2, -1), (2, 1)]

  /** Rook-like and bishop-like ray directions, in Board.java's order. */
  const Straight: seq<(int, int)> := [(1, 0), (-1, 0), (0, 1), (0, -1)]
  const Diagonals: seq<(int, int)> := [(1, 1), (1, -1), (-1, 1), (-1, -1)]

  function Abs(x: int): nat
  {
    if x < 0 then -x else x
  }

  /** `Integer.signum` */
  function Sign(x: int): int
  {
    if x > 0 then 1 else if x < 0 then -1 else 0
  }

  /** A unit step in one of the eight directions. */
  predicate IsStep(dr: int, dc: int)
  {
    -1 <= dr <= 1 && -1 <= dc <= 1 && (dr != 0 || dc != 0)
  }

  predicate AllSteps(dirs: seq<(int, int)>)
  {
    forall i | 0 <= i < |dirs| :: IsStep(dirs[i].0, dirs[i].1)
  }

  /** How many more steps in direction d stay on the board from x; the
      termination measure of every ray walk. */
  function Reach(x: int, d: int): nat
  {
    if d > 0 then (if x < 8 then 8 - x else 0)
    else if d < 0 then (if x >= 0 then x + 1 else 0)
    else 0
  }

  /** The kinds that attack along a rook-like or a bishop-like ray. */
  predicate Slides(k: Kind, rookLike: bool)
  {
    if rookLike then k == Rook || k == Queen else k == Bishop || k == Queen
  }

  /** The cell holds a slider of colour `byColor` of the right kind. */
  predicate IsSlider(x: Cell, byColor: Color, rookLike: bool)
  {
    x.Some? && x.value.color == byColor && Slides(x.value.kind, rookLike)
  }

  /** One direction of `rayHits`: walk from (r, c) one step at a time; the
      first occupied square decides, and it is a hit only if it holds a
      slider of colour `byColor` of the right kind. */
  predicate RayHit(g: Grid, r: int, c: int, dr: int, dc: int, byColor: Color, rookLike: bool)
    requires IsStep(dr, dc)
    decreases Reach(r, dr) + Reach(c, dc)
  {
    var nr, nc := r + dr, c + dc;
    if !IsValidPosition(nr, nc) then false
    else match Get(g, nr, nc)
      case None => RayHit(g, nr, nc, dr, dc, byColor, rookLike)
      case Some(p) => p.color == byColor && Slides(p.kind, rookLike)
  }

  /** `rayHits` over a table of directions. */
  predicate AnyRayHits(g: Grid, r: int, c: int, dirs: seq<(int, int)>, byColor: Color, rookLike: bool)
    requires AllSteps(dirs)
  {
    exists i | 0 <= i < |dirs| :: RayHit(g, r, c, dirs[i].0, dirs[i].1, byColor, rookLike)
  }

  predicate KnightAttack(g: Grid, r: int, c: int, byColor: Color)
  {
    exists i | 0 <= i < 8 :: IsPieceOf(Get(g, r + KnightJumps[i].0, c + KnightJumps[i].1), Knight, byColor)
  }

  /** The forward direction of a colour's pawns: white moves up (-1). */
  function PawnDir(color: Color): int
  {
    if color == White then -1 else 1
  }

  /** A pawn of colour `byColor` attacks (r, c) from (r - dir, c - 1) or (r - dir, c + 1). */
  predicate PawnAttack(g: Grid, r: int, c: int, byColor: Color)
  {
    exists d | d in [-1, 1] :: IsPieceOf(Get(g, r - PawnDir(byColor), c + d), Pawn, byColor)
  }

  /** `squareAttacked`: knights, pawns, then orthogonal and diagonal rays.
      An enemy king next to the square is not counted. */
  predicate Attacked(g: Grid, r: int, c: int, byColor: Color)
  {
    KnightAttack(g, r, c, byColor) || PawnAttack(g, r, c, byColor)
    || AnyRayHits(g, r, c, Straight, byColor, true) || AnyRayHits(g, r, c, Diagonals, byColor, false)
  }

  /** `isInCheck`: some king of the colour stands on an attacked square;
      false when that colour has no king at all. */
  predicate InCheck(g: Grid, color: Color)
  {
    exists r, c | 0 <= r < 8 && 0 <= c < 8 :: IsPieceOf(Get(g, r, c), King, color) && Attacked(g, r, c, Opponent(color))
  }

  /** The simulate-and-ask test of the pieces: moving p from the square it
      reports to t leaves p's side out of check. */
  predicate LeavesKingSafe(g: Grid, p: Piece, t: Square)
  {
    !InCheck(AfterMove(g, p.row, p.col, t.0, t.1), p.color)
  }

  lemma InCheckWithoutKing(g: Grid, color: Color)
    requires forall r, c :: !IsPieceOf(Get(g, r, c), King, color)
    ensures !InCheck(g, color)
  {
  }

  /** On a board where every piece has one colour, any move of a piece
      on the board leaves that colour out of check. */
  lemma OneSidedBoardIsSafe(g: Grid, p: Piece, t: Square)
    requires forall r, c :: Get(g, r, c).Some? ==> Get(g, r, c).value.color == p.color
    requires IsValidPosition(p.row, p.col) && IsValidPosition(t.0, t.1) && t != (p.row, p.col)
    ensures LeavesKingSafe(g, p, t)
  {
    var g' := AfterMove(g, p.row, p.col, t.0, t.1);
    AfterMoveEffect(g, p.row, p.col, t.0, t.1);
    forall r, c ensures !Attacked(g', r, c, Opponent(p.color)) {
      OnlyKingsAttackNothing(g', Opponent(p.color), r, c);
    }
  }

  /** A ray reports a hit only where a slider of colour `byColor` stands. */
  lemma {:induction false} RayHitNeedsSlider(g: Grid, r: int, c: int, dr: int, dc: int, byColor: Color, rookLike: bool)
    requires IsStep(dr, dc)
    requires forall r', c' :: Get(g, r', c').Some? && Get(g, r', c').value.color == byColor ==>
                                !Slides(Get(g, r', c').value.kind, rookLike)
    ensures !RayHit(g, r, c, dr, dc, byColor, rookLike)
    decreases Reach(r, dr) + Reach(c, dc)
  {
    var nr, nc := r + dr, c + dc;
    if IsValidPosition(nr, nc) && Get(g, nr, nc).None? {
      RayHitNeedsSlider(g, nr, nc, dr, dc, byColor, rookLike);
    }
  }

  /** Kings never attack: on a grid where every piece of colour `byColor` is a
      king, no square is attacked byColor `byColor`, adjacent or not. */
  lemma OnlyKingsAttackNothing(g: Grid, byColor: Color, r: int, c: int)
    requires forall r', c' :: Get(g, r', c').Some? && Get(g, r', c').value.color == byColor ==>
                                Get(g, r', c').value.kind == King
    ensures !Attacked(g, r, c, byColor)
  {
    forall i | 0 <= i < 4
      ensures !RayHit(g, r, c, Straight[i].0, Straight[i].1, byColor, true)
      ensures !RayHit(g, r, c, Diagonals[i].0, Diagonals[i].1, byColor, false)
    {
      RayHitNeedsSlider(g, r, c, Straight[i].0, Straight[i].1, byColor, true);
      RayHitNeedsSlider(g, r, c, Diagonals[i].0, Diagonals[i].1, byColor, false);
    }
  }

  /** Flags never matter to a ray. */
  lemma {:induction false} RayHitSameMen(g1: Grid, g2: Grid, r: int, c: int, dr: int, dc: int, byColor: Color, rookLike: bool)
    requires IsStep(dr, dc) && SameMen(g1, g2)
    ensures RayHit(g1, r, c, dr, dc, byColor, rookLike) == RayHit(g2, r, c, dr, dc, byColor, rookLike)
    decreases Reach(r, dr) + Reach(c, dc)
  {
    var nr, nc := r + dr, c + dc;
    assert Strip(Get(g1, nr, nc)) == Strip(Get(g2, nr, nc));
    if IsValidPosition(nr, nc) && Get(g1, nr, nc).None? {
      RayHitSameMen(g1, g2, nr, nc, dr, dc, byColor, rookLike);
    }
  }

  lemma AttackedSameMen(g1: Grid, g2: Grid, r: int, c: int, byColor: Color)
    requires SameMen(g1, g2)
    ensures Attacked(g1, r, c, byColor) == Attacked(g2, r, c, byColor)
  {
    forall i | 0 <= i < 4
      ensures RayHit(g1, r, c, Straight[i].0, Straight[i].1, byColor, true) == RayHit(g2, r, c, Straight[i].0, Straight[i].1, byColor, true)
      ensures RayHit(g1, r, c, Diagonals[i].0, Diagonals[i].1, byColor, false) == RayHit(g2, r, c, Diagonals[i].0, Diagonals[i].1, byColor, false)
    {
      RayHitSameMen(g1, g2, r, c, Straight[i].0, Straight[i].1, byColor, true);
      RayHitSameMen(g1, g2, r, c, Diagonals[i].0, Diagonals[i].1, byColor, false);
    }
    forall r', c' ensures IsPieceOf(Get(g1, r', c'), Knight, byColor) == IsPieceOf(Get(g2, r', c'), Knight, byColor)
      ensures IsPieceOf(Get(g1, r', c'), Pawn, byColor) == IsPieceOf(Get(g2, r', c'), Pawn, byColor)
    {
      assert Strip(Get(g1, r', c')) == Strip(Get(g2, r', c'));
    }
  }

  /** Whether a side is in check does not depend on any moved flag. */
  lemma InCheckSameMen(g1: Grid, g2: Grid, color: Color)
    requires SameMen(g1, g2)
    ensures InCheck(g1, color) == InCheck(g2, color)
  {
    forall r, c ensures Attacked(g1, r, c, Opponent(color)) == Attacked(g2, r, c, Opponent(color))
      && IsPieceOf(Get(g1, r, c), King, color) == IsPieceOf(Get(g2, r, c), King, color)
    {
      AttackedSameMen(g1, g2, r, c, Opponent(color));
      assert Strip(Get(g1, r, c)) == Strip(Get(g2, r, c));
    }
  }

  /** The grid with a white king on (7, 4) and a black rook on (5, 4). */
  function RookCheckGrid(): Grid
  {
    Set(Set(EmptyGrid(), 7, 4, Some(NewPiece(King, White, 7, 4))), 5, 4, Some(NewPiece(Rook, Black, 5, 4)))
  }

  /** The rook two squares above the king gives check; once it is removed
      nothing does. */
  lemma RookGivesCheck()
    ensures InCheck(RookCheckGrid(), White)
    ensures !InCheck(Set(RookCheckGrid(), 5, 4, None), White)
  {
    var g := RookCheckGrid();
    assert Get(g, 6, 4) == None;
    assert RayHit(g, 6, 4, -1, 0, Black, true);
    assert RayHit(g, 7, 4, Straight[1].0, Straight[1].1, Black, true);
    assert IsPieceOf(Get(g, 7, 4), King, White) && Attacked(g, 7, 4, Black);
    var g' := Set(g, 5, 4, None);
    forall r, c ensures !Attacked(g', r, c, Black) {
      OnlyKingsAttackNothing(g', Black, r, c);
    }
  }

  /** Whether (r0, c0) lies at or behind (r, c) for a walk in direction (dr, dc),
      so that the walk from (r, c) never reaches it. */
  predicate Behind(r0: int, c0: int, r: int, c: int, dr: int, dc: int)
  {
    (dr == 1 && r0 <= r) || (dr == -1 && r0 >= r) || (dc == 1 && c0 <= c) || (dc == -1 && c0 >= c)
  }

  lemma {:induction false} RayHitIgnoresBehind(g: Grid, r0: int, c0: int, x: Cell, r: int, c: int,
                                               dr: int, dc: int, byColor: Color, rookLike: bool)
    requires IsStep(dr, dc) && Behind(r0, c0, r, c, dr, dc)
    ensures RayHit(Set(g, r0, c0, x), r, c, dr, dc, byColor, rookLike) == RayHit(g, r, c, dr, dc, byColor, rookLike)
    decreases Reach(r, dr) + Reach(c, dc)
  {
    var nr, nc := r + dr, c + dc;
    assert (nr, nc) != (r0, c0);
    if IsValidPosition(nr, nc) && Get(g, nr, nc).None? {
      RayHitIgnoresBehind(g, r0, c0, x, nr, nc, dr, dc, byColor, rookLike);
    }
  }

  /** No ray of a table reaches back to the square it starts from. */
  lemma AnyRayHitsIgnoresSquare(g: Grid, r: int, c: int, x: Cell, dirs: seq<(int, int)>, byColor: Color, rookLike: bool)
    requires AllSteps(dirs)
    ensures AnyRayHits(Set(g, r, c, x), r, c, dirs, byColor, rookLike) == AnyRayHits(g, r, c, dirs, byColor, rookLike)
  {
    forall i | 0 <= i < |dirs|
      ensures RayHit(Set(g, r, c, x), r, c, dirs[i].0, dirs[i].1, byColor, rookLike) == RayHit(g, r, c, dirs[i].0, dirs[i].1, byColor, rookLike)
    {
      RayHitIgnoresBehind(g, r, c, x, r, c, dirs[i].0, dirs[i].1, byColor, rookLike);
    }
  }

  /** Knights and pawns attack a square from elsewhere. */
  lemma LeapersIgnoreSquare(g: Grid, r: int, c: int, x: Cell, byColor: Color)
    ensures KnightAttack(Set(g, r, c, x), r, c, byColor) == KnightAttack(g, r, c, byColor)
    ensures PawnAttack(Set(g, r, c, x), r, c, byColor) == PawnAttack(g, r, c, byColor)
  {
    assert forall i | 0 <= i < 8 :: (r + KnightJumps[i].0, c + KnightJumps[i].1) != (r, c);
  }

  /** Whether a square is attacked never depends on what stands on it. */
  lemma AttackedIgnoresSquare(g: Grid, r: int, c: int, x: Cell, byColor: Color)
    ensures Attacked(Set(g, r, c, x), r, c, byColor) == Attacked(g, r, c, byColor)
  {
    AnyRayHitsIgnoresSquare(g, r, c, x, Straight, byColor, true);
    AnyRayHitsIgnoresSquare(g, r, c, x, Diagonals, byColor, false);
    LeapersIgnoreSquare(g, r, c, x, byColor);
  }

  /** The simulate-and-ask test does not depend on any moved flag. */
  lemma LeavesKingSafeSameMen(g1: Grid, g2: Grid, p: Piece, t: Square)
    requires SameMen(g1, g2)
    ensures LeavesKingSafe(g1, p, t) == LeavesKingSafe(g2, p, t)
  {
    SameMenAfterMove(g1, g2, p.row, p.col, t.0, t.1);
    InCheckSameMen(AfterMove(g1, p.row, p.col, t.0, t.1), AfterMove(g2, p.row, p.col, t.0, t.1), p.color);
  }
}
