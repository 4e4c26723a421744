/** Straight lines on the board: the walk `canMove` of Rook.java and
    Queen.java makes from the square after the origin towards the target. */
module Lines {
  import opened Wrappers
  import opened Pieces
  import opened BoardValue
  import opened Attacks

  /** t is (r, c) itself or lies further on in direction (dr, dc), along a
      row, a column or a diagonal. */
  predicate Ahead(r: int, c: int, t: Square, dr: int, dc: int)
  {
    (r, c) == t ||
    (Sign(t.0 - r) == dr && Sign(t.1 - c) == dc && (dr != 0 && dc != 0 ==> Abs(t.0 - r) == Abs(t.1 - c)))
  }

  /** The loop `while (current != to) { if occupied return false; step }`
      from (r, c): every square up to the target, the target excluded, is
      empty.  Squares off the board read as empty, as `getPiece` has them. */
  predicate PathClear(g: Grid, r: int, c: int, t: Square, dr: int, dc: int)
    requires Ahead(r, c, t, dr, dc)
    decreases Abs(t.0 - r) + Abs(t.1 - c)
  {
    if (r, c) == t then true
    else if Get(g, r, c).Some? then false
    else PathClear(g, r + dr, c + dc, t, dr, dc)
  }

  /** Empty, or holding a piece of another colour than `color`. */
  predicate FreeOrEnemy(g: Grid, t: Square, color: Color)
  {
    Get(g, t.0, t.1).None? || Get(g, t.0, t.1).value.color != color
  }

  /** t lies on a row, a column or a diagonal through f. */
  predicate Aligned(f: Square, t: Square)
  {
    f.0 == t.0 || f.1 == t.1 || Abs(t.0 - f.0) == Abs(t.1 - f.1)
  }

  /** s lies strictly between f and t on the line joining them. */
  predicate Between(f: Square, t: Square, s: Square)
  {
    var dr, dc := Sign(t.0 - f.0), Sign(t.1 - f.1);
    s != f && s != t && Ahead(f.0, f.1, s, dr, dc) && Ahead(s.0, s.1, t, dr, dc)
  }

  /** The squares strictly between f and t are all empty. */
  ghost predicate ClearBetween(g: Grid, f: Square, t: Square)
  {
    forall s :: Between(f, t, s) ==> Get(g, s.0, s.1).None?
  }

  /** The squares from (r, c) up to t, t excluded, are (r, c) and those
      from the next square on. */
  lemma AheadSplit(r: int, c: int, s: Square, t: Square, dr: int, dc: int)
    requires Ahead(r, c, t, dr, dc) && (r, c) != t
    ensures (s != t && Ahead(r, c, s, dr, dc) && Ahead(s.0, s.1, t, dr, dc)) <==>
            (s == (r, c) || (s != t && Ahead(r + dr, c + dc, s, dr, dc) && Ahead(s.0, s.1, t, dr, dc)))
  {
  }

  /** Beyond (r, c) in direction (dr, dc) means at or beyond the next square. */
  lemma AheadNext(r: int, c: int, t: Square, dr: int, dc: int)
    requires IsStep(dr, dc)
    ensures (Ahead(r, c, t, dr, dc) && t != (r, c)) <==> Ahead(r + dr, c + dc, t, dr, dc)
  {
  }

  /** The walk in terms of the squares it visits: from (r, c) up to t. */
  lemma {:induction false} PathClearSquares(g: Grid, r: int, c: int, t: Square, dr: int, dc: int)
    requires Ahead(r, c, t, dr, dc)
    ensures PathClear(g, r, c, t, dr, dc) <==>
            forall s :: s != t && Ahead(r, c, s, dr, dc) && Ahead(s.0, s.1, t, dr, dc) ==> Get(g, s.0, s.1).None?
    decreases Abs(t.0 - r) + Abs(t.1 - c)
  {
    if (r, c) == t {
      forall s | s != t && Ahead(r, c, s, dr, dc)
        ensures !Ahead(s.0, s.1, t, dr, dc)
      {
      }
    } else {
      assert IsStep(dr, dc);
      AheadNext(r, c, t, dr, dc);
      PathClearSquares(g, r + dr, c + dc, t, dr, dc);
      forall s {
        AheadSplit(r, c, s, t, dr, dc);
      }
    }
  }

  /** The walk of `canMove` from the square after f, stepping by the signs
      of the displacement, succeeds exactly when the squares strictly
      between f and an aligned target t are empty. */
  lemma WalkClearsBetween(g: Grid, f: Square, t: Square)
    requires Aligned(f, t)
    ensures var dr, dc := Sign(t.0 - f.0), Sign(t.1 - f.1);
            Ahead(f.0 + dr, f.1 + dc, t, dr, dc) &&
            (PathClear(g, f.0 + dr, f.1 + dc, t, dr, dc) <==> ClearBetween(g, f, t))
  {
    var dr, dc := Sign(t.0 - f.0), Sign(t.1 - f.1);
    FirstStepAhead(f, t);
    PathClearSquares(g, f.0 + dr, f.1 + dc, t, dr, dc);
    forall s {
      BetweenFromNext(f, t, s);
    }
  }

  /** The square after f towards an aligned t is t itself or lies before it. */
  lemma FirstStepAhead(f: Square, t: Square)
    requires Aligned(f, t)
    ensures var dr, dc := Sign(t.0 - f.0), Sign(t.1 - f.1);
            Ahead(f.0 + dr, f.1 + dc, t, dr, dc)
  {
  }

  /** The squares strictly between f and t are those from the square after
      f up to t, t excluded. */
  lemma BetweenFromNext(f: Square, t: Square, s: Square)
    ensures var dr, dc := Sign(t.0 - f.0), Sign(t.1 - f.1);
            Between(f, t, s) <==> s != t && Ahead(f.0 + dr, f.1 + dc, s, dr, dc) && Ahead(s.0, s.1, t, dr, dc)
  {
  }

  /** A square at or beyond the step from f in direction d is another
      square, on a line through f, in direction d. */
  lemma AheadFromNext(f: Square, t: Square, dr: int, dc: int)
    requires IsStep(dr, dc) && Ahead(f.0 + dr, f.1 + dc, t, dr, dc)
    ensures t != f && Aligned(f, t) && Sign(t.0 - f.0) == dr && Sign(t.1 - f.1) == dc
  {
  }

  /** A ray that reports a hit ends on a slider of colour `byColor` of the
      right kind, with the squares before it on the ray empty. */
  lemma {:induction false} RayHitFindsSlider(g: Grid, r: int, c: int, dr: int, dc: int, byColor: Color, rookLike: bool)
    requires IsStep(dr, dc) && RayHit(g, r, c, dr, dc, byColor, rookLike)
    ensures exists s: Square :: IsValidPosition(s.0, s.1) && s != (r, c) && Ahead(r + dr, c + dc, s, dr, dc)
                                && PathClear(g, r + dr, c + dc, s, dr, dc) && IsSlider(Get(g, s.0, s.1), byColor, rookLike)
    decreases Reach(r, dr) + Reach(c, dc)
  {
    var nr, nc := r + dr, c + dc;
    if Get(g, nr, nc).None? {
      RayHitFindsSlider(g, nr, nc, dr, dc, byColor, rookLike);
      var s: Square :| IsValidPosition(s.0, s.1) && s != (nr, nc) && Ahead(nr + dr, nc + dc, s, dr, dc)
                       && PathClear(g, nr + dr, nc + dc, s, dr, dc) && IsSlider(Get(g, s.0, s.1), byColor, rookLike);
      AheadNext(nr, nc, s, dr, dc);
      AheadNext(r, c, s, dr, dc);
      assert PathClear(g, nr, nc, s, dr, dc);
    } else {
      assert IsSlider(Get(g, nr, nc), byColor, rookLike);
      assert PathClear(g, nr, nc, (nr, nc), dr, dc);
    }
  }

  /** When the only pieces of colour `byColor` besides kings are rooks on
      s, a rook-like ray that reports a hit reaches s over empty squares. */
  lemma RayHitOnlyFromRook(g: Grid, byColor: Color, s: Square, r: int, c: int, dr: int, dc: int)
    requires forall r', c' :: Get(g, r', c').Some? && Get(g, r', c').value.color == byColor ==>
                                Get(g, r', c').value.kind == King || (Get(g, r', c').value.kind == Rook && (r', c') == s)
    requires IsStep(dr, dc)
    ensures RayHit(g, r, c, dr, dc, byColor, true) ==>
              Ahead(r + dr, c + dc, s, dr, dc) && PathClear(g, r + dr, c + dc, s, dr, dc)
  {
    if RayHit(g, r, c, dr, dc, byColor, true) {
      RayHitFindsSlider(g, r, c, dr, dc, byColor, true);
      var s': Square :| IsValidPosition(s'.0, s'.1) && s' != (r, c) && Ahead(r + dr, c + dc, s', dr, dc)
                        && PathClear(g, r + dr, c + dc, s', dr, dc) && IsSlider(Get(g, s'.0, s'.1), byColor, true);
      assert s' == s;
    }
  }

  /** With only kings and rooks of colour `byColor` on the board, its
      attacks come along rows and columns. */
  lemma AttackedOnlyStraight(g: Grid, byColor: Color, r: int, c: int)
    requires forall r', c' :: Get(g, r', c').Some? && Get(g, r', c').value.color == byColor ==>
                                Get(g, r', c').value.kind in {King, Rook}
    ensures Attacked(g, r, c, byColor) ==> AnyRayHits(g, r, c, Straight, byColor, true)
  {
    forall i | 0 <= i < 4
      ensures !RayHit(g, r, c, Diagonals[i].0, Diagonals[i].1, byColor, false)
    {
      RayHitNeedsSlider(g, r, c, Diagonals[i].0, Diagonals[i].1, byColor, false);
    }
  }
}
