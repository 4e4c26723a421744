/** The ray walk Bishop.java and Queen.java share: each direction is walked
    until the first occupied square, and every square the piece could land
    on is tried with `testMoveSafety` on the shared board. */
module Sliding {
  import opened Wrappers
  import opened Pieces
  import opened BoardValue
  import opened Attacks
  import opened Lines
  import opened Chessboard

  /** A slider may land on an empty square or on an enemy piece other than
      a king. */
  predicate Lands(x: Cell, p: Piece)
  {
    x.None? || (x.value.color != p.color && x.value.kind != King)
  }

  /** Empty squares are candidates and the walk goes on; the first occupied
      square is a candidate when it holds an enemy piece other than a king,
      and ends the ray. */
  function SlideRay(g: Grid, p: Piece, r: int, c: int, dr: int, dc: int): seq<Square>
    requires IsStep(dr, dc)
    decreases Reach(r, dr) + Reach(c, dc)
  {
    var nr, nc := r + dr, c + dc;
    if !IsValidPosition(nr, nc) || !Lands(Get(g, nr, nc), p) then []
    else if Get(g, nr, nc).None? then [(nr, nc)] + SlideRay(g, p, nr, nc, dr, dc)
    else [(nr, nc)]
  }

  /** The candidates of all the rays, direction by direction. */
  function SlideCandidates(g: Grid, p: Piece, dirs: seq<(int, int)>): seq<Square>
    requires AllSteps(dirs)
  {
    if dirs == [] then []
    else SlideCandidates(g, p, dirs[..|dirs| - 1]) + SlideRay(g, p, p.row, p.col, dirs[|dirs| - 1].0, dirs[|dirs| - 1].1)
  }

  function SafeKeep(g: Grid, p: Piece): Square -> bool
  {
    (t: Square) => LeavesKingSafe(g, p, t)
  }

  /** `pieceMovement` of a slider over the given directions. */
  function SlideMoves(g: Grid, p: Piece, dirs: seq<(int, int)>): seq<Square>
    requires AllSteps(dirs)
  {
    Filter(SlideCandidates(g, p, dirs), SafeKeep(g, p))
  }

  /** The grid `pieceMovement` leaves: each `testMoveSafety` raises the
      piece's flag and nothing lowers it again. */
  function SlideAfter(g: Grid, p: Piece, dirs: seq<(int, int)>): Grid
    requires AllSteps(dirs)
  {
    if SlideCandidates(g, p, dirs) == [] then g else MarkMoved(g, p.row, p.col)
  }

  /** The grid `testMoveSafety` leaves as written: after `makeMove` the
      piece reports the target, so `undoMove(row, col, toRow, toCol, ...)`
      is called with the target as origin too. */
  function SafetyProbeAsWrittenAfter(g: Grid, p: Piece, t: Square): Grid
  {
    AfterUndo(AfterMove(g, p.row, p.col, t.0, t.1), t.0, t.1, t.0, t.1, Get(g, t.0, t.1))
  }

  /** As written, `testMoveSafety` takes the piece off the board: what is
      left is the board before the test with the piece's square emptied. */
  lemma SafetyProbeAsWrittenDropsPiece(g: Grid, p: Piece, t: Square)
    requires Get(g, p.row, p.col).Some? && IsValidPosition(t.0, t.1) && t != (p.row, p.col)
    ensures SafetyProbeAsWrittenAfter(g, p, t) == Set(g, p.row, p.col, None)
    ensures Get(SafetyProbeAsWrittenAfter(g, p, t), p.row, p.col) == None
  {
    GridExt(SafetyProbeAsWrittenAfter(g, p, t), Set(g, p.row, p.col, None));
  }

  /** `testMoveSafety` as written. */
  method TestMoveSafetyAsWritten(board: Board, p: Piece, toRow: int, toCol: int) returns (safe: bool)
    requires board.Valid() && Stands(board.grid, p)
    modifies board, board.cells
    ensures board.Valid() && board.cells == old(board.cells)
    ensures board.grid == SafetyProbeAsWrittenAfter(old(board.grid), p, (toRow, toCol))
    ensures safe == LeavesKingSafe(old(board.grid), p, (toRow, toCol))
  {
    var capturedPiece := board.GetPiece(toRow, toCol);
    var originalRow, originalCol := p.row, p.col;
    board.MakeMove(p.row, p.col, toRow, toCol);
    var inCheck := board.IsInCheck(p.color);
    // the piece now reports (toRow, toCol), and that is what `row, col` read
    board.UndoMove(toRow, toCol, toRow, toCol, capturedPiece);
    return !inCheck;
  }

  /** `testMoveSafety` undoing from the saved origin: the board is put back
      except that the piece keeps the moved flag `makeMove` gave it. */
  method TestMoveSafety(board: Board, p: Piece, toRow: int, toCol: int) returns (safe: bool)
    requires board.Valid() && Stands(board.grid, p)
    requires IsValidPosition(toRow, toCol) && (toRow, toCol) != (p.row, p.col)
    modifies board, board.cells
    ensures board.Valid() && board.cells == old(board.cells)
    ensures board.grid == MarkMoved(old(board.grid), p.row, p.col)
    ensures safe == LeavesKingSafe(old(board.grid), p, (toRow, toCol))
  {
    UndoAfterMove(board.grid, p.row, p.col, toRow, toCol);
    var capturedPiece := board.GetPiece(toRow, toCol);
    var originalRow, originalCol := p.row, p.col;
    board.MakeMove(originalRow, originalCol, toRow, toCol);
    var inCheck := board.IsInCheck(p.color);
    board.UndoMove(originalRow, originalCol, toRow, toCol, capturedPiece);
    return !inCheck;
  }

  /** One ray of `pieceMovement`: the squares found safe on it.  The grid
      is the one `pieceMovement` started from, possibly with the piece's
      flag already raised by an earlier ray. */
  method ScanRay(board: Board, p: Piece, dr: int, dc: int, ghost g: Grid) returns (found: seq<Square>)
    requires board.Valid() && IsStep(dr, dc) && Get(g, p.row, p.col) == Some(p)
    requires board.grid == g || board.grid == MarkMoved(g, p.row, p.col)
    modifies board, board.cells
    ensures board.Valid() && board.cells == old(board.cells)
    ensures board.grid == if SlideRay(g, p, p.row, p.col, dr, dc) == [] then old(board.grid) else MarkMoved(g, p.row, p.col)
    ensures found == Filter(SlideRay(g, p, p.row, p.col, dr, dc), SafeKeep(g, p))
  {
    found := [];
    ghost var before := board.grid;
    ghost var visited: seq<Square> := [];
    ghost var pr, pc := p.row, p.col;
    var r, c := p.row + dr, p.col + dc;
    var blocked := false;
    while !blocked && IsValidPosition(r, c)
      invariant board.Valid() && board.cells == old(board.cells)
      invariant r == pr + dr && c == pc + dc && Behind(p.row, p.col, pr, pc, dr, dc)
      invariant SlideRay(g, p, p.row, p.col, dr, dc) == visited + if blocked then [] else SlideRay(g, p, pr, pc, dr, dc)
      invariant found == Filter(visited, SafeKeep(g, p))
      invariant board.grid == if visited == [] then before else MarkMoved(g, p.row, p.col)
      decreases Reach(r, dr) + Reach(c, dc), if blocked then 0 else 1
    {
      blocked, found, visited := ScanSquare(board, p, dr, dc, g, before, r, c, pr, pc, visited, found);
      if !blocked {
        ReachShrinks(r, c, dr, dc);
        pr, pc := r, c;
        r, c := r + dr, c + dc;
      }
    }
    if !blocked {
      SlideRayStep(g, p, pr, pc, dr, dc);
    }
    assert SlideRay(g, p, p.row, p.col, dr, dc) == visited + [];
    assert visited + [] == visited;
  }

  /** One square of the walk: look at (r, c), probe it when the piece may
      land there, and tell whether the walk stops there. */
  method ScanSquare(board: Board, p: Piece, dr: int, dc: int, ghost g: Grid, ghost before: Grid,
                    r: int, c: int, ghost pr: int, ghost pc: int, ghost visited: seq<Square>, found: seq<Square>)
    returns (stop: bool, found': seq<Square>, ghost visited': seq<Square>)
    requires board.Valid() && IsStep(dr, dc) && Get(g, p.row, p.col) == Some(p)
    requires before == g || before == MarkMoved(g, p.row, p.col)
    requires IsValidPosition(r, c) && r == pr + dr && c == pc + dc && Behind(p.row, p.col, pr, pc, dr, dc)
    requires found == Filter(visited, SafeKeep(g, p))
    requires board.grid == if visited == [] then before else MarkMoved(g, p.row, p.col)
    modifies board, board.cells
    ensures board.Valid() && board.cells == old(board.cells)
    ensures visited + SlideRay(g, p, pr, pc, dr, dc) == visited' + if stop then [] else SlideRay(g, p, r, c, dr, dc)
    ensures found' == Filter(visited', SafeKeep(g, p))
    ensures board.grid == if visited' == [] then before else MarkMoved(g, p.row, p.col)
  {
    assert (r, c) != (p.row, p.col);
    SlideRayStep(g, p, pr, pc, dr, dc);
    var target := board.GetPiece(r, c);
    assert target == Get(g, r, c);
    found', visited' := found, visited;
    stop := target.Some?;
    if Lands(target, p) {
      found' := TrySquare(board, p, r, c, g, visited, found);
      visited' := visited + [(r, c)];
      Regroup(visited, (r, c), if stop then [] else SlideRay(g, p, r, c, dr, dc));
    }
  }

  /** The probe of one candidate square, added to the squares found safe
      so far when it leaves the king safe. */
  method TrySquare(board: Board, p: Piece, r: int, c: int, ghost g: Grid, ghost visited: seq<Square>,
                   found: seq<Square>) returns (found': seq<Square>)
    requires board.Valid() && Get(g, p.row, p.col) == Some(p)
    requires IsValidPosition(r, c) && (r, c) != (p.row, p.col)
    requires board.grid == g || board.grid == MarkMoved(g, p.row, p.col)
    requires found == Filter(visited, SafeKeep(g, p))
    modifies board, board.cells
    ensures board.Valid() && board.cells == old(board.cells)
    ensures board.grid == MarkMoved(g, p.row, p.col)
    ensures found' == Filter(visited + [(r, c)], SafeKeep(g, p))
  {
    AfterMoveMarked(g, p.row, p.col, r, c);
    MarkMovedTwice(g, p.row, p.col);
    var safe := TestMoveSafety(board, p, r, c);
    assert (visited + [(r, c)])[..|visited|] == visited;
    found' := if safe then found + [(r, c)] else found;
  }

  /** A step from a square on the board brings a ray closer to the edge. */
  lemma ReachShrinks(r: int, c: int, dr: int, dc: int)
    requires IsStep(dr, dc) && IsValidPosition(r, c)
    ensures Reach(r + dr, dr) + Reach(c + dc, dc) < Reach(r, dr) + Reach(c, dc)
  {
  }

  lemma Regroup(a: seq<Square>, x: Square, b: seq<Square>)
    ensures a + ([x] + b) == (a + [x]) + b
  {
  }

  /** One step of a ray: what the ray from (r, c) holds, in terms of what
      stands on the next square. */
  lemma SlideRayStep(g: Grid, p: Piece, r: int, c: int, dr: int, dc: int)
    requires IsStep(dr, dc)
    ensures SlideRay(g, p, r, c, dr, dc)
            == if !IsValidPosition(r + dr, c + dc) || !Lands(Get(g, r + dr, c + dc), p) then []
               else if Get(g, r + dr, c + dc).None? then [(r + dr, c + dc)] + SlideRay(g, p, r + dr, c + dc, dr, dc)
               else [(r + dr, c + dc)]
  {
  }

  /** `pieceMovement` of a slider: the rays in the order of `dirs`. */
  method SlidePieceMovement(board: Board, p: Piece, dirs: seq<(int, int)>) returns (moves: seq<Square>)
    requires board.Valid() && Get(board.grid, p.row, p.col) == Some(p) && AllSteps(dirs)
    modifies board, board.cells
    ensures board.Valid() && board.cells == old(board.cells)
    ensures board.grid == SlideAfter(old(board.grid), p, dirs)
    ensures moves == SlideMoves(old(board.grid), p, dirs)
  {
    ghost var g := board.grid;
    moves := [];
    for i := 0 to |dirs|
      invariant board.Valid() && board.cells == old(board.cells)
      invariant moves == Filter(SlideCandidates(g, p, dirs[..i]), SafeKeep(g, p))
      invariant board.grid == SlideAfter(g, p, dirs[..i])
    {
      assert dirs[..i + 1][..i] == dirs[..i];
      var found := ScanRay(board, p, dirs[i].0, dirs[i].1, g);
      FilterAppend(SlideCandidates(g, p, dirs[..i]), SlideRay(g, p, p.row, p.col, dirs[i].0, dirs[i].1), SafeKeep(g, p));
      moves := moves + found;
    }
    assert dirs[..|dirs|] == dirs;
  }

  /** The walk from the square after f in direction d gets to t over
      empty squares. */
  predicate WalkTo(g: Grid, f: Square, t: Square, d: (int, int))
  {
    Ahead(f.0 + d.0, f.1 + d.1, t, d.0, d.1) && PathClear(g, f.0 + d.0, f.1 + d.1, t, d.0, d.1)
  }

  /** Some walk from the square after f, in one of the directions, gets to
      t over empty squares. */
  predicate WalkReaches(g: Grid, f: Square, t: Square, dirs: seq<(int, int)>)
  {
    exists i | 0 <= i < |dirs| :: WalkTo(g, f, t, dirs[i])
  }

  /** t is another square on the line from f in direction d, with the
      squares between empty. */
  ghost predicate LineTo(g: Grid, f: Square, t: Square, d: (int, int))
  {
    t != f && Aligned(f, t) && (Sign(t.0 - f.0), Sign(t.1 - f.1)) == d && ClearBetween(g, f, t)
  }

  /** The members of one ray: the squares ahead of (r, c) on the board that
      a clear walk reaches, empty or holding an enemy non-king. */
  lemma {:induction false} SlideRayMembers(g: Grid, p: Piece, r: int, c: int, dr: int, dc: int, t: Square)
    requires IsStep(dr, dc) && IsValidPosition(r, c)
    ensures t in SlideRay(g, p, r, c, dr, dc) <==>
            t != (r, c) && Ahead(r + dr, c + dc, t, dr, dc) && IsValidPosition(t.0, t.1)
            && PathClear(g, r + dr, c + dc, t, dr, dc) && Lands(Get(g, t.0, t.1), p)
    decreases Reach(r, dr) + Reach(c, dc)
  {
    var nr, nc := r + dr, c + dc;
    SlideRayStep(g, p, r, c, dr, dc);
    if IsValidPosition(nr, nc) && Get(g, nr, nc).None? {
      SlideRayMembers(g, p, nr, nc, dr, dc, t);
      AheadNext(nr, nc, t, dr, dc);
    }
  }

  lemma {:induction false} SlideCandidatesMembers(g: Grid, p: Piece, dirs: seq<(int, int)>, t: Square)
    requires AllSteps(dirs)
    ensures t in SlideCandidates(g, p, dirs) <==>
            exists i | 0 <= i < |dirs| :: t in SlideRay(g, p, p.row, p.col, dirs[i].0, dirs[i].1)
  {
    if dirs != [] {
      SlideCandidatesMembers(g, p, dirs[..|dirs| - 1], t);
      if t in SlideCandidates(g, p, dirs[..|dirs| - 1]) {
        var i :| 0 <= i < |dirs| - 1 && t in SlideRay(g, p, p.row, p.col, dirs[..|dirs| - 1][i].0, dirs[..|dirs| - 1][i].1);
        assert dirs[..|dirs| - 1][i] == dirs[i];
      }
    }
  }

  /** `pieceMovement` of a slider standing on its square holds exactly the
      squares some ray reaches by a clear walk, empty or holding an enemy
      non-king, whose simulation leaves the piece's side out of check. */
  lemma SlideMovesExactly(g: Grid, p: Piece, dirs: seq<(int, int)>, t: Square)
    requires AllSteps(dirs) && IsValidPosition(p.row, p.col)
    ensures t in SlideMoves(g, p, dirs) <==>
            WalkReaches(g, (p.row, p.col), t, dirs)
            && t != (p.row, p.col) && IsValidPosition(t.0, t.1) && Lands(Get(g, t.0, t.1), p)
            && LeavesKingSafe(g, p, t)
  {
    FilterMembers(SlideCandidates(g, p, dirs), SafeKeep(g, p));
    SlideCandidatesWalk(g, p, dirs, t);
  }

  /** The candidates of all rays, before the safety test: the squares some
      clear walk reaches that the piece may land on. */
  lemma SlideCandidatesWalk(g: Grid, p: Piece, dirs: seq<(int, int)>, t: Square)
    requires AllSteps(dirs) && IsValidPosition(p.row, p.col)
    ensures t in SlideCandidates(g, p, dirs) <==>
            WalkReaches(g, (p.row, p.col), t, dirs)
            && t != (p.row, p.col) && IsValidPosition(t.0, t.1) && Lands(Get(g, t.0, t.1), p)
  {
    SlideCandidatesMembers(g, p, dirs, t);
    if t in SlideCandidates(g, p, dirs) {
      var i :| 0 <= i < |dirs| && t in SlideRay(g, p, p.row, p.col, dirs[i].0, dirs[i].1);
      SlideRayWalk(g, p, dirs[i], t);
    }
    if WalkReaches(g, (p.row, p.col), t, dirs) && t != (p.row, p.col) && IsValidPosition(t.0, t.1) && Lands(Get(g, t.0, t.1), p) {
      var i :| 0 <= i < |dirs| && WalkTo(g, (p.row, p.col), t, dirs[i]);
      SlideRayWalk(g, p, dirs[i], t);
    }
  }

  /** The ray from the piece in direction d, in terms of the walk. */
  lemma SlideRayWalk(g: Grid, p: Piece, d: (int, int), t: Square)
    requires IsStep(d.0, d.1) && IsValidPosition(p.row, p.col)
    ensures t in SlideRay(g, p, p.row, p.col, d.0, d.1) <==>
            WalkTo(g, (p.row, p.col), t, d) && t != (p.row, p.col) && IsValidPosition(t.0, t.1) && Lands(Get(g, t.0, t.1), p)
  {
    SlideRayMembers(g, p, p.row, p.col, d.0, d.1, t);
  }

  /** The same list described by geometry: the other squares of the board
      on a line through the piece, in one of its directions, with the
      squares between empty, that it may land on and whose simulation
      leaves its side out of check. */
  lemma SlideMovesGeometry(g: Grid, p: Piece, dirs: seq<(int, int)>, t: Square)
    requires AllSteps(dirs) && IsValidPosition(p.row, p.col)
    ensures var f := (p.row, p.col);
            t in SlideMoves(g, p, dirs) <==>
              IsValidPosition(t.0, t.1) && t != f && Aligned(f, t) && (Sign(t.0 - f.0), Sign(t.1 - f.1)) in dirs
              && ClearBetween(g, f, t) && Lands(Get(g, t.0, t.1), p) && LeavesKingSafe(g, p, t)
  {
    SlideMovesExactly(g, p, dirs, t);
    WalkReachesGeometry(g, (p.row, p.col), t, dirs);
  }

  /** A walk gets to t exactly when t is another square on a line through
      f, in one of the directions, with the squares between empty. */
  lemma WalkReachesGeometry(g: Grid, f: Square, t: Square, dirs: seq<(int, int)>)
    requires AllSteps(dirs)
    ensures WalkReaches(g, f, t, dirs) <==>
            t != f && Aligned(f, t) && (Sign(t.0 - f.0), Sign(t.1 - f.1)) in dirs && ClearBetween(g, f, t)
  {
    if WalkReaches(g, f, t, dirs) {
      var i :| 0 <= i < |dirs| && WalkTo(g, f, t, dirs[i]);
      WalkInDirection(g, f, t, dirs[i]);
    }
    var d := (Sign(t.0 - f.0), Sign(t.1 - f.1));
    if t != f && Aligned(f, t) && d in dirs && ClearBetween(g, f, t) {
      var i :| 0 <= i < |dirs| && dirs[i] == d;
      WalkInDirection(g, f, t, dirs[i]);
    }
  }

  /** The walk in direction d gets to t exactly when d is the direction of
      the line from f to t and the squares between are empty. */
  lemma WalkInDirection(g: Grid, f: Square, t: Square, d: (int, int))
    requires IsStep(d.0, d.1)
    ensures WalkTo(g, f, t, d) <==> LineTo(g, f, t, d)
  {
    if WalkTo(g, f, t, d) {
      WalkIsLine(g, f, t, d);
    }
    if LineTo(g, f, t, d) {
      LineIsWalk(g, f, t, d);
    }
  }

  lemma WalkIsLine(g: Grid, f: Square, t: Square, d: (int, int))
    requires IsStep(d.0, d.1) && WalkTo(g, f, t, d)
    ensures LineTo(g, f, t, d)
  {
    AheadFromNext(f, t, d.0, d.1);
    WalkClearsBetween(g, f, t);
  }

  lemma LineIsWalk(g: Grid, f: Square, t: Square, d: (int, int))
    requires LineTo(g, f, t, d)
    ensures WalkTo(g, f, t, d)
  {
    WalkClearsBetween(g, f, t);
  }

  /** A second as-written probe, made once the piece has left its square:
      `makeMove` carries nothing from the origin and empties the target,
      `undoMove` puts the target's occupant back, and the answer is the
      check test on the board without the piece and with the target empty. */
  lemma SafetyProbeOnEmptyOrigin(g: Grid, p: Piece, t: Square)
    requires Get(g, p.row, p.col).None? && IsValidPosition(t.0, t.1) && t != (p.row, p.col)
    ensures SafetyProbeAsWrittenAfter(g, p, t) == g
    ensures LeavesKingSafe(g, p, t) <==> !InCheck(Set(g, t.0, t.1, None), p.color)
  {
    GridExt(SafetyProbeAsWrittenAfter(g, p, t), g);
    GridExt(AfterMove(g, p.row, p.col, t.0, t.1), Set(g, t.0, t.1, None));
  }

  /** The search of `canMove` through the list `pieceMovement` returned. */
  method FindMove(moves: seq<Square>, toRow: int, toCol: int) returns (found: bool)
    ensures found <==> (toRow, toCol) in moves
  {
    found := false;
    var i := 0;
    while i < |moves|
      invariant 0 <= i <= |moves|
      invariant !found && (toRow, toCol) !in moves[..i]
    {
      if moves[i].0 == toRow && moves[i].1 == toCol {
        return true;
      }
      assert moves[..i + 1] == moves[..i] + [moves[i]];
      i := i + 1;
    }
    assert moves[..i] == moves;
  }

  lemma {:induction false} SlideRaySameMen(g1: Grid, g2: Grid, p: Piece, r: int, c: int, dr: int, dc: int)
    requires IsStep(dr, dc) && SameMen(g1, g2)
    ensures SlideRay(g1, p, r, c, dr, dc) == SlideRay(g2, p, r, c, dr, dc)
    decreases Reach(r, dr) + Reach(c, dc)
  {
    var nr, nc := r + dr, c + dc;
    SameMenAt(g1, g2, nr, nc);
    if IsValidPosition(nr, nc) && Get(g1, nr, nc).None? {
      SlideRaySameMen(g1, g2, p, nr, nc, dr, dc);
    }
  }

  lemma {:induction false} SlideCandidatesSameMen(g1: Grid, g2: Grid, p: Piece, dirs: seq<(int, int)>)
    requires AllSteps(dirs) && SameMen(g1, g2)
    ensures SlideCandidates(g1, p, dirs) == SlideCandidates(g2, p, dirs)
  {
    if dirs != [] {
      SlideCandidatesSameMen(g1, g2, p, dirs[..|dirs| - 1]);
      SlideRaySameMen(g1, g2, p, p.row, p.col, dirs[|dirs| - 1].0, dirs[|dirs| - 1].1);
    }
  }

  /** A slider's moves do not depend on any moved flag. */
  lemma SlideMovesSameMen(g1: Grid, g2: Grid, p: Piece, dirs: seq<(int, int)>)
    requires AllSteps(dirs) && SameMen(g1, g2)
    ensures SlideMoves(g1, p, dirs) == SlideMoves(g2, p, dirs)
    ensures (SlideCandidates(g1, p, dirs) == []) == (SlideCandidates(g2, p, dirs) == [])
  {
    SlideCandidatesSameMen(g1, g2, p, dirs);
    var ts := SlideCandidates(g1, p, dirs);
    forall i | 0 <= i < |ts|
      ensures SafeKeep(g1, p)(ts[i]) == SafeKeep(g2, p)(ts[i])
    {
      LeavesKingSafeSameMen(g1, g2, p, ts[i]);
    }
    FilterSameKeep(ts, SafeKeep(g1, p), SafeKeep(g2, p));
  }
}
