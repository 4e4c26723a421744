/** Board.java: the 8 x 8 array of squares, its raw move primitives and the
    check detector, as a class whose ghost field `grid` is the value every
    rule is specified on. */
module Chessboard {
  import opened Wrappers
  import opened Pieces
  import opened BoardValue
  import opened Attacks

  class Board {
    /** `squares[row][col]`; each square holds null or a piece. */
    var cells: array2<Cell>
    /** The abstract view of `cells`. */
    ghost var grid: Grid

    ghost predicate Valid()
      reads this, cells
    {
      cells.Length0 == 8 && cells.Length1 == 8 &&
      forall r, c | 0 <= r < 8 && 0 <= c < 8 :: cells[r, c] == grid[r][c]
    }

    /** The private constructor: an empty board set up for a new game. */
    constructor ()
      ensures Valid() && fresh(cells)
      ensures grid == InitialGrid()
    {
      cells := new Cell[8, 8]((r, c) => None);
      grid := EmptyGrid();
      new;
      SetupInitialPosition();
    }

    /** `initializeEmptyBoard` */
    method InitializeEmptyBoard()
      requires cells.Length0 == 8 && cells.Length1 == 8
      modifies this, cells
      ensures Valid() && cells == old(cells)
      ensures grid == EmptyGrid()
    {
      for r := 0 to 8
        invariant cells == old(cells)
        invariant forall r', c' | 0 <= r' < r && 0 <= c' < 8 :: cells[r', c'] == None
      {
        for c := 0 to 8
          invariant cells == old(cells)
          invariant forall r', c' | 0 <= r' < r && 0 <= c' < 8 :: cells[r', c'] == None
          invariant forall c' | 0 <= c' < c :: cells[r, c'] == None
        {
          cells[r, c] := None;
        }
      }
      grid := EmptyGrid();
    }

    /** `getPiece`: null off the board. */
    function GetPiece(r: int, c: int): (x: Cell)
      reads this, cells
      requires Valid()
      ensures x == Get(grid, r, c)
      ensures !IsValidPosition(r, c) ==> x == None
    {
      if IsValidPosition(r, c) then cells[r, c] else None
    }

    /** `isEmpty`: true off the board as well. */
    function IsEmpty(r: int, c: int): (b: bool)
      reads this, cells
      requires Valid()
      ensures b <==> BoardValue.IsEmpty(grid, r, c)
    {
      GetPiece(r, c).None?
    }

    /** `hasEnemyPiece` */
    function HasEnemyPiece(r: int, c: int, myColor: Color): (b: bool)
      reads this, cells
      requires Valid()
      ensures b <==> BoardValue.HasEnemyPiece(grid, r, c, myColor)
    {
      var x := GetPiece(r, c);
      x.Some? && x.value.color != myColor
    }

    /** The squares read one by one into a grid value, for the rules
        that only look at the board. */
    method Snapshot() returns (g: Grid)
      requires Valid()
      ensures g == grid
    {
      var rows: seq<seq<Cell>> := [];
      for r := 0 to 8
        invariant |rows| == r
        invariant forall i | 0 <= i < r :: rows[i] == grid[i]
      {
        var row: seq<Cell> := [];
        for c := 0 to 8
          invariant row == grid[r][..c]
        {
          row := row + [cells[r, c]];
        }
        assert grid[r][..8] == grid[r];
        rows := rows + [row];
      }
      g := rows;
    }

    /** `setPiece`: ignored off the board. */
    method SetPiece(r: int, c: int, x: Cell)
      requires Valid()
      modifies this, cells
      ensures Valid() && cells == old(cells)
      ensures grid == Set(old(grid), r, c, x)
    {
      if IsValidPosition(r, c) {
        cells[r, c] := x;
      }
      grid := Set(grid, r, c, x);
    }

    /** `setHasMoved` on the piece standing on (r, c): pieces are values
        here, so a piece object's flag is updated where it stands. */
    method SetHasMovedAt(r: int, c: int, moved: bool)
      requires Valid()
      modifies this, cells
      ensures Valid() && cells == old(cells)
      ensures grid == SetFlag(old(grid), r, c, moved)
    {
      var x := GetPiece(r, c);
      if x.Some? {
        SetPiece(r, c, Some(SetHasMoved(x.value, moved)));
      }
    }

    /** `placePiece`: a piece goes on the square it reports. */
    method PlacePiece(p: Piece)
      requires Valid()
      modifies this, cells
      ensures Valid() && cells == old(cells)
      ensures grid == Set(old(grid), p.row, p.col, Some(p))
    {
      SetPiece(p.row, p.col, Some(p));
    }

    /** `setupInitialPosition` */
    method SetupInitialPosition()
      requires cells.Length0 == 8 && cells.Length1 == 8
      modifies this, cells
      ensures Valid() && cells == old(cells)
      ensures grid == InitialGrid()
    {
      InitializeEmptyBoard();
      for c := 0 to 8
        invariant Valid() && cells == old(cells)
        invariant PlacePawns(grid, c) == PlacePawns(EmptyGrid(), 0)
      {
        SetPiece(6, c, Some(NewPiece(Pawn, White, 6, c)));
        SetPiece(1, c, Some(NewPiece(Pawn, Black, 1, c)));
      }
      ghost var g1 := grid;
      for c := 0 to 8
        invariant Valid() && cells == old(cells)
        invariant PlaceRank(grid, 7, White, c) == PlaceRank(g1, 7, White, 0)
      {
        PlacePiece(NewPiece(BackRank(c), White, 7, c));
      }
      ghost var g2 := grid;
      for c := 0 to 8
        invariant Valid() && cells == old(cells)
        invariant PlaceRank(grid, 0, Black, c) == PlaceRank(g2, 0, Black, 0)
      {
        PlacePiece(NewPiece(BackRank(c), Black, 0, c));
      }
      PlacementBuildsOpening();
    }

    /** `makeMove` */
    method MakeMove(fr: int, fc: int, tr: int, tc: int)
      requires Valid()
      modifies this, cells
      ensures Valid() && cells == old(cells)
      ensures grid == AfterMove(old(grid), fr, fc, tr, tc)
    {
      var moving := GetPiece(fr, fc);
      var placed := if moving.Some? then Some(SetHasMoved(SetPosition(moving.value, tr, tc), true)) else None;
      SetPiece(tr, tc, placed);
      SetPiece(fr, fc, None);
    }

    /** `undoMove`: the moved flag is not restored. */
    method UndoMove(fr: int, fc: int, tr: int, tc: int, captured: Cell)
      requires Valid()
      modifies this, cells
      ensures Valid() && cells == old(cells)
      ensures grid == AfterUndo(old(grid), fr, fc, tr, tc, captured)
    {
      var moving := GetPiece(tr, tc);
      var back := if moving.Some? then Some(SetPosition(moving.value, fr, fc)) else None;
      SetPiece(fr, fc, back);
      SetPiece(tr, tc, captured);
    }

    /** `rayHits`: each direction is walked until the first occupied square. */
    method RayHits(r: int, c: int, dirs: seq<(int, int)>, byColor: Color, rookLike: bool) returns (hit: bool)
      requires Valid() && AllSteps(dirs)
      ensures hit == AnyRayHits(grid, r, c, dirs, byColor, rookLike)
    {
      for i := 0 to |dirs|
        invariant forall j | 0 <= j < i :: !RayHit(grid, r, c, dirs[j].0, dirs[j].1, byColor, rookLike)
      {
        var dr, dc := dirs[i].0, dirs[i].1;
        var nr, nc := r + dr, c + dc;
        while IsValidPosition(nr, nc)
          invariant RayHit(grid, r, c, dr, dc, byColor, rookLike) == RayHit(grid, nr - dr, nc - dc, dr, dc, byColor, rookLike)
          decreases Reach(nr, dr) + Reach(nc, dc)
        {
          var p := GetPiece(nr, nc);
          if p.Some? {
            if p.value.color == byColor && Slides(p.value.kind, rookLike) {
              return true;
            }
            break;
          }
          nr, nc := nr + dr, nc + dc;
        }
      }
      return false;
    }

    /** `squareAttacked` */
    method SquareAttacked(r: int, c: int, byColor: Color) returns (attacked: bool)
      requires Valid()
      ensures attacked == Attacked(grid, r, c, byColor)
    {
      for i := 0 to 8
        invariant forall j | 0 <= j < i :: !IsPieceOf(Get(grid, r + KnightJumps[j].0, c + KnightJumps[j].1), Knight, byColor)
      {
        var p := GetPiece(r + KnightJumps[i].0, c + KnightJumps[i].1);
        if p.Some? && p.value.kind == Knight && p.value.color == byColor {
          return true;
        }
      }
      var dir := if byColor == White then -1 else 1;
      var dcs := [-1, 1];
      for i := 0 to 2
        invariant forall j | 0 <= j < i :: !IsPieceOf(Get(grid, r - dir, c + dcs[j]), Pawn, byColor)
      {
        var p := GetPiece(r - dir, c + dcs[i]);
        if p.Some? && p.value.kind == Pawn && p.value.color == byColor {
          assert dir == PawnDir(byColor) && dcs[i] in [-1, 1];
          return true;
        }
      }
      attacked := RayHits(r, c, Straight, byColor, true);
      if attacked {
        return;
      }
      attacked := RayHits(r, c, Diagonals, byColor, false);
    }

    /** `isInCheck`: collect the squares of every king of the colour, then
        ask whether one of them is attacked by the other side. */
    method IsInCheck(color: Color) returns (check: bool)
      requires Valid()
      ensures check == InCheck(grid, color)
    {
      var kings := KingSquares(color);
      if kings == [] {
        return false;
      }
      var enemy := if color == White then Black else White;
      for i := 0 to |kings|
        invariant forall j | 0 <= j < i :: !Attacked(grid, kings[j].0, kings[j].1, enemy)
      {
        var attacked := SquareAttacked(kings[i].0, kings[i].1, enemy);
        if attacked {
          return true;
        }
      }
      return false;
    }

    /** The first half of `isInCheck`: the squares of the kings of a colour,
        found by a row-major scan. */
    method KingSquares(color: Color) returns (kings: seq<(int, int)>)
      requires Valid()
      ensures forall k | k in kings :: IsValidPosition(k.0, k.1) && IsPieceOf(Get(grid, k.0, k.1), King, color)
      ensures forall r, c | 0 <= r < 8 && 0 <= c < 8 && IsPieceOf(Get(grid, r, c), King, color) :: (r, c) in kings
    {
      kings := [];
      for r := 0 to 8
        invariant forall k | k in kings :: 0 <= k.0 < r && 0 <= k.1 < 8 && IsPieceOf(Get(grid, k.0, k.1), King, color)
        invariant forall r', c' | 0 <= r' < r && 0 <= c' < 8 && IsPieceOf(Get(grid, r', c'), King, color) :: (r', c') in kings
      {
        for c := 0 to 8
          invariant forall k | k in kings :: 0 <= k.0 <= r && 0 <= k.1 < 8 && IsPieceOf(Get(grid, k.0, k.1), King, color)
          invariant forall r', c' | 0 <= r' < r && 0 <= c' < 8 && IsPieceOf(Get(grid, r', c'), King, color) :: (r', c') in kings
          invariant forall c' | 0 <= c' < c && IsPieceOf(Get(grid, r, c'), King, color) :: (r, c') in kings
        {
          var p := GetPiece(r, c);
          if p.Some? && p.value.kind == King && p.value.color == color {
            kings := kings + [(r, c)];
          }
        }
      }
    }

    /** `getAllPieces`: the pieces in row-major order. */
    method GetAllPieces() returns (pieces: seq<Piece>)
      requires Valid()
      ensures pieces == AllPieces(grid)
    {
      pieces := [];
      for r := 0 to 8
        invariant pieces == RowsPrefix(grid, r)
      {
        for c := 0 to 8
          invariant pieces == RowsPrefix(grid, r) + RowPrefix(grid, r, c)
        {
          var p := GetPiece(r, c);
          if p.Some? {
            pieces := pieces + [p.value];
          }
        }
      }
    }
  }

  /** The pieces of row r among its first c columns, left to right. */
  function RowPrefix(g: Grid, r: int, c: nat): seq<Piece>
    requires c <= 8
  {
    if c == 0 then []
    else RowPrefix(g, r, c - 1) + (if Get(g, r, c - 1).Some? then [Get(g, r, c - 1).value] else [])
  }

  /** The pieces of the first r rows in row-major order. */
  function RowsPrefix(g: Grid, r: nat): seq<Piece>
    requires r <= 8
  {
    if r == 0 then [] else RowsPrefix(g, r - 1) + RowPrefix(g, r - 1, 8)
  }

  function AllPieces(g: Grid): seq<Piece>
  {
    RowsPrefix(g, 8)
  }

  lemma {:induction false} RowPrefixMembers(g: Grid, r: int, c: nat)
    requires c <= 8
    ensures forall p :: p in RowPrefix(g, r, c) <==> exists c' | 0 <= c' < c :: Get(g, r, c') == Some(p)
  {
    if c > 0 {
      RowPrefixMembers(g, r, c - 1);
    }
  }

  lemma {:induction false} RowsPrefixMembers(g: Grid, r: nat)
    requires r <= 8
    ensures forall p :: p in RowsPrefix(g, r) <==> exists r', c' | 0 <= r' < r && 0 <= c' < 8 :: Get(g, r', c') == Some(p)
  {
    if r > 0 {
      RowsPrefixMembers(g, r - 1);
      RowPrefixMembers(g, r - 1, 8);
    }
  }

  /** `getAllPieces` lists exactly the pieces standing on the board. */
  lemma AllPiecesMembers(g: Grid)
    ensures forall p :: p in AllPieces(g) <==> exists r, c | IsValidPosition(r, c) :: Get(g, r, c) == Some(p)
  {
    RowsPrefixMembers(g, 8);
  }

  /** The position of a piece's square in row-major order. */
  function SquareIndex(p: Piece): int
  {
    8 * p.row + p.col
  }

  /** The pieces are listed in strictly increasing row-major order of the
      squares they report, so no square is listed twice. */
  ghost predicate RowMajor(ps: seq<Piece>)
  {
    forall i, j | 0 <= i < j < |ps| :: SquareIndex(ps[i]) < SquareIndex(ps[j])
  }

  lemma {:induction false} RowPrefixOrdered(g: Grid, r: int, c: nat)
    requires Consistent(g) && 0 <= r < 8 && c <= 8
    ensures RowMajor(RowPrefix(g, r, c))
    ensures forall p | p in RowPrefix(g, r, c) :: p.row == r && 0 <= p.col < c
  {
    if c > 0 {
      RowPrefixOrdered(g, r, c - 1);
      var a := RowPrefix(g, r, c - 1);
      if Get(g, r, c - 1).Some? {
        var ps := a + [Get(g, r, c - 1).value];
        forall i, j | 0 <= i < j < |ps|
          ensures SquareIndex(ps[i]) < SquareIndex(ps[j])
        {
          assert ps[i] in a;
          if j < |a| {
            assert ps[j] == a[j];
          }
        }
      }
    }
  }

  lemma {:induction false} RowsPrefixOrdered(g: Grid, r: nat)
    requires Consistent(g) && r <= 8
    ensures RowMajor(RowsPrefix(g, r))
    ensures forall p | p in RowsPrefix(g, r) :: 0 <= p.row < r && 0 <= p.col < 8
  {
    if r > 0 {
      RowsPrefixOrdered(g, r - 1);
      RowPrefixOrdered(g, r - 1, 8);
      var a, b := RowsPrefix(g, r - 1), RowPrefix(g, r - 1, 8);
      var ps := a + b;
      forall i, j | 0 <= i < j < |ps|
        ensures SquareIndex(ps[i]) < SquareIndex(ps[j])
      {
        if j < |a| {
          assert ps[i] == a[i] && ps[j] == a[j];
        } else if i < |a| {
          assert ps[i] in a && ps[j] in b;
        } else {
          assert ps[i] == b[i - |a|] && ps[j] == b[j - |a|];
        }
      }
    }
  }

  /** On a consistent grid `getAllPieces` lists each piece once, in
      row-major order, and each listed piece stands on the square it
      reports. */
  lemma AllPiecesStand(g: Grid)
    requires Consistent(g)
    ensures RowMajor(AllPieces(g))
    ensures forall i | 0 <= i < |AllPieces(g)| ::
              Get(g, AllPieces(g)[i].row, AllPieces(g)[i].col) == Some(AllPieces(g)[i])
  {
    RowsPrefixOrdered(g, 8);
    AllPiecesMembers(g);
    forall i | 0 <= i < |AllPieces(g)|
      ensures Get(g, AllPieces(g)[i].row, AllPieces(g)[i].col) == Some(AllPieces(g)[i])
    {
      var p := AllPieces(g)[i];
      assert p in AllPieces(g);
    }
  }
}
