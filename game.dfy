/** ChessGame.java: the façade the view talks to.  It keeps the selection,
    the side to move, the en-passant target, the promotion square and the
    end of the game, and drives the board and the pieces.  The singletons
    become a board handed to the constructor; the pieces' reads of the
    game's en-passant target become a parameter of their operations. */
module Game {
  import opened Wrappers
  import opened Pieces
  import opened BoardValue
  import opened Attacks
  import opened Chessboard
  import opened PawnRules
  import opened RookRules
  import opened QueenRules
  import opened KnightRules
  import opened Movement
  import opened Checkmate
  import opened Castling
  import Lines

  /** `winner`: '\0' while nobody has won, 'W' or 'B', or '=' for a draw. */
  datatype Winner = NoWinner | Won(color: Color) | Drawn

  /** The fields of a ChessGame, with the board as its grid and the
      selected piece as the square it stands on. */
  datatype GameState = GameState(grid: Grid, selected: Option<Square>, turn: Color, ended: bool,
                                 winner: Winner, ep: Option<Square>, promotionPending: bool,
                                 promoRow: int, promoCol: int)

  /** The answer of `moveTo` and the state it leaves. */
  datatype Step = Step(ok: bool, after: GameState)

  /* ----------------------------- end of game ----------------------------- */

  /** `anyLegalMoves` over a piece list: pieces of another colour are
      skipped, and the scan stops at the first piece whose `pieceMovement`
      is not empty. */
  ghost function AnyScan(g: Grid, ps: seq<Piece>, color: Color, ep: Option<Square>): Scan
    decreases |ps|
  {
    if ps == [] then Scan(false, g)
    else if ps[0].color != color then AnyScan(g, ps[1..], color, ep)
    else if Moves(g, ps[0], ep) != [] then Scan(true, MovementAfter(g, ps[0]))
    else AnyScan(MovementAfter(g, ps[0]), ps[1..], color, ep)
  }

  /** The piece on (r, c) is of the colour and lists at least one move. */
  ghost predicate MovableFrom(g: Grid, r: int, c: int, color: Color, ep: Option<Square>)
  {
    Get(g, r, c).Some? && Get(g, r, c).value.color == color && Moves(g, Get(g, r, c).value, ep) != []
  }

  /** Some piece of the colour has a move. */
  ghost predicate HasLegalMove(g: Grid, color: Color, ep: Option<Square>)
  {
    exists r, c | IsValidPosition(r, c) :: MovableFrom(g, r, c, color, ep)
  }

  /** `checkEndOfGame`, with the turn already passed to the side that is to
      answer: mate ends the game won by the side that moved; otherwise a
      side without any move ends it drawn. */
  ghost function EndOfGame(s: GameState): GameState
  {
    var enemy := s.turn;
    var g1 := CheckmateAfter(s.grid, enemy, s.ep);
    if Checkmated(s.grid, enemy, s.ep) then s.(grid := g1, ended := true, winner := Won(Opponent(enemy)))
    else
      var scan := AnyScan(g1, AllPieces(g1), enemy, s.ep);
      if scan.found then s.(grid := scan.after) else s.(grid := scan.after, ended := true, winner := Drawn)
  }

  /* ------------------------------- moveTo -------------------------------- */

  /** The direction from an en-passant target to the pawn it captures:
      `currentTurn == 'W' ? 1 : -1`. */
  function CaptureDir(turn: Color): int
  {
    if turn == White then 1 else -1
  }

  /** `setEnPassantIfDoublePush`: after a pawn's two-row move, the square
      behind it. */
  function NextEnPassant(p: Piece, fromRow: int, toRow: int, col: int): Option<Square>
  {
    if p.kind == Pawn && Abs(toRow - fromRow) == 2 then Some((toRow - PawnDir(p.color), col)) else None
  }

  /** The row on which a pawn of the colour promotes. */
  function LastRow(color: Color): int
  {
    if color == White then 0 else 7
  }

  /** `moveTo`'s castling branch: a king onto a rook of its own colour. */
  predicate IsCastleAttempt(g: Grid, p: Piece, t: Square)
  {
    p.kind == King && IsPieceOf(Get(g, t.0, t.1), Rook, p.color)
  }

  /** An en-passant capture: a pawn onto the empty en-passant target. */
  predicate EnPassantCapture(g: Grid, p: Piece, ep: Option<Square>, t: Square)
  {
    Get(g, t.0, t.1).None? && ep == Some(t) && p.kind == Pawn
  }

  /** The grid once the pawn taken en passant, if any, is removed. */
  function EpRemoved(g: Grid, p: Piece, turn: Color, ep: Option<Square>, t: Square): Grid
  {
    if EnPassantCapture(g, p, ep, t) then Set(g, t.0 + CaptureDir(turn), t.1, None) else g
  }

  /** The state after an accepted ordinary move, from the grid `canMove`
      left up to `endTurn`: the en-passant capture, `makeMove`, the new
      en-passant target, the promotion square and the turn passed. */
  function AfterPlay(s: GameState, p: Piece, t: Square): GameState
  {
    var promo := p.kind == Pawn && t.0 == LastRow(p.color);
    s.(grid := AfterMove(EpRemoved(s.grid, p, s.turn, s.ep, t), p.row, p.col, t.0, t.1),
       ep := NextEnPassant(p, p.row, t.0, t.1),
       promotionPending := s.promotionPending || promo,
       promoRow := if promo then t.0 else s.promoRow, promoCol := if promo then t.1 else s.promoCol,
       turn := Opponent(s.turn), selected := None)
  }

  /** `moveTo(row, col)`.  A selected square that has been emptied since it
      was selected refuses the move. */
  ghost function MoveToSpec(s: GameState, t: Square): Step
  {
    if s.ended || s.selected.None? || Get(s.grid, s.selected.value.0, s.selected.value.1).None? then Step(false, s)
    else
      var p := Get(s.grid, s.selected.value.0, s.selected.value.1).value;
      if IsCastleAttempt(s.grid, p, t) then
        var rk := Get(s.grid, t.0, t.1).value;
        var g := CastleAfter(s.grid, p, rk);
        if CastleAllowed(s.grid, p, rk) then Step(true, s.(grid := g, turn := Opponent(s.turn), selected := None, ep := None))
        else Step(false, s.(grid := g))
      else if !CanMoveAnswer(s.grid, p, s.ep, t) then Step(false, s.(grid := CanMoveAfter(s.grid, p)))
      else Step(true, EndOfGame(AfterPlay(s.(grid := CanMoveAfter(s.grid, p)), p, t)))
  }

  /* ------------------------- codes and promotion ------------------------- */

  /** `getTypeChar`.  Only King, Pawn and Knight define it in the source;
      the letters of the other three are those `promote` reads. */
  function TypeChar(k: Kind): char
  {
    match k
    case Pawn => 'P'
    case Knight => 'N'
    case Bishop => 'B'
    case Rook => 'R'
    case Queen => 'Q'
    case King => 'K'
  }

  /** `Character.toLowerCase` on the letters A to Z. */
  function ToLower(ch: char): char
  {
    if 'A' <= ch <= 'Z' then (ch as int + 32) as char else ch
  }

  /** The code of a piece: white in lower case, black in upper case. */
  function PieceCode(k: Kind, color: Color): char
  {
    if color == White then ToLower(TypeChar(k)) else TypeChar(k)
  }

  /** Reading a code back: the kind and colour it names, if any. */
  function DecodePiece(ch: char): Option<(Kind, Color)>
  {
    match ch
    case 'P' => Some((Pawn, Black))
    case 'N' => Some((Knight, Black))
    case 'B' => Some((Bishop, Black))
    case 'R' => Some((Rook, Black))
    case 'Q' => Some((Queen, Black))
    case 'K' => Some((King, Black))
    case 'p' => Some((Pawn, White))
    case 'n' => Some((Knight, White))
    case 'b' => Some((Bishop, White))
    case 'r' => Some((Rook, White))
    case 'q' => Some((Queen, White))
    case 'k' => Some((King, White))
    case _ => None
  }

  /** Every piece has its own code: reading it back names the piece. */
  lemma PieceCodeRoundTrip(k: Kind, color: Color)
    ensures DecodePiece(PieceCode(k, color)) == Some((k, color))
  {
  }

  /** `promote(code)`: 'Q', 'R' and 'B' name their pieces, anything else a
      knight. */
  function PromotionKind(code: char): (k: Kind)
  {
    match code
    case 'Q' => Queen
    case 'R' => Rook
    case 'B' => Bishop
    case _ => Knight
  }

  /** A promotion never gives a pawn or a king, and the letter of each of
      the four other kinds promotes to that kind. */
  lemma PromotionKinds(code: char)
    ensures PromotionKind(code) in {Queen, Rook, Bishop, Knight}
    ensures forall k | k in {Queen, Rook, Bishop, Knight} :: PromotionKind(TypeChar(k)) == k
  {
  }

  /** `getReachableSquares`: each move as a point, column first. */
  function Transposed(ms: seq<Square>): (ps: seq<(int, int)>)
  {
    seq(|ms|, i requires 0 <= i < |ms| => (ms[i].1, ms[i].0))
  }

  /** The loop of `getReachableSquares`: one point (column, row) per
      move, in order. */
  method ToPoints(moves: seq<Square>) returns (points: seq<(int, int)>)
    ensures |points| == |moves|
    ensures forall i | 0 <= i < |moves| :: points[i] == (moves[i].1, moves[i].0)
  {
    points := [];
    var i := 0;
    while i < |moves|
      invariant 0 <= i <= |moves| && |points| == i
      invariant forall j | 0 <= j < i :: points[j] == (moves[j].1, moves[j].0)
    {
      points := points + [(moves[i].1, moves[i].0)];
      i := i + 1;
    }
  }

  /** Transposing twice gives the moves back, so the points name exactly
      the moves. */
  lemma TransposedTwice(ms: seq<Square>)
    ensures Transposed(Transposed(ms)) == ms
    ensures forall x, y :: (x, y) in Transposed(ms) <==> (y, x) in ms
  {
    forall x, y | (y, x) in ms ensures (x, y) in Transposed(ms) {
      var i :| 0 <= i < |ms| && ms[i] == (y, x);
      assert Transposed(ms)[i] == (x, y);
    }
  }

  class ChessGame {
    const board: Board
    /** `selectedPiece`, as the square it stood on when it was selected. */
    var selected: Option<Square>
    var currentTurn: Color
    var gameEnded: bool
    var winner: Winner
    var enPassantTarget: Option<Square>
    var promotionPending: bool
    var promoRow: int
    var promoCol: int

    ghost predicate Valid()
      reads this, board, board.cells
    {
      board.Valid() && Consistent(board.grid) && EpOnBoard(enPassantTarget)
    }

    ghost function State(): GameState
      reads this, board
    {
      GameState(board.grid, selected, currentTurn, gameEnded, winner, enPassantTarget,
                promotionPending, promoRow, promoCol)
    }

    /** The private constructor, with the board singleton as a parameter. */
    constructor (b: Board)
      requires b.Valid() && Consistent(b.grid)
      ensures Valid() && board == b
      ensures State() == GameState(b.grid, None, White, false, NoWinner, None, false, 0, 0)
    {
      board := b;
      selected := None;
      currentTurn := White;
      gameEnded := false;
      winner := NoWinner;
      enPassantTarget := None;
      promotionPending := false;
      promoRow, promoCol := 0, 0;
    }

    /** `resetGame` */
    method ResetGame()
      requires Valid()
      modifies this, board, board.cells
      ensures Valid() && board.cells == old(board.cells)
      ensures State() == GameState(InitialGrid(), None, White, false, NoWinner, None, false,
                                   old(promoRow), old(promoCol))
    {
      currentTurn := White;
      selected := None;
      enPassantTarget := None;
      promotionPending := false;
      gameEnded := false;
      winner := NoWinner;
      InitialGridConsistent();
      board.SetupInitialPosition();
    }

    /** `selectPiece(row, col)`: only a piece of the side to move. */
    method SelectPiece(row: int, col: int) returns (ok: bool)
      requires Valid()
      modifies this
      ensures Valid() && board.cells == old(board.cells)
      ensures ok <==> Get(board.grid, row, col).Some? && Get(board.grid, row, col).value.color == currentTurn
      ensures State() == old(State()).(selected := if ok then Some((row, col)) else old(selected))
    {
      var x := board.GetPiece(row, col);
      if x.Some? && x.value.color == currentTurn {
        selected := Some((row, col));
        return true;
      }
      return false;
    }

    /** `moveTo(row, col)` */
    method MoveTo(row: int, col: int) returns (ok: bool)
      requires Valid()
      modifies this, board, board.cells
      ensures Valid() && board.cells == old(board.cells)
      ensures ok == MoveToSpec(old(State()), (row, col)).ok
      ensures State() == MoveToSpec(old(State()), (row, col)).after
    {
      if gameEnded || selected.None? {
        return false;
      }
      var x := board.GetPiece(selected.value.0, selected.value.1);
      if x.None? {
        return false;
      }
      var p := x.value;
      var target := board.GetPiece(row, col);
      if p.kind == King && target.Some? && target.value.kind == Rook && target.value.color == p.color {
        ok := Castle(p, target.value);
        return;
      }
      ok := MoveOrdinary(p, row, col);
    }

    /** The castling branch of `moveTo`. */
    method Castle(k: Piece, rk: Piece) returns (ok: bool)
      requires Valid() && Get(board.grid, k.row, k.col) == Some(k) && Get(board.grid, rk.row, rk.col) == Some(rk)
      modifies this, board, board.cells
      ensures Valid() && board.cells == old(board.cells)
      ensures ok == CastleAllowed(old(board.grid), k, rk)
      ensures State() == if ok then old(State()).(grid := CastleAfter(old(board.grid), k, rk), turn := Opponent(old(currentTurn)),
                                                  selected := None, ep := None)
                         else old(State()).(grid := CastleAfter(old(board.grid), k, rk))
    {
      CastleKeepsConsistent(board.grid, k, rk);
      ok := TryCastle(board, k, rk);
      if ok {
        EndTurn();
        enPassantTarget := None;
      }
    }

    /** The rest of `moveTo`: `canMove`, the en-passant capture, the move,
      the new en-passant target, the promotion square, `endTurn` and
      `checkEndOfGame`. */
    method MoveOrdinary(p: Piece, row: int, col: int) returns (ok: bool)
      requires Valid() && !gameEnded && selected.Some?
      requires Get(board.grid, selected.value.0, selected.value.1) == Some(p)
      requires !IsCastleAttempt(board.grid, p, (row, col))
      modifies this, board, board.cells
      ensures Valid() && board.cells == old(board.cells)
      ensures ok == MoveToSpec(old(State()), (row, col)).ok
      ensures State() == MoveToSpec(old(State()), (row, col)).after
    {
      ghost var s := State();
      assert p.row == selected.value.0 && p.col == selected.value.1;
      MoveToOrdinary(s, p, (row, col));
      ok := CanMove(board, p, enPassantTarget, row, col);
      SameMenMarkedOrNot(s.grid, p);
      ConsistentSameMen(s.grid, board.grid);
      if !ok {
        return false;
      }
      CanMoveTargets(s.grid, p, enPassantTarget, (row, col));
      Accept(p, row, col);
    }

    /** An accepted ordinary move: the move itself, then `checkEndOfGame`. */
    method Accept(p: Piece, row: int, col: int)
      requires Valid()
      requires NextEnPassant(p, p.row, row, col).Some? ==> IsValidPosition(row - PawnDir(p.color), col)
      modifies this, board, board.cells
      ensures Valid() && board.cells == old(board.cells)
      ensures State() == EndOfGame(AfterPlay(old(State()), p, (row, col)))
    {
      PlayMove(p, row, col);
      CheckEndOfGame();
    }

    /** An accepted ordinary move up to `endTurn`. */
    method PlayMove(p: Piece, row: int, col: int)
      requires Valid()
      requires NextEnPassant(p, p.row, row, col).Some? ==> IsValidPosition(row - PawnDir(p.color), col)
      modifies this, board, board.cells
      ensures Valid() && board.cells == old(board.cells)
      ensures State() == AfterPlay(old(State()), p, (row, col))
    {
      TakeEnPassant(p, row, col);
      ghost var g := board.grid;
      board.MakeMove(p.row, p.col, row, col);
      MoveKeepsConsistent(g, p.row, p.col, row, col);
      SetEnPassantIfDoublePush(p, p.row, row, col);
      MarkPromotion(p, row, col);
      EndTurn();
    }

    /** The en-passant capture of `moveTo`: a pawn moving onto the empty
      en-passant target removes the piece behind it. */
    method TakeEnPassant(p: Piece, row: int, col: int)
      requires Valid()
      modifies board, board.cells
      ensures Valid() && board.cells == old(board.cells)
      ensures board.grid == EpRemoved(old(board.grid), p, currentTurn, enPassantTarget, (row, col))
    {
      var captured := board.GetPiece(row, col);
      if captured.None? && enPassantTarget == Some((row, col)) && p.kind == Pawn {
        var dir := if currentTurn == White then 1 else -1;
        board.SetPiece(row + dir, col, None);
      }
    }

    /** The promotion step of `moveTo`: a pawn reaching its last row leaves
      a pending promotion on its square. */
    method MarkPromotion(p: Piece, row: int, col: int)
      modifies this
      ensures var promo := p.kind == Pawn && row == LastRow(p.color);
              State() == old(State()).(promotionPending := old(promotionPending) || promo,
                                       promoRow := if promo then row else old(promoRow),
                                       promoCol := if promo then col else old(promoCol))
    {
      if p.kind == Pawn {
        var promotable := (p.color == White && row == 0) || (p.color == Black && row == 7);
        if promotable {
          promotionPending := true;
          promoRow := row;
          promoCol := col;
        }
      }
    }

    /** `setEnPassantIfDoublePush` */
    method SetEnPassantIfDoublePush(p: Piece, fromRow: int, toRow: int, col: int)
      requires NextEnPassant(p, fromRow, toRow, col).Some? ==> IsValidPosition(toRow - PawnDir(p.color), col)
      modifies this
      ensures enPassantTarget == NextEnPassant(p, fromRow, toRow, col)
      ensures EpOnBoard(enPassantTarget)
      ensures State() == old(State()).(ep := enPassantTarget)
    {
      if p.kind == Pawn && Abs(toRow - fromRow) == 2 {
        var dir := if p.color == White then -1 else 1;
        enPassantTarget := Some((toRow - dir, col));
      } else {
        enPassantTarget := None;
      }
    }

    /** `endTurn` */
    method EndTurn()
      modifies this
      ensures State() == old(State()).(turn := Opponent(old(currentTurn)), selected := None)
    {
      currentTurn := if currentTurn == White then Black else White;
      selected := None;
    }

    /** `checkEndOfGame` */
    method CheckEndOfGame()
      requires Valid()
      modifies this, board, board.cells
      ensures Valid() && board.cells == old(board.cells)
      ensures State() == EndOfGame(old(State()))
    {
      ghost var g := board.grid;
      var enemy := currentTurn;
      var mate := IsCheckmate(board, enemy, enPassantTarget);
      CheckmateKeepsMen(g, enemy, enPassantTarget);
      ConsistentSameMen(g, board.grid);
      if mate {
        gameEnded := true;
        winner := Won(if enemy == White then Black else White);
        return;
      }
      var any := AnyLegalMoves(enemy);
      if !any {
        gameEnded := true;
        winner := Drawn;
      }
    }

    /** `anyLegalMoves(color)`: whether some piece of the colour lists a
      move, asking the pieces in `getAllPieces` order. */
    method AnyLegalMoves(color: Color) returns (any: bool)
      requires Valid()
      modifies board, board.cells
      ensures Valid() && board.cells == old(board.cells)
      ensures any == AnyScan(old(board.grid), AllPieces(old(board.grid)), color, enPassantTarget).found
      ensures any == HasLegalMove(old(board.grid), color, enPassantTarget)
      ensures board.grid == AnyScan(old(board.grid), AllPieces(old(board.grid)), color, enPassantTarget).after
    {
      ghost var g0 := board.grid;
      var ep := enPassantTarget;
      var pieces := board.GetAllPieces();
      AllPiecesStand(g0);
      AnyScanFindsMove(g0, color, ep);
      AnyScanKeepsMen(g0, pieces, color, ep);
      for i := 0 to |pieces|
        invariant board.Valid() && board.cells == old(board.cells)
        invariant AnyScan(board.grid, pieces[i..], color, ep) == AnyScan(g0, pieces, color, ep)
        invariant forall k | i <= k < |pieces| :: Get(board.grid, pieces[k].row, pieces[k].col) == Some(pieces[k])
      {
        var p := pieces[i];
        assert pieces[i..][1..] == pieces[i + 1..];
        if p.color != color {
          continue;
        }
        ghost var before := board.grid;
        var moves := PieceMovement(board, p, ep);
        if moves != [] {
          ConsistentSameMen(g0, board.grid);
          return true;
        }
        MovementAfterMarks(before, p);
      }
      assert pieces[|pieces|..] == [];
      ConsistentSameMen(g0, board.grid);
      return false;
    }

    /** `getReachableSquares`: the moves of the selected piece as points
      (column, row); none without a selection. */
    method GetReachableSquares() returns (points: seq<(int, int)>)
      requires Valid()
      modifies board, board.cells
      ensures Valid() && board.cells == old(board.cells)
      ensures var sel := old(selected);
              var x := if sel.None? then None else Get(old(board.grid), sel.value.0, sel.value.1);
              && points == (if x.None? then [] else Transposed(Moves(old(board.grid), x.value, enPassantTarget)))
              && board.grid == (if x.None? then old(board.grid) else MovementAfter(old(board.grid), x.value))
    {
      points := [];
      if selected.None? {
        return;
      }
      var x := board.GetPiece(selected.value.0, selected.value.1);
      if x.None? {
        return;
      }
      ghost var g := board.grid;
      var moves := PieceMovement(board, x.value, enPassantTarget);
      ConsistentSameMen(g, board.grid) by { SameMenMarkedOrNot(g, x.value); }
      points := ToPoints(moves);
    }

    /** `getPieceCode(row, col)`: none on an empty square. */
    function GetPieceCode(row: int, col: int): (code: Option<char>)
      reads this, board, board.cells
      requires Valid()
      ensures code.None? <==> Get(board.grid, row, col).None?
      ensures code.Some? ==> DecodePiece(code.value) == Some((Get(board.grid, row, col).value.kind,
                                                              Get(board.grid, row, col).value.color))
    {
      var x := board.GetPiece(row, col);
      if x.None? then None
      else
        PieceCodeRoundTrip(x.value.kind, x.value.color);
        Some(PieceCode(x.value.kind, x.value.color))
    }

    /** `promote(code)`: the piece on the promotion square is replaced by a
      new piece of the named kind and of its colour. */
    method Promote(code: char)
      requires Valid() && Get(board.grid, promoRow, promoCol).Some?
      modifies this, board, board.cells
      ensures Valid() && board.cells == old(board.cells)
      ensures State() == old(State()).(grid := Set(old(board.grid), promoRow, promoCol,
                                                  Some(NewPiece(PromotionKind(code), old(Get(board.grid, promoRow, promoCol).value.color),
                                                                promoRow, promoCol))),
                                       promotionPending := false)
    {
      var color := board.GetPiece(promoRow, promoCol).value.color;
      var kind := PromotionKind(code);
      board.SetPiece(promoRow, promoCol, Some(NewPiece(kind, color, promoRow, promoCol)));
      promotionPending := false;
    }
  }

  /* ------------------------------- lemmas -------------------------------- */

  /** `moveTo` away from the castling branch. */
  lemma MoveToOrdinary(s: GameState, p: Piece, t: Square)
    requires !s.ended && s.selected.Some? && Get(s.grid, s.selected.value.0, s.selected.value.1) == Some(p)
    requires !IsCastleAttempt(s.grid, p, t)
    ensures MoveToSpec(s, t) == if CanMoveAnswer(s.grid, p, s.ep, t)
                                then Step(true, EndOfGame(AfterPlay(s.(grid := CanMoveAfter(s.grid, p)), p, t)))
                                else Step(false, s.(grid := CanMoveAfter(s.grid, p)))
  {
  }

  /** `moveTo` away from the castling branch accepts a move exactly when
      the target is one of the destinations `pieceMovement` lists for the
      selected piece; the queen, whose `canMove` has its own walk, exactly
      when the target is on the board, on a line through it, past empty
      squares, and empty or of the other colour. */
  lemma MoveToAcceptsListedMoves(s: GameState, p: Piece, t: Square)
    requires !s.ended && s.selected.Some? && Get(s.grid, s.selected.value.0, s.selected.value.1) == Some(p)
    requires Get(s.grid, p.row, p.col) == Some(p)
    requires !IsCastleAttempt(s.grid, p, t)
    ensures p.kind != Queen ==> (MoveToSpec(s, t).ok <==> t in Moves(s.grid, p, s.ep))
    ensures p.kind == Queen ==>
              (MoveToSpec(s, t).ok <==>
                 IsValidPosition(t.0, t.1) && Lines.Aligned((p.row, p.col), t)
                 && Lines.ClearBetween(s.grid, (p.row, p.col), t) && Lines.FreeOrEnemy(s.grid, t, p.color))
  {
    MoveToOrdinary(s, p, t);
    if p.kind == Queen {
      QueenCanMoveExactly(s.grid, p, p.row, p.col, t.0, t.1);
    } else {
      CanMoveMatchesMoves(s.grid, p, s.ep, t);
    }
  }

  /** What `canMove` accepts is a square of the board other than the
      piece's own, and a pawn's two-row move is its double push from the
      start row, whose en-passant target is the square it passed over. */
  lemma CanMoveTargets(g: Grid, p: Piece, ep: Option<Square>, t: Square)
    requires Get(g, p.row, p.col) == Some(p) && EpOnBoard(ep) && CanMoveAnswer(g, p, ep, t)
    ensures IsValidPosition(t.0, t.1) && t != (p.row, p.col)
    ensures NextEnPassant(p, p.row, t.0, t.1).Some? ==>
              t == (p.row + 2 * PawnDir(p.color), p.col)
              && NextEnPassant(p, p.row, t.0, t.1) == Some((p.row + PawnDir(p.color), p.col))
              && IsValidPosition(p.row + PawnDir(p.color), p.col)
  {
    match p.kind
    case Rook => RookCanMoveExactly(g, p, p.row, p.col, t.0, t.1);
    case Queen => QueenCanMoveExactly(g, p, p.row, p.col, t.0, t.1);
    case _ =>
      MovesTargets(g, p, ep, t);
      if p.kind == Pawn {
        PawnMovesExactly(g, p, ep);
        CandidatesGoForward(g, p, ep, t);
      }
  }

  /** The grid `canMove` leaves differs from the original only by the flag
      of the piece asked. */
  lemma SameMenMarkedOrNot(g: Grid, p: Piece)
    ensures SameMen(CanMoveAfter(g, p), g) && SameMen(MovementAfter(g, p), g)
  {
    MovementAfterMarks(g, p);
    SameMenMarked(g, p.row, p.col);
  }

  /** Some piece of the list is of the colour and lists a move. */
  ghost predicate ListedMovable(g: Grid, ps: seq<Piece>, color: Color, ep: Option<Square>)
  {
    exists i | 0 <= i < |ps| :: ps[i].color == color && Moves(g, ps[i], ep) != []
  }

  lemma ListedMovableSplit(g: Grid, ps: seq<Piece>, color: Color, ep: Option<Square>)
    requires ps != []
    ensures ListedMovable(g, ps, color, ep) <==>
            (ps[0].color == color && Moves(g, ps[0], ep) != []) || ListedMovable(g, ps[1..], color, ep)
  {
    if ListedMovable(g, ps[1..], color, ep) {
      var i :| 0 <= i < |ps[1..]| && ps[1..][i].color == color && Moves(g, ps[1..][i], ep) != [];
      assert ps[i + 1] == ps[1..][i];
    }
    if ListedMovable(g, ps, color, ep) {
      var i :| 0 <= i < |ps| && ps[i].color == color && Moves(g, ps[i], ep) != [];
      if i > 0 {
        assert ps[1..][i - 1] == ps[i];
      }
    }
  }

  /** The scan stops early exactly when some listed piece of the colour has
      a move on the grid the scan started from: the flags the earlier
      pieces' `pieceMovement` raise change nothing. */
  lemma {:induction false} AnyScanFound(g: Grid, h: Grid, ps: seq<Piece>, color: Color, ep: Option<Square>)
    requires SameMen(h, g)
    ensures AnyScan(h, ps, color, ep).found <==> ListedMovable(g, ps, color, ep)
    decreases |ps|
  {
    if ps != [] {
      var p := ps[0];
      MovesSameMen(h, g, p, ep);
      SameMenMarkedOrNot(h, p);
      SameMenTrans(MovementAfter(h, p), h, g);
      AnyScanFound(g, h, ps[1..], color, ep);
      AnyScanFound(g, MovementAfter(h, p), ps[1..], color, ep);
      ListedMovableSplit(g, ps, color, ep);
    }
  }

  /** `anyLegalMoves`' scan over `getAllPieces` stops early exactly when
      some piece of the colour on the board has a move. */
  lemma AnyScanFindsMove(g: Grid, color: Color, ep: Option<Square>)
    ensures AnyScan(g, AllPieces(g), color, ep).found <==> HasLegalMove(g, color, ep)
  {
    AnyScanFound(g, g, AllPieces(g), color, ep);
    ListedMoveIsOnBoard(g, color, ep);
    BoardMoveIsListed(g, color, ep);
  }

  lemma ListedMoveIsOnBoard(g: Grid, color: Color, ep: Option<Square>)
    ensures ListedMovable(g, AllPieces(g), color, ep) ==> HasLegalMove(g, color, ep)
  {
    var ps := AllPieces(g);
    if ListedMovable(g, ps, color, ep) {
      var i :| 0 <= i < |ps| && ps[i].color == color && Moves(g, ps[i], ep) != [];
      AllPiecesMembers(g);
      assert ps[i] in ps;
      var r, c :| IsValidPosition(r, c) && Get(g, r, c) == Some(ps[i]);
      assert MovableFrom(g, r, c, color, ep);
    }
  }

  lemma BoardMoveIsListed(g: Grid, color: Color, ep: Option<Square>)
    ensures HasLegalMove(g, color, ep) ==> ListedMovable(g, AllPieces(g), color, ep)
  {
    var ps := AllPieces(g);
    if HasLegalMove(g, color, ep) {
      var r, c :| IsValidPosition(r, c) && MovableFrom(g, r, c, color, ep);
      var p := Get(g, r, c).value;
      AllPiecesMembers(g);
      assert p in ps;
      var i :| 0 <= i < |ps| && ps[i] == p;
    }
  }

  /** `anyLegalMoves` changes no more than moved flags. */
  lemma {:induction false} AnyScanKeepsMen(g: Grid, ps: seq<Piece>, color: Color, ep: Option<Square>)
    ensures SameMen(AnyScan(g, ps, color, ep).after, g)
    decreases |ps|
  {
    if ps != [] {
      var p := ps[0];
      SameMenMarkedOrNot(g, p);
      AnyScanKeepsMen(g, ps[1..], color, ep);
      AnyScanKeepsMen(MovementAfter(g, p), ps[1..], color, ep);
      SameMenTrans(AnyScan(MovementAfter(g, p), ps[1..], color, ep).after, MovementAfter(g, p), g);
    }
  }

  /** `checkEndOfGame` touches only the board, `gameEnded` and `winner`; the
      board keeps every piece where it was.  Mate ends the game won by the
      side that moved; otherwise the game ends drawn exactly when the side
      to answer has no piece with a move on the board `isCheckmate` left,
      which is the board itself when that side is not in check. */
  lemma EndOfGameDecides(s: GameState)
    ensures var e := EndOfGame(s);
            && e == s.(grid := e.grid, ended := e.ended, winner := e.winner)
            && SameMen(e.grid, s.grid)
    ensures var e, g1 := EndOfGame(s), CheckmateAfter(s.grid, s.turn, s.ep);
            && (e.ended <==> s.ended || Checkmated(s.grid, s.turn, s.ep) || !HasLegalMove(g1, s.turn, s.ep))
            && e.winner == (if Checkmated(s.grid, s.turn, s.ep) then Won(Opponent(s.turn))
                            else if !HasLegalMove(g1, s.turn, s.ep) then Drawn else s.winner)
    ensures !InCheck(s.grid, s.turn) ==> CheckmateAfter(s.grid, s.turn, s.ep) == s.grid
  {
    var g1 := CheckmateAfter(s.grid, s.turn, s.ep);
    CheckmateKeepsMen(s.grid, s.turn, s.ep);
    AnyScanFindsMove(g1, s.turn, s.ep);
    AnyScanKeepsMen(g1, AllPieces(g1), s.turn, s.ep);
    SameMenTrans(AnyScan(g1, AllPieces(g1), s.turn, s.ep).after, g1, s.grid);
  }

  /** A move is accepted only in a game still going on, from a selection,
      and passes the turn and clears the selection. */
  lemma AcceptedMovePassesTurn(s: GameState, t: Square)
    ensures MoveToSpec(s, t).ok ==>
              && !s.ended && s.selected.Some?
              && MoveToSpec(s, t).after.turn == Opponent(s.turn)
              && MoveToSpec(s, t).after.selected == None
  {
    if MoveToSpec(s, t).ok && !IsCastleAttemptOf(s, t) {
      var p := Get(s.grid, s.selected.value.0, s.selected.value.1).value;
      EndOfGameDecides(AfterPlay(s.(grid := CanMoveAfter(s.grid, p)), p, t));
    }
  }

  /** The selection is a king and the target a rook of its colour. */
  ghost predicate IsCastleAttemptOf(s: GameState, t: Square)
  {
    s.selected.Some? && Get(s.grid, s.selected.value.0, s.selected.value.1).Some?
    && IsCastleAttempt(s.grid, Get(s.grid, s.selected.value.0, s.selected.value.1).value, t)
  }

  /** Both squares a castling king is made to step to are on the board. */
  ghost predicate KingStepsOnBoard(s: GameState, t: Square)
  {
    IsCastleAttemptOf(s, t) ==>
      var kc := s.selected.value.1;
      0 <= kc + 2 * CastleDir(kc, t.1) < 8
  }

  /** A refused move changes nothing but the board, and on the board
      nothing but moved flags; a refused castling leaves even those. */
  lemma RefusedMoveKeepsMen(s: GameState, t: Square)
    requires Consistent(s.grid) && KingStepsOnBoard(s, t)
    ensures var st := MoveToSpec(s, t);
            !st.ok ==> st.after == s.(grid := st.after.grid) && SameMen(st.after.grid, s.grid)
    ensures IsCastleAttemptOf(s, t) && !MoveToSpec(s, t).ok ==> MoveToSpec(s, t).after == s
  {
    if s.selected.Some? && Get(s.grid, s.selected.value.0, s.selected.value.1).Some? {
      var p := Get(s.grid, s.selected.value.0, s.selected.value.1).value;
      assert (p.row, p.col) == s.selected.value;
      if IsCastleAttempt(s.grid, p, t) {
        var rk := Get(s.grid, t.0, t.1).value;
        if !CastleAllowed(s.grid, p, rk) {
          CastleRefusedKeepsBoard(s.grid, p, rk);
        }
      } else {
        SameMenMarkedOrNot(s.grid, p);
      }
    }
  }

  /** An accepted ordinary move: the origin is left empty, the piece stands
      on the target reporting it (unless an en-passant capture took the
      mover's own square), the pawn taken en passant is gone, and every
      other square holds what it held, up to moved flags. */
  lemma OrdinaryMoveLands(s: GameState, t: Square)
    requires Consistent(s.grid) && EpOnBoard(s.ep)
    requires MoveToSpec(s, t).ok && !IsCastleAttemptOf(s, t)
    ensures var p := Get(s.grid, s.selected.value.0, s.selected.value.1).value;
            var h := MoveToSpec(s, t).after.grid;
            var taken := if EnPassantCapture(s.grid, p, s.ep, t) then Some((t.0 + CaptureDir(s.turn), t.1)) else None;
            && Get(h, p.row, p.col) == None
            && (taken != Some((p.row, p.col)) ==> Strip(Get(h, t.0, t.1)) == Some(Man(p).(row := t.0, col := t.1)))
            && (taken.Some? ==> Get(h, taken.value.0, taken.value.1) == None)
            && forall r, c | (r, c) != (p.row, p.col) && (r, c) != t && Some((r, c)) != taken ::
                 Strip(Get(h, r, c)) == Strip(Get(s.grid, r, c))
  {
    var p := Get(s.grid, s.selected.value.0, s.selected.value.1).value;
    assert (p.row, p.col) == s.selected.value;
    MoveToOrdinary(s, p, t);
    CanMoveTargets(s.grid, p, s.ep, t);
    SameMenMarkedOrNot(s.grid, p);
    PlayedLands(s, p, CanMoveAfter(s.grid, p), t);
  }

  /** The same, for any board `canMove` may have left behind that keeps
      every piece where it stood. */
  lemma PlayedLands(s: GameState, p: Piece, g1: Grid, t: Square)
    requires IsValidPosition(p.row, p.col) && IsValidPosition(t.0, t.1) && t != (p.row, p.col)
    requires Get(s.grid, p.row, p.col) == Some(p) && SameMen(g1, s.grid)
    ensures var h := EndOfGame(AfterPlay(s.(grid := g1), p, t)).grid;
            var taken := if EnPassantCapture(s.grid, p, s.ep, t) then Some((t.0 + CaptureDir(s.turn), t.1)) else None;
            && Get(h, p.row, p.col) == None
            && (taken != Some((p.row, p.col)) ==> Strip(Get(h, t.0, t.1)) == Some(Man(p).(row := t.0, col := t.1)))
            && (taken.Some? ==> Get(h, taken.value.0, taken.value.1) == None)
            && forall r, c | (r, c) != (p.row, p.col) && (r, c) != t && Some((r, c)) != taken ::
                 Strip(Get(h, r, c)) == Strip(Get(s.grid, r, c))
  {
    var a := AfterPlay(s.(grid := g1), p, t);
    EndOfGameDecides(a);
    LandsUpToFlags(s.grid, g1, a.grid, EndOfGame(a).grid, p, s.turn, s.ep, t);
  }

  /** What `PlayLands` says of the board after the move carries over to
      boards equal to it and to the board before it up to moved flags. */
  lemma LandsUpToFlags(g: Grid, g1: Grid, a: Grid, h: Grid, p: Piece, turn: Color, ep: Option<Square>, t: Square)
    requires IsValidPosition(p.row, p.col) && IsValidPosition(t.0, t.1) && t != (p.row, p.col)
    requires Get(g, p.row, p.col) == Some(p) && SameMen(g1, g) && SameMen(h, a)
    requires a == AfterMove(EpRemoved(g1, p, turn, ep, t), p.row, p.col, t.0, t.1)
    ensures var taken := if EnPassantCapture(g, p, ep, t) then Some((t.0 + CaptureDir(turn), t.1)) else None;
            && Get(h, p.row, p.col) == None
            && (taken != Some((p.row, p.col)) ==> Strip(Get(h, t.0, t.1)) == Some(Man(p).(row := t.0, col := t.1)))
            && (taken.Some? ==> Get(h, taken.value.0, taken.value.1) == None)
            && forall r, c | (r, c) != (p.row, p.col) && (r, c) != t && Some((r, c)) != taken ::
                 Strip(Get(h, r, c)) == Strip(Get(g, r, c))
  {
    assert Strip(Get(g1, p.row, p.col)) == Strip(Get(g, p.row, p.col));
    assert Strip(Get(g1, t.0, t.1)) == Strip(Get(g, t.0, t.1));
    assert EnPassantCapture(g1, p, ep, t) == EnPassantCapture(g, p, ep, t);
    PlayLands(g1, p, turn, ep, t);
    assert Get(h, p.row, p.col) == None by {
      assert Strip(Get(h, p.row, p.col)) == Strip(Get(a, p.row, p.col));
    }
    if EnPassantCapture(g, p, ep, t) {
      var r0, c0 := t.0 + CaptureDir(turn), t.1;
      assert Strip(Get(h, r0, c0)) == Strip(Get(a, r0, c0));
    }
  }

  /** The grid step of an accepted ordinary move, from the board `canMove`
      left behind. */
  lemma PlayLands(g1: Grid, p: Piece, turn: Color, ep: Option<Square>, t: Square)
    requires IsValidPosition(p.row, p.col) && IsValidPosition(t.0, t.1) && t != (p.row, p.col)
    requires Strip(Get(g1, p.row, p.col)) == Some(Man(p))
    ensures var h := AfterMove(EpRemoved(g1, p, turn, ep, t), p.row, p.col, t.0, t.1);
            var taken := if EnPassantCapture(g1, p, ep, t) then Some((t.0 + CaptureDir(turn), t.1)) else None;
            && Get(h, p.row, p.col) == None
            && (taken != Some((p.row, p.col)) ==> Strip(Get(h, t.0, t.1)) == Some(Man(p).(row := t.0, col := t.1)))
            && (taken.Some? ==> Get(h, taken.value.0, taken.value.1) == None)
            && forall r, c | (r, c) != (p.row, p.col) && (r, c) != t && Some((r, c)) != taken ::
                 Get(h, r, c) == Get(g1, r, c)
  {
    var g2 := EpRemoved(g1, p, turn, ep, t);
    AfterMoveEffect(g2, p.row, p.col, t.0, t.1);
  }

  /** After an accepted ordinary move the en-passant target is the square a
      pawn's double push passed over, and nothing after any other move; a
      pawn reaching its last row leaves its square as the pending
      promotion. */
  lemma OrdinaryMoveRecords(s: GameState, t: Square)
    requires Consistent(s.grid) && EpOnBoard(s.ep)
    requires MoveToSpec(s, t).ok && !IsCastleAttemptOf(s, t)
    ensures var p := Get(s.grid, s.selected.value.0, s.selected.value.1).value;
            var after := MoveToSpec(s, t).after;
            && (after.ep.Some? <==> p.kind == Pawn && t == (p.row + 2 * PawnDir(p.color), p.col))
            && (after.ep.Some? ==> after.ep.value == (p.row + PawnDir(p.color), p.col))
            && (p.kind == Pawn && t.0 == LastRow(p.color) ==> after.promotionPending && (after.promoRow, after.promoCol) == t)
            && (!(p.kind == Pawn && t.0 == LastRow(p.color)) ==>
                  (after.promotionPending, after.promoRow, after.promoCol) == (s.promotionPending, s.promoRow, s.promoCol))
  {
    var p := Get(s.grid, s.selected.value.0, s.selected.value.1).value;
    assert (p.row, p.col) == s.selected.value;
    MoveToOrdinary(s, p, t);
    CanMoveTargets(s.grid, p, s.ep, t);
    PlayRecords(s.(grid := CanMoveAfter(s.grid, p)), p, t);
  }

  /** The en-passant and promotion bookkeeping of a played move, which
      `checkEndOfGame` leaves alone. */
  lemma PlayRecords(s: GameState, p: Piece, t: Square)
    requires NextEnPassant(p, p.row, t.0, t.1).Some? ==> t == (p.row + 2 * PawnDir(p.color), p.col)
    ensures var after := EndOfGame(AfterPlay(s, p, t));
            && (after.ep.Some? <==> p.kind == Pawn && t == (p.row + 2 * PawnDir(p.color), p.col))
            && (after.ep.Some? ==> after.ep.value == (p.row + PawnDir(p.color), p.col))
            && (p.kind == Pawn && t.0 == LastRow(p.color) ==> after.promotionPending && (after.promoRow, after.promoCol) == t)
            && (!(p.kind == Pawn && t.0 == LastRow(p.color)) ==>
                  (after.promotionPending, after.promoRow, after.promoCol) == (s.promotionPending, s.promoRow, s.promoCol))
  {
    EndOfGameKeepsRecords(AfterPlay(s, p, t));
  }

  lemma EndOfGameKeepsRecords(s: GameState)
    ensures var e := EndOfGame(s);
            (e.ep, e.promotionPending, e.promoRow, e.promoCol) == (s.ep, s.promotionPending, s.promoRow, s.promoCol)
  {
  }

  /** The king's knight of the opening position stands on (7, 6); from
      there (5, 5) is among its moves and (4, 6) is not. */
  lemma OpeningKnightMoves()
    ensures var p := NewPiece(Knight, White, 7, 6);
            && Get(InitialGrid(), 7, 6) == Some(p)
            && (5, 5) in KnightMoves(InitialGrid(), p) && (4, 6) !in KnightMoves(InitialGrid(), p)
  {
    InitialGridCells();
    KnightFromHome(InitialGrid());
  }

  /** The same on any grid laid out as the opening position. */
  lemma KnightFromHome(g: Grid)
    requires forall r, c :: Get(g, r, c) == InitialCell(r, c)
    ensures var p := NewPiece(Knight, White, 7, 6);
            && Get(g, 7, 6) == Some(p)
            && (5, 5) in KnightMoves(g, p) && (4, 6) !in KnightMoves(g, p)
  {
    var p := NewPiece(Knight, White, 7, 6);
    KnightMovesExactly(g, p);
    KnightOutSafe(g);
  }

  /** Out of the opening position the knight's jump leaves the white back
      rank guarded, so White is not in check after it. */
  lemma KnightOutSafe(g: Grid)
    requires forall r, c :: Get(g, r, c) == InitialCell(r, c)
    ensures LeavesKingSafe(g, NewPiece(Knight, White, 7, 6), (5, 5))
  {
    var g' := AfterMove(g, 7, 6, 5, 5);
    AfterMoveEffect(g, 7, 6, 5, 5);
    assert HomeGuarded(g', White);
    HomeGuardedSafe(g', White);
  }

  /** The king's knight of the opening position, g1 to f3 in the board's
      coordinates (7, 6) to (5, 5): the move is accepted, the knight stands
      on its new square, its old one is empty and Black is to move. */
  lemma OpeningKnightMove(s: GameState)
    requires s.grid == InitialGrid() && s.selected == Some((7, 6)) && !s.ended && EpOnBoard(s.ep)
    ensures var st := MoveToSpec(s, (5, 5));
            && st.ok && st.after.turn == Opponent(s.turn)
            && Strip(Get(st.after.grid, 5, 5)) == Some(NewPiece(Knight, White, 5, 5))
            && Get(st.after.grid, 7, 6) == None
  {
    var p := NewPiece(Knight, White, 7, 6);
    OpeningKnightMoves();
    InitialGridConsistent();
    MoveToOrdinary(s, p, (5, 5));
    assert MoveToSpec(s, (5, 5)).ok;
    AcceptedMovePassesTurn(s, (5, 5));
    OrdinaryMoveLands(s, (5, 5));
  }

  /** The same knight asked to go straight ahead to (4, 6) is refused, and
      the refusal leaves the game as it was. */
  lemma OpeningKnightRefused(s: GameState)
    requires s.grid == InitialGrid() && s.selected == Some((7, 6)) && !s.ended
    ensures MoveToSpec(s, (4, 6)) == Step(false, s)
  {
    var p := NewPiece(Knight, White, 7, 6);
    OpeningKnightMoves();
    MoveToOrdinary(s, p, (4, 6));
  }
}
