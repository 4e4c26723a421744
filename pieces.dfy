/** The piece record of Piece.java: a kind, a colour that never changes, the
    square the piece believes it stands on and the flag that says whether it
    has moved.  The six Java subclasses become the closed `Kind` datatype. */
module Pieces {

  /** 'W' and 'B' in the Java code. */
  datatype Color = White | Black

  datatype Kind = Pawn | Knight | Bishop | Rook | Queen | King

  datatype Piece = Piece(kind: Kind, color: Color, row: int, col: int, hasMoved: bool)

  /** The other side: `color == 'W' ? 'B' : 'W'`. */
  function Opponent(c: Color): (o: Color)
    ensures o != c
  {
    if c == White then Black else White
  }

  lemma OpponentInvolutive(c: Color)
    ensures Opponent(Opponent(c)) == c
  {
  }

  /** `new Pawn(color,row,col)` and its siblings: the flag starts false. */
  function NewPiece(kind: Kind, color: Color, row: int, col: int): (p: Piece)
    ensures p.kind == kind && p.color == color
    ensures p.row == row && p.col == col && !p.hasMoved
  {
    Piece(kind, color, row, col, false)
  }

  /** `setPosition`: only the row and the column change. */
  function SetPosition(p: Piece, row: int, col: int): (q: Piece)
    ensures q.row == row && q.col == col
    ensures q.(row := p.row, col := p.col) == p
  {
    p.(row := row, col := col)
  }

  /** `setHasMoved`: only the flag changes. */
  function SetHasMoved(p: Piece, moved: bool): (q: Piece)
    ensures q.hasMoved == moved
    ensures q.(hasMoved := p.hasMoved) == p
  {
    p.(hasMoved := moved)
  }

  /** What a piece is apart from its moved flag; two records with equal
      `Man` differ at most in `hasMoved`. */
  function Man(p: Piece): Piece
  {
    p.(hasMoved := false)
  }
}
