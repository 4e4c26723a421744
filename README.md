# Chess rules engine (package `model`)

A Dafny model of the rules engine behind a small Swing chess program. It covers:

- the 8×8 `Board` with its raw `makeMove`/`undoMove`, its square-attack oracle, `isInCheck` and `isCheckmate`;
- the six piece classes with their `pieceMovement` and `canMove`;
- the `ChessGame` façade: selection, turn, castling, en passant, promotion and the end of the game.

How the Java maps onto Dafny:

- A piece is a record `Piece(kind, color, row, col, hasMoved)`. A cell of the board holds `Option<Piece>`.
- The board is a `class Board` over an `array2<Option<Piece>>`. Its ghost `grid` is the board as a value, and `Valid()` ties the two together.
- Every operation that changes the board (`setPiece`, `makeMove`, `undoMove`, the simulate-test-undo loops of `Knight`, `Pawn`, `Bishop`, `Queen`, `isCheckmate` and `tryCastle`) is a method. Each method is proved against a function on grids: it returns what that function returns, and leaves the grid that the function describes.
- King and Rook only read the board, so they are functions.
- `ChessGame` is a class with the Java fields. Its `moveTo` is proved against the state function `MoveToSpec`.

A Java piece object is identified with the record on the square it reports. The selected piece is kept as the square it stood on when it was selected. The en-passant target that `Pawn` reads from the `ChessGame` singleton is passed as a parameter.

Flags drift in the Java code, and the model keeps that drift exactly:

- `undoMove` does not put the moved flag back.
- Knight and Pawn restore the flag by hand; Bishop and Queen do not.
- Many board-shape facts are therefore stated "up to moved flags" (`SameMen`). It is proved that no rule reads the flags, except castling.

Behaviour the model keeps from the code, with a lemma showing it:

- `tryCastle` with a rook in the king's own column (a promoted rook is created unmoved): the 32-bit loop `c != rc` wraps around the whole `int` range. The king then castles alone and the rook stays put (`Castling.CastleWithRookInKingsColumn`).
- `tryCastle` moves the rook from the king's row, so a rook on another row is not moved.
- A castling probe that goes off the board takes the king off the board, because `makeMove` to an invalid square drops the mover.
- The rook has no self-check filter. A rook pinned to its king may step off the pin line (`Movement.PinnedRookMayStepAside`).
- The king's attack test lets rays pass through the king's own square. A slider aimed at the king therefore also covers the square behind it (`KingRules.RayThroughOwnSquare`).
- Castling returns without `checkEndOfGame`.

## Model

| member | source | states |
|---|---|---|
| Pieces.Opponent | Chess/src/model/Board.java:141 | the enemy colour differs from the colour |
| Pieces.OpponentInvolutive | Chess/src/model/ChessGame.java:153-156 | passing the turn twice gives it back to the same side |
| Pieces.NewPiece | Chess/src/model/Piece.java:11-15 | a new piece records kind, colour and square, and has not moved |
| Pieces.SetPosition | Chess/src/model/Piece.java:29-32 | only row and column change |
| Pieces.SetHasMoved | Chess/src/model/Piece.java:34-36 | only the moved flag changes |
| BoardValue.EmptyGrid | Chess/src/model/Board.java:31-37 | every square is empty |
| BoardValue.Set | Chess/src/model/Board.java:94-96 | only the named square changes, and nothing changes when it is off the board |
| BoardValue.OffBoardIsHarmless | Chess/src/model/Board.java:81-96 | off the board a square reads empty, holds no enemy, and cannot be written |
| BoardValue.AfterMoveEffect | Chess/src/model/Board.java:100-110 | after `makeMove` the origin is empty and the target holds the mover, reporting the target and marked moved; an empty origin empties the target; every other square is unchanged |
| BoardValue.UndoAfterMove | Chess/src/model/Board.java:112-122 | `undoMove` with the former occupant of the target restores both squares and the mover's square, but leaves the mover's flag raised |
| BoardValue.FlagRestored | Chess/src/model/Knight.java:40-43 | putting the saved flag back after the simulation restores the board exactly |
| BoardValue.AfterMoveMarked | Chess/src/model/Board.java:100-110 | `makeMove` does not depend on the mover's old flag |
| BoardValue.MarkMovedTwice | Chess/src/model/Board.java:108 | raising a flag that is already up changes nothing |
| BoardValue.SameMenAfterMove | Chess/src/model/Board.java:100-110 | boards that are equal up to flags stay so after the same `makeMove` |
| BoardValue.SameMenMarked | Chess/src/model/Board.java:108 | raising a flag keeps every piece where it was |
| BoardValue.MoveKeepsConsistent | Chess/src/model/Board.java:100-110 | after `makeMove` every piece still reports the square it stands on |
| BoardValue.PlacementBuildsOpening | Chess/src/model/Board.java:40-68 | the pawn loop and the two back-rank placements, run in that order on an empty board, build exactly the opening position |
| BoardValue.InitialGridLayout | Chess/src/model/Board.java:40-68 | white pawns on row 6 and black on row 1; back ranks R N B Q K B N R on rows 7 and 0; rows 2 to 5 empty; nobody has moved |
| BoardValue.InitialGridConsistent | Chess/src/model/Board.java:40-68 | every piece of the opening set-up reports its own square |
| BoardValue.PlacePawnsEffect | Chess/src/model/Board.java:44-47 | the pawn loop fills rows 6 and 1 from the given column on |
| BoardValue.PlaceRankEffect | Chess/src/model/Board.java:49-67 | the back-rank placement fills a row with the back-rank pieces |
| BoardValue.SameMenTrans | Chess/src/model/Board.java:112-122 | equality up to flags is transitive |
| BoardValue.ConsistentSameMen | Chess/src/model/Board.java:112-122 | a flag change cannot break piece/square consistency |
| Chessboard.Board.constructor | Chess/src/model/Board.java:15-18 | a new board holds the opening position |
| Chessboard.Board.InitializeEmptyBoard | Chess/src/model/Board.java:31-37 | every square is emptied |
| Chessboard.Board.GetPiece | Chess/src/model/Board.java:90-92 | the occupant of the square, or nothing off the board |
| Chessboard.Board.IsEmpty | Chess/src/model/Board.java:81-83 | the square has no occupant |
| Chessboard.Board.HasEnemyPiece | Chess/src/model/Board.java:85-88 | the square holds a piece of another colour |
| Chessboard.Board.SetPiece | Chess/src/model/Board.java:94-96 | the grid is the old grid with that square written, off-board writes ignored |
| Chessboard.Board.PlacePiece | Chess/src/model/Board.java:71-73 | the piece is written on the square it reports |
| Chessboard.Board.SetupInitialPosition | Chess/src/model/Board.java:40-68 | the grid becomes the opening position |
| Chessboard.Board.MakeMove | Chess/src/model/Board.java:100-110 | the grid becomes the `makeMove` grid of the old one |
| Chessboard.Board.UndoMove | Chess/src/model/Board.java:112-122 | the grid becomes the `undoMove` grid of the old one |
| Chessboard.Board.RayHits | Chess/src/model/Board.java:178-205 | true exactly when the first piece on some ray is an enemy slider of the right kind |
| Chessboard.Board.SquareAttacked | Chess/src/model/Board.java:149-175 | true exactly when an enemy knight, pawn or slider attacks the square; kings never count |
| Chessboard.Board.IsInCheck | Chess/src/model/Board.java:127-146 | true exactly when some king of the colour stands on an attacked square |
| Chessboard.Board.KingSquares | Chess/src/model/Board.java:130-138 | lists exactly the squares holding a king of the colour |
| Chessboard.Board.GetAllPieces | Chess/src/model/Board.java:233-239 | the pieces of the board in row-major order |
| Chessboard.AllPiecesMembers | Chess/src/model/Board.java:233-239 | a piece is listed iff it stands on some square |
| Chessboard.AllPiecesStand | Chess/src/model/Board.java:233-239 | the list is in row-major order, and each listed piece stands on the square it reports |
| Attacks.InCheckWithoutKing | Chess/src/model/Board.java:139 | a colour without a king is never in check |
| Attacks.OneSidedBoardIsSafe | Chess/src/model/Board.java:149-205 | on a board with no enemy piece, every move is safe |
| Attacks.RayHitNeedsSlider | Chess/src/model/Board.java:178-205 | a ray only ever hits an enemy slider of the ray's kind |
| Attacks.OnlyKingsAttackNothing | Chess/src/model/Board.java:149-175 | enemy kings attack no square |
| Attacks.AttackedSameMen | Chess/src/model/Board.java:149-205 | attacks do not depend on moved flags |
| Attacks.InCheckSameMen | Chess/src/model/Board.java:127-146 | check does not depend on moved flags |
| Attacks.RookGivesCheck | Chess/src/test/model/BoardCheckTest.java:31-40 | a black rook on (5,4) checks the white king on (7,4); without the rook there is no check |
| Attacks.AttackedIgnoresSquare | Chess/src/model/Board.java:149-205 | what stands on a square does not change whether that square is attacked |
| Attacks.LeavesKingSafeSameMen | Chess/src/model/Board.java:100-146 | the simulate-and-ask test does not depend on moved flags |
| Lines.WalkClearsBetween | Chess/src/model/Rook.java:61-72 | the step-by-step walk of `canMove` is clear exactly when every square strictly between is empty |
| Lines.RayHitFindsSlider | Chess/src/model/Board.java:178-205 | a ray hit names an enemy slider with a clear path to the square |
| KingRules.KingMovesExactly | Chess/src/model/King.java:21-49 | destinations are exactly the board squares one step away that are empty or an enemy non-king, and that the king's attack test finds safe |
| KingRules.KingCanMove | Chess/src/model/King.java:127-131 | `canMove` holds exactly for a destination of `pieceMovement`; the origin arguments are ignored |
| KingRules.KingAttackIsLiftedAttack | Chess/src/model/King.java:52-123 | the king's attack test is the board's test with the king lifted off its square, plus enemy-king adjacency |
| KingRules.KingNeverMovesIntoCheck | Chess/src/model/King.java:21-123 | a single king that makes one of its moves is not in check afterwards |
| KingRules.RayThroughOwnSquare | Chess/src/model/King.java:102-106 | a rook on the king's row covers the square behind the king, so the king may not step there, though the board's oracle does not call it attacked |
| KingRules.KingMovesSameMen | Chess/src/model/King.java:21-49 | the king's moves do not depend on moved flags |
| KingRules.KingSquareAttackedSameMen | Chess/src/model/King.java:52-123 | the king's attack test does not depend on moved flags |
| PawnRules.PawnMovesExactly | Chess/src/model/Pawn.java:17-50 | the result is exactly the candidates whose simulation leaves the own king out of check |
| PawnRules.PawnCandidatesMembers | Chess/src/model/Pawn.java:17-42 | the candidates are the free single push, the double push from the start row, the diagonal enemy non-king captures and the en-passant square |
| PawnRules.SinglePushRule | Chess/src/model/Pawn.java:24-26 | the single push is a candidate iff the next square is on the board and empty |
| PawnRules.DoublePushRule | Chess/src/model/Pawn.java:29-33 | the double push is a candidate iff the pawn stands on its start row and both squares ahead are empty |
| PawnRules.DiagonalRule | Chess/src/model/Pawn.java:36-42 | a diagonal square is a candidate iff it holds an enemy non-king or it is the en-passant target |
| PawnRules.CandidatesGoForward | Chess/src/model/Pawn.java:20-42 | every candidate is one row forward (or two, from the start row, in the same column) and at most one column aside |
| PawnRules.PawnCandidatesOnBoard | Chess/src/model/Pawn.java:17-42 | with the en-passant target on the board, every candidate is on the board and not the pawn's own square |
| PawnRules.PawnProbeRestores | Chess/src/model/Pawn.java:61-112 | `moveKeepsKingSafe` puts back the board, the pawn's square and flag, and the pawn taken en passant |
| PawnRules.AddCaptureIfEnemy | Chess/src/model/Pawn.java:53-58 | appends the square iff it is on the board and holds an enemy non-king |
| PawnRules.MoveKeepsKingSafe | Chess/src/model/Pawn.java:61-112 | answers whether the simulated move leaves the own king safe, and leaves the board as it found it |
| PawnRules.CollectCandidates | Chess/src/model/Pawn.java:17-42 | the candidate list of `pieceMovement` |
| PawnRules.KeepSafe | Chess/src/model/Pawn.java:44-49 | keeps exactly the safe candidates and restores the board |
| PawnRules.PawnPieceMovement | Chess/src/model/Pawn.java:17-50 | returns the pawn's moves and leaves the board unchanged |
| PawnRules.PawnCanMove | Chess/src/model/Pawn.java:116-120 | true iff the target is a safe candidate; the board is unchanged |
| PawnRules.PinnedPawnCannotPush | Chess/src/test/model/CheckTest.java:66-77 | a pawn pinned by a rook along its row may not push |
| PawnRules.PawnMovesSameMen | Chess/src/model/Pawn.java:17-50 | the pawn's moves do not depend on moved flags |
| PawnRules.PawnSafeSameMen | Chess/src/model/Pawn.java:61-112 | the pawn's safety test does not depend on moved flags |
| KnightRules.KnightMovesExactly | Chess/src/model/Knight.java:17-48 | destinations are exactly the L-shaped board squares that are empty or an enemy non-king and leave the own king safe |
| KnightRules.KnightCandidatesAreJumps | Chess/src/model/Knight.java:20-23 | the eight steps are exactly the L-shaped displacements |
| KnightRules.KnightPieceMovement | Chess/src/model/Knight.java:17-48 | returns the knight's moves and leaves the board, flag included, as it was |
| KnightRules.Probe | Chess/src/model/Knight.java:37-45 | answers whether the jump leaves the own king in check |
| KnightRules.ProbeRestores | Chess/src/model/Knight.java:40-43 | a probe to another board square restores the board exactly |
| KnightRules.KnightCanMoveAsWritten | Chess/src/model/Knight.java:52-72 | `canMove` as written: the answer and the grid left, including the off-board case |
| KnightRules.KnightVanishesOffBoard | Chess/src/model/Knight.java:52-72 | asked about an off-board L target, `canMove` answers true and the knight is gone from the board |
| KnightRules.KnightCanMove | Chess/src/model/Knight.java:52-72 | true iff the target is one of the knight's moves; the board is unchanged |
| KnightRules.CentralKnightHasEightMoves | Chess/src/test/model/KnightTest.java:37-52 | a knight on (3,3) beside only its own king has exactly its eight jumps |
| KnightRules.KnightMovesSameMen | Chess/src/model/Knight.java:17-48 | the knight's moves do not depend on moved flags |
| RookRules.RookCanMoveExactly | Chess/src/model/Rook.java:55-82 | true iff the target is on the board in the same row or column, every square between is empty, and the target is empty or of the other colour |
| RookRules.RookCannotStay | Chess/src/model/Rook.java:55-82 | the rook cannot move to its own square |
| RookRules.RookRayMembers | Chess/src/model/Rook.java:23-48 | a ray holds exactly the board squares ahead with a clear path, empty or of the other colour (kings included) |
| RookRules.RookMovesMatchCanMove | Chess/src/model/Rook.java:12-82 | `pieceMovement` and `canMove` agree on every target |
| RookRules.LoneRookHasFourteenMoves | Chess/src/test/model/RookTest.java:25-38 | a lone rook on (3,3) has 14 destinations |
| RookRules.RookMovesSameMen | Chess/src/model/Rook.java:12-52 | the rook's moves do not depend on moved flags |
| Sliding.SafetyProbeAsWrittenDropsPiece | Chess/src/model/Bishop.java:62-73 | as written, `testMoveSafety` leaves the board with the slider's square emptied |
| Sliding.TestMoveSafetyAsWritten | Chess/src/model/Queen.java:83-94 | as written: answers whether the move is safe, and leaves the board without the piece |
| Sliding.TestMoveSafety | Chess/src/model/Bishop.java:62-73 | corrected probe (Findings row Bishop.java:67-70): answers whether the move is safe and restores the board, only the slider's flag left raised |
| Sliding.SlidePieceMovement | Chess/src/model/Queen.java:13-52 | returns the safe ray squares and leaves the board with only the slider's flag raised, when a candidate was tried |
| Sliding.SlideRayMembers | Chess/src/model/Bishop.java:21-44 | a ray holds exactly the board squares ahead with a clear path where the slider may land |
| Sliding.SlideMovesExactly | Chess/src/model/Bishop.java:13-47 | the moves are exactly the reachable landing squares that leave the own king safe |
| Sliding.SlideMovesGeometry | Chess/src/model/Bishop.java:13-47 | the moves stated by geometry: aligned in one of the directions, nothing between, a landing square, and safe |
| Sliding.SafetyProbeOnEmptyOrigin | Chess/src/model/Bishop.java:62-73 | a probe from an emptied square changes nothing and only asks whether clearing the target leaves the side in check |
| Sliding.FindMove | Chess/src/model/Bishop.java:50-58 | true iff the target is in the list |
| Sliding.SlideMovesSameMen | Chess/src/model/Bishop.java:13-47 | the slider's moves do not depend on moved flags |
| BishopRules.BishopPieceMovement | Chess/src/model/Bishop.java:13-47 | returns the bishop's moves; only the bishop's flag may be raised |
| BishopRules.BishopCanMove | Chess/src/model/Bishop.java:50-58 | true iff the target is one of the bishop's moves |
| BishopRules.BishopMovesExactly | Chess/src/model/Bishop.java:13-47 | destinations are exactly the diagonal squares with nothing between, empty or an enemy non-king, that leave the own king safe |
| BishopRules.UnblockedBishopMovesDiagonally | Chess/src/test/model/BishopTest.java:34-54 | a free bishop on (4,4) reaches its four diagonal neighbours, and not the orthogonal neighbours (4,5) and (5,4) |
| BishopRules.DiagonalStepOnOneSidedBoard | Chess/src/model/Bishop.java:21-44 | with no enemy on the board, every empty diagonal neighbour is a move |
| BishopRules.BishopStopsAtOwnPiece | Chess/src/test/model/BishopTest.java:61-68 | an own pawn blocks its square and the squares behind it |
| BishopRules.BishopCannotCaptureKing | Chess/src/test/model/BishopTest.java:89-95 | an enemy king's square is not a move |
| QueenRules.QueenPieceMovement | Chess/src/model/Queen.java:13-52 | returns the queen's moves; only the queen's flag may be raised |
| QueenRules.QueenMovesExactly | Chess/src/model/Queen.java:13-52 | destinations are exactly the squares on a line through the queen with nothing between, empty or an enemy non-king, that leave the own king safe |
| QueenRules.QueenCanMoveAsWritten | Chess/src/model/Queen.java:55-79 | `canMove` as written on Java `int`s: the sign test that always passes, then the wrapping walk, with `None` for a walk that repeats itself for ever |
| QueenRules.QueenCanMoveAsWrittenAgrees | Chess/src/model/Queen.java:55-79 | with a piece on the origin, the code as written answers on every target, and answers as the aligned `canMove` does |
| QueenRules.QueenCanMoveWalksFullTurn | Chess/src/model/Queen.java:61-71 | a lone queen on (0,0) asked about (1,2) is answered false, but only after the walk has stood on 2^32 squares, the last of them the queen's own |
| QueenRules.WalkReturnsToOrigin | Chess/src/model/Queen.java:64-71 | a walk off every line through an occupied square of the board misses the target and answers false, after exactly 2^32 squares when nothing else is on the board |
| QueenRules.WalkFollowsPath | Chess/src/model/Queen.java:64-74 | along a line towards a target on the board the `int` walk does not overflow and answers as the clear-path walk does |
| QueenRules.WalkSquareMisses | Chess/src/model/Queen.java:64-70 | a diagonal walk from a square of the board never stands on a square of the board off that diagonal, however often it wraps |
| QueenRules.QueenCanMoveAgreesWhenAligned | Chess/src/model/Queen.java:55-79 | from any `int` origin, for aligned or off-board targets, the code as written answers, and agrees with the corrected `canMove` |
| QueenRules.QueenCanMoveExactly | Chess/src/model/Queen.java:55-79 | true iff the target is on the board and aligned, nothing is between, and the target is empty or of the other colour; no king exclusion and no safety test |
| QueenRules.QueenMovesAlongPin | Chess/src/test/model/QueenTest.java:97-107 | a queen pinned along a row may still move along the pin |
| QueenRules.QueenStopsAtOwnPiece | Chess/src/test/model/QueenTest.java:52-61 | an own pawn stops the queen: the square before it is reached, the pawn and the square behind are not |
| Movement.PieceMovement | Chess/src/model/Piece.java:38 | the dispatch of `pieceMovement`: the piece's moves, and the grid its probes leave |
| Movement.CanMove | Chess/src/model/Piece.java:40 | the dispatch of `canMove`: each piece's answer, and the grid it leaves |
| Movement.CanMoveMatchesMoves | Chess/src/model/Rook.java:55-82 | for every piece but the queen, `canMove` holds exactly for a destination of `pieceMovement` |
| Movement.MovesTargets | Chess/src/model/King.java:32 | every destination is on the board and differs from the origin |
| Movement.MovesLand | Chess/src/model/Rook.java:41-43 | no destination holds an own piece, and only the rook may land on an enemy king |
| Movement.FilteredMovesAreSafe | Chess/src/model/Knight.java:37-45 | knight, bishop and queen destinations never leave the own king in check |
| Movement.PinnedRookMayStepAside | Chess/src/model/Rook.java:12-52 | a rook pinned to its king lists a move that exposes the king |
| Movement.MovesSameMen | Chess/src/model/Piece.java:38 | no piece's moves depend on moved flags |
| Movement.MovementAfterMarks | Chess/src/model/Bishop.java:62-73 | `pieceMovement` and `canMove` either leave the board as it was or raise only the piece's own flag |
| Checkmate.TryEscape | Chess/src/model/Board.java:213-227 | one piece's turn of the mate loop: whether it has an escape, and the grid left |
| Checkmate.TryMoves | Chess/src/model/Board.java:216-226 | true iff some listed move leaves the side out of check; only the piece's flag is raised |
| Checkmate.Simulate | Chess/src/model/Board.java:217-223 | make, ask, undo: the answer, with only the mover's flag raised |
| Checkmate.IsCheckmate | Chess/src/model/Board.java:209-229 | true iff the side is in check and no move of any of its pieces gets it out; the board keeps every piece |
| Checkmate.TurnAfterOnlyTouches | Chess/src/model/Board.java:216-226 | one piece's turn changes only that piece's square, and only its flag |
| Checkmate.MateScanFindsEscape | Chess/src/model/Board.java:213-227 | the scan over the piece list finds an escape iff some square holds a piece of the colour with one |
| Checkmate.CheckmateKeepsMen | Chess/src/model/Board.java:209-229 | `isCheckmate` leaves every piece where it was |
| Checkmate.EscapesSameMen | Chess/src/model/Board.java:213-227 | whether a piece has an escape does not depend on moved flags |
| JavaInt.AddInt32 | Chess/src/model/ChessGame.java:194 | Java's `c += dir` on a 32-bit int: the result is a 32-bit value that differs from the sum by 0 or by 2^32 either way |
| JavaInt.AddWraps | Chess/src/model/Queen.java:69-70 | a step of -1, 0 or 1 on an `int` is the sum wrapped into the `int` range |
| JavaInt.WrapPeriodic | Chess/src/model/Queen.java:69-70 | 2^32 steps of one come back to the same `int` |
| Castling.GapIsClear | Chess/src/model/ChessGame.java:194-195 | the wrapping loop reports whether every column from the king to the rook is empty |
| Castling.Probe | Chess/src/model/ChessGame.java:199-202 | answers whether the king is in check on the step, and leaves the probe grid |
| Castling.KingPassage | Chess/src/model/ChessGame.java:198-208 | whether both king steps are safe; each probe raises the king's flag, and a step into check puts both flags down |
| Castling.PutFlagsDown | Chess/src/model/ChessGame.java:204-205 | both pieces' flags are lowered |
| Castling.CastleBoth | Chess/src/model/ChessGame.java:210-213 | the king moves two columns and the rook lands beside it, both marked moved |
| Castling.TryCastle | Chess/src/model/ChessGame.java:181-215 | the answer is the castling rule, and the grid is the one the rule leaves |
| Castling.CastleAllowedExactly | Chess/src/model/ChessGame.java:181-208 | castling is allowed iff neither piece has moved, the king is not in check, the gap is clear, and both king steps are safe |
| Castling.PassageMarks | Chess/src/model/ChessGame.java:198-208 | the two probes together only raise the king's flag |
| Castling.CastleRefusedKeepsBoard | Chess/src/model/ChessGame.java:182-207 | a refused castling leaves the board exactly as it was |
| Castling.CastleMovesBoth | Chess/src/model/ChessGame.java:210-213 | a castling accepted with a rook on the king's row puts the king on kc+2·dir and the rook on kc+dir, both marked moved; nothing else changes |
| Castling.HomeSquareSafe | Chess/src/model/Board.java:149-205 | with no enemy piece within two ranks of a side's back rank and the rank in front of it full, no back-rank square is attacked |
| Castling.HomeGuardedSafe | Chess/src/model/Board.java:127-146 | a side whose back rank is shielded in that way, with its kings on the back rank, is not in check |
| Castling.GuardedCastleAllowed | Chess/src/model/ChessGame.java:181-208 | on a shielded back rank castling depends only on the flags and on the gap |
| Castling.WhiteShortCastle | Chess/src/test/model/RoqueTest.java:24-36 | with f1 and g1 cleared, White castles short: king on (7,6), rook on (7,5) |
| Castling.BlackLongCastle | Chess/src/test/model/RoqueTest.java:43-60 | with b8, c8 and d8 cleared after e2-e4, Black castles long: king on (0,2), rook on (0,3) |
| Castling.CastleWithRookInKingsColumn | Chess/src/model/ChessGame.java:194-213 | with a rook in the king's column, the gap loop wraps 32-bit, and the king castles while the rook stays |
| Castling.CastleKeepsConsistent | Chess/src/model/ChessGame.java:181-215 | after castling every piece still reports its own square |
| Game.PieceCodeRoundTrip | Chess/src/model/ChessGame.java:128-135 | a piece code names the kind and colour it was made from |
| Game.PromotionKinds | Chess/src/model/ChessGame.java:143-148 | promotion installs a queen, rook, bishop or knight, and each of the codes Q, R, B, N installs its own kind |
| Game.ToPoints | Chess/src/model/ChessGame.java:122-123 | each move becomes a point with the column first |
| Game.TransposedTwice | Chess/src/model/ChessGame.java:119-125 | the (column,row) points are exactly the moves swapped, and swapping back restores them |
| Game.ChessGame.constructor | Chess/src/model/ChessGame.java:17-34 | a new game on a board: White to move, nothing selected, not ended |
| Game.ChessGame.ResetGame | Chess/src/model/ChessGame.java:42-50 | the opening position, White to move, and selection, en passant, promotion and end state cleared; the promotion square is kept |
| Game.ChessGame.SelectPiece | Chess/src/model/ChessGame.java:53-60 | succeeds iff the square holds a piece of the side to move; the selection changes only on success, and nothing else changes |
| Game.ChessGame.MoveTo | Chess/src/model/ChessGame.java:63-113 | answer and new state are those of `MoveToSpec` |
| Game.ChessGame.Castle | Chess/src/model/ChessGame.java:68-76 | the castling rule's answer; on success the turn passes, and the selection and en-passant target are cleared |
| Game.ChessGame.MoveOrdinary | Chess/src/model/ChessGame.java:78-113 | answer and new state of a move that is not a castling |
| Game.ChessGame.PlayMove | Chess/src/model/ChessGame.java:84-110 | an accepted move: en-passant capture, the move, the new en-passant target, the promotion square, the turn passed |
| Game.ChessGame.TakeEnPassant | Chess/src/model/ChessGame.java:84-92 | a pawn onto the empty en-passant target removes the pawn behind it |
| Game.ChessGame.MarkPromotion | Chess/src/model/ChessGame.java:99-108 | a pawn on its last row sets the pending promotion to its square |
| Game.ChessGame.SetEnPassantIfDoublePush | Chess/src/model/ChessGame.java:218-225 | the target is the square a two-row pawn move passed over, and nothing otherwise |
| Game.ChessGame.EndTurn | Chess/src/model/ChessGame.java:153-156 | the other side is to move, with nothing selected |
| Game.ChessGame.CheckEndOfGame | Chess/src/model/ChessGame.java:159-171 | the state becomes the end-of-game evaluation |
| Game.ChessGame.AnyLegalMoves | Chess/src/model/ChessGame.java:173-178 | true iff some piece of the colour has a move |
| Game.ChessGame.GetReachableSquares | Chess/src/model/ChessGame.java:119-125 | the selected piece's moves as (column,row) points, or none without a selection |
| Game.ChessGame.GetPieceCode | Chess/src/model/ChessGame.java:128-135 | no code iff the square is empty, and a code names the kind and colour of its piece |
| Game.ChessGame.Promote | Chess/src/model/ChessGame.java:139-151 | the promotion square gets a new piece of the chosen kind and the old colour, and the pending flag is cleared |
| Game.MoveToAcceptsListedMoves | Chess/src/model/ChessGame.java:63-81 | for a selected piece standing on its square, a move that is not a castling attempt is accepted iff the target is one of the piece's `pieceMovement` destinations; for the queen, iff the target is on the board, on a line through it with nothing between, and empty or of the other colour |
| Game.CanMoveTargets | Chess/src/model/ChessGame.java:81-97 | an accepted target is on the board and not the origin; a double push sets the passed-over square, which is on the board |
| Game.AnyScanFindsMove | Chess/src/model/ChessGame.java:173-178 | the scan finds a piece iff some piece of the colour has a move |
| Game.AnyScanKeepsMen | Chess/src/model/ChessGame.java:173-178 | the scan keeps every piece where it was |
| Game.EndOfGameDecides | Chess/src/model/ChessGame.java:159-171 | the game ends exactly on mate or when the side to move has no move; mate wins for the other side, no move is a draw; only the board's flags, `gameEnded` and `winner` change |
| Game.AcceptedMovePassesTurn | Chess/src/model/ChessGame.java:63-113 | an accepted move needs a game in progress and a selection; it passes the turn and clears the selection |
| Game.RefusedMoveKeepsMen | Chess/src/model/ChessGame.java:63-81 | a refused move changes nothing but the board's flags; a refused castling changes nothing |
| Game.OrdinaryMoveLands | Chess/src/model/ChessGame.java:84-94 | after an accepted move: the origin is empty, the piece stands on the target, a pawn taken en passant is gone, and every other square is unchanged |
| Game.OrdinaryMoveRecords | Chess/src/model/ChessGame.java:96-108 | the en-passant target is set iff a pawn double-pushed, to the passed-over square; a pawn reaching its last row sets the promotion square |
| Game.OpeningKnightMove | Chess/src/model/ChessGame.java:63-113 | from the opening position the knight g1-f3 is accepted, lands on (5,5), empties (7,6), and passes the turn to the other side |
| Game.OpeningKnightRefused | Chess/src/model/ChessGame.java:78-81 | from the opening position a straight knight move is refused and the game is unchanged |
| Game.OpeningKnightMoves | Chess/src/model/Knight.java:17-48 | in the opening position the white knight on (7,6) may go to (5,5) and not to (4,6) |

## Left out

- The Swing view and controllers are presentation only and are not part of this model. This covers `BoardPanel.java`, `StartWindow.java` and `MainWindow.java`.
- `Chess/src/board/Board.java` is not part of this model. It is an earlier board in another package, and its `movePiece` is empty.
- The singletons are not modelled. `ChessGame` takes its board as a constructor argument, and the pieces take the en-passant target as a parameter.
- The `Square` cell class is not part of this model. Each square is an `Option<Piece>`.
- `java.awt.Point` is not modelled. The reachable squares are `(column, row)` pairs.
- The getters and the `setEnPassantTarget` test setter are plain field reads and writes. They have no members.
- `getTypeChar` exists only in King, Pawn and Knight. For bishop, rook and queen the model assumes 'B', 'R' and 'Q'.
- `hasMoved()` is called at ChessGame.java:182 and Pawn.java:83, but `Piece` declares only the field `hasMoved` and `setHasMoved`. The model reads these calls as the field.
- `Piece` declares `testMoveSafety`, but King, Pawn, Knight and Rook do not define it, so it is modelled only for Bishop and Queen.
- Object identity and aliasing are not captured. A piece is the record on the square it reports, and the selection is a square. So `moveTo` refuses a move when the selected square has been emptied since it was selected. The Java code would still move its stale reference.
- Integer width matters in two loops, both modelled with 32-bit wrap-around (`JavaInt.AddInt32`): the castling gap loop and the walk of the queen's `canMove`. Every other computation stays within a few squares of the board.
- Castling.CastleMovesBoth: stated only for a rook on the king's row at least three columns away. The rook in the king's column is shown by `Castling.CastleWithRookInKingsColumn`.
- Castling.CastleRefusedKeepsBoard: requires the king's second step to be on the board. A probe off the board takes the king off the board, as `makeMove` does.
- Game.RefusedMoveKeepsMen: requires both king steps of a castling attempt to be on the board, for the same reason.
- Game.OrdinaryMoveLands: the other squares are stated up to moved flags. `isCheckmate` and `anyLegalMoves` raise flags on the board they scan.
- Game.ChessGame.Promote: requires a piece on the promotion square. The Java code throws a `NullPointerException` there.
- Checkmate.IsCheckmate: requires every piece to report its own square. `ChessGame` keeps that invariant, and it is part of `Game.ChessGame.Valid`.
- KnightRules.KnightCanMove: requires the origin to be the knight's own square, which is what `moveTo` passes.
- Movement.CanMoveMatchesMoves: excludes the queen. The queen's `canMove` is geometric, with neither a king exclusion nor a safety test (`QueenRules.QueenCanMoveExactly`).
- Movement.PieceMovement: dispatches to the corrected probe `Sliding.TestMoveSafety`, so in the model a bishop or queen stays on the board after its moves are listed. As written, the first probe removes it (Findings row Bishop.java:67-70).
- Movement.CanMove: dispatches to the corrected `Sliding.TestMoveSafety` and to the corrected `KnightRules.KnightCanMove`, so no piece vanishes and a knight asked about a square off the board refuses.
- Sliding.SlidePieceMovement: built on the corrected probe, as are `BishopRules.BishopPieceMovement` and `QueenRules.QueenPieceMovement`.
- Checkmate.IsCheckmate: scans with the corrected `Sliding.TestMoveSafety`, so the scan sees every piece. As written, a bishop or queen whose moves were listed before is already off the board.
- Game.ChessGame.MoveTo: plays through the corrected `Sliding.TestMoveSafety` and `KnightRules.KnightCanMove`. As written, a knight sent off the board is dropped and the move is accepted.
- Game.ChessGame.AnyLegalMoves: scans with the corrected probes, for the same reason.
- Game.ChessGame.GetReachableSquares: lists the moves with the corrected probes, so the selected bishop or queen stays on the board.
- Game.ChessGame.CheckEndOfGame: evaluates mate and stalemate with the corrected probes.
- QueenRules.QueenCanMoveAsWritten: requires an `int` origin, the type of the Java parameters.
- QueenRules.QueenCanMove: models `canMove` with the alignment check the code evidently intends. The code as written is `QueenRules.QueenCanMoveAsWritten`.
- Check and attack detection ignore moved flags, as proved. Whether a piece's move list ignores its own flag is not stated as a lemma.

## Findings

| source | as written | input that shows it | evidently intended | confidence | as-written member | corrected member |
|---|---|---|---|---|---|---|
| Chess/src/model/Bishop.java:67-70 | `undoMove(row, col, …)` is called after `makeMove` has moved the piece to the target, so origin and target are the same square and the bishop or queen vanishes from the board (the same code is at Chess/src/model/Queen.java:88-91) | any tried move, e.g. the white queen on (2,4) of the pin test trying (2,3) | the piece is put back on its origin | high, not executed | Sliding.SafetyProbeAsWrittenDropsPiece | Sliding.TestMoveSafety |
| Chess/src/model/Queen.java:61 | the sign test always passes, so a target off every line is handed to the walk; the walk steps diagonally past it round the whole `int` range and answers false only when it is back on the queen, after 2^32 squares | a lone queen on (0,0) asked about (1,2) | only rows, columns and diagonals are walked, and any other target is refused at once | high, not executed | QueenRules.QueenCanMoveWalksFullTurn | QueenRules.QueenCanMoveExactly |
| Chess/src/model/Knight.java:54-69 | `canMove` never checks that the target is on the board; the simulated `makeMove` to an invalid square drops the knight | a white knight alone on (0,1) asked about (-2,0) | off-board targets are refused and the board is untouched | medium, not executed | KnightRules.KnightVanishesOffBoard | KnightRules.KnightCanMove |
