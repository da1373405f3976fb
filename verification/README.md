# Chess rule engine of ChessApp

ChessApp is a two-player chess game in the browser. This project models its rule engine:

- `GameLogic.js`: the per-piece validators, check detection, the trial-move simulation, castling, en passant, promotion, stalemate and checkmate.
- `ChessApp.jsx`: the starting position, and how a click on a square is turned into a selection, a move, a castle or a pending promotion.
- The bookkeeping after every move: en passant removal, the king squares and the end-of-game flags.

A board is a value `map<Square, Piece>` that holds only the occupied squares. The source copies the board before every write, so value semantics is exact. Row 0 is Black's back rank. White pawns move towards row 0.

Each loop of the source is a method (the path walks, the 64-square scans, the move lists and the castle loops). Each method is proved equal to a quantified specification predicate. The lemmas are stated over those predicates. ChessApp's React state is the class `ChessAppModel.Game`. Each of its handlers is proved to produce `State() == F(old(State()), …)`, where `F` is a transition function on the value `GameState`. The lemmas about clicks are stated over those functions.

Modules:

- `BoardModel` (`board.dfy`): squares, pieces, the board and the scratch-board move.
- `Movement` (`movement.dfy`): the validators of the six kinds of piece.
- `CheckDetection` (`check.dfy`): check, king moves, the exposure test and blocking.
- `SpecialMoves` (`special.dfy`): en passant, promotion and castling.
- `TerminalStates` (`terminal.dfy`): move lists, stalemate and checkmate.
- `ChessAppModel` (`game.dfy`): the game state and click handling.
- `Findings` (`findings.dfy`): the concrete positions behind the findings below, and the position on which the checkmate test misses a block, and the position on which the stalemate test misses a stalemate.

Behaviour of the source that the model keeps as written:

- A rook is never asked to move onto its own square, because the source's walk would not end. `ValidateRookMove` therefore requires distinct squares.
- A bishop never looks at its destination, so a bishop move may land on a piece of its own colour. A knight never reads the board.
- The queen validator is false on an empty start square.
- Kings never threaten anything.
- An empty square is never in check. So the destination test of a king move, and the castle's test of the squares it crosses, only matter on occupied squares.
- The castle checks only the squares strictly between king and target for emptiness. It does not check the b-file square.
- `getPossibleMoves` never offers a pawn's two-row advance. It offers bishop, queen-diagonal and king moves onto pieces of their own colour, and knight moves onto any square. As a result `checkForStalemate` can miss a stalemate: a king step onto its own pawn counts as a safe move (`Findings.StalemateMissedOwnPieceStep`).
- `isEnPassantMove` ignores the board and the mover's kind.
- `isKingInCheckmate` does not itself require check.
- `isKingInCheckmate` answers a check only by a king step or by capturing the checking piece. It never tries to put a piece between the checking piece and the king, so it can report mate when a block is possible (`Findings.MateWithoutInterposition`).
- A castle is not appended to the board history and does not count as a move.
- A promotion passes the turn when it becomes pending. The promotion choice does not pass it again.
- The end-of-game flags are only ever set, never cleared.

## Model

| member | source | states |
|---|---|---|
| BoardModel.MovedBoard | ChessApp/src/GameLogic.js:171-177 | the scratch copy of a trial move: the start square is empty, the destination holds what the start held, every other square is unchanged |
| Movement.ValidateRookMove | ChessApp/src/GameLogic.js:1-26 | true exactly when start and end share a row or column, every square strictly between is empty, and the end is empty or holds the other colour |
| Movement.ValidateBishopMove | ChessApp/src/GameLogic.js:28-47 | true exactly when the row and column distances are equal and every square strictly between on the diagonal is empty |
| Movement.ValidateQueenMove | ChessApp/src/GameLogic.js:119-128 | true exactly when a piece stands on the start and a rook move for its colour or a bishop move is valid |
| Movement.IsThreateningPiece | ChessApp/src/GameLogic.js:312-328 | true exactly when the validator of the piece's own kind accepts the move; a king threatens nothing |
| Movement.RookMoveIgnoresPathEnd | ChessApp/src/GameLogic.js:1-26 | a rook move onto a piece of the other colour is valid exactly when the same move onto the emptied destination is: the destination is not on the path |
| Movement.BishopIgnoresDestination | ChessApp/src/GameLogic.js:28-47 | the bishop validator gives the same answer whatever stands on the destination |
| Movement.KnightMove | ChessApp/src/GameLogic.js:49-58 | the knight's rule: two rows and one column, or one row and two columns, away; the board is never read |
| Movement.KnightMoveOffsets | ChessApp/src/GameLogic.js:49-58 | a knight move changes both the row and the column, by three squares in all, and every such move is a knight move |
| Movement.KnightChangesShade | ChessApp/src/GameLogic.js:49-58 | a knight move always lands on a square of the other shade |
| Movement.PawnMove | ChessApp/src/GameLogic.js:60-98 | the pawn's rule: one row forward onto an empty square; two rows forward from its home row (row 6 for White, row 1 for Black) over and onto empty squares; or one row forward and one column aside onto a piece of the other colour; White moves towards row 0 |
| Movement.PawnMoveShape | ChessApp/src/GameLogic.js:60-98 | a pawn moves forward one row, or two rows from its home row, and enters an occupied square only diagonally onto the other colour |
| Movement.QueenMoveIsLine | ChessApp/src/GameLogic.js:119-128 | a queen move is along a row, a column or a diagonal |
| CheckDetection.IsThreatenedByPiece | ChessApp/src/GameLogic.js:206-225 | true exactly when a piece of the other colour than the king square's stands on the start and its validator reaches the king square |
| CheckDetection.IsKingInCheck | ChessApp/src/GameLogic.js:195-236 | true exactly when the square is occupied and some piece of the other colour on the 8x8 board reaches it |
| CheckDetection.ValidateKingMove | ChessApp/src/GameLogic.js:130-169 | true exactly when the move is one step, does not end next to the other colour's cached king square, and the destination is not in check |
| CheckDetection.DoesMoveExposeKing | ChessApp/src/GameLogic.js:171-193 | true exactly when, on the scratch copy, the king square is in check: the destination when a king moved, the cached square otherwise |
| CheckDetection.IsBlockingMove | ChessApp/src/GameLogic.js:330-367 | true exactly when the piece may reach the threat's square by its own validator and the king square is not in check after that move |
| CheckDetection.InCheckWitness | ChessApp/src/GameLogic.js:195-236 | an empty square is never in check; a check always comes from a non-king piece of the other colour |
| CheckDetection.KingsNeverGiveCheck | ChessApp/src/GameLogic.js:206-225 | if every opposing piece is a king, the square is not in check |
| CheckDetection.ExposesTestsMovedKing | ChessApp/src/GameLogic.js:171-193 | the exposure test checks the king's own destination for a king move and the cached king square for any other piece |
| SpecialMoves.IsEnPassant | ChessApp/src/GameLogic.js:100-117 | the last move was a pawn moving two rows, it ended on the mover's row in an adjacent column, and the destination is the square that pawn passed over; the board and the mover's kind are not consulted |
| SpecialMoves.EnPassantIsDiagonalStep | ChessApp/src/GameLogic.js:100-117 | an en passant move, whoever made the last move, is a one-square diagonal step onto a square other than the one the advanced pawn stands on |
| SpecialMoves.EnPassantCapturesTheDoubleStepper | ChessApp/src/GameLogic.js:100-117 | when the last move was the opponent's, an en passant move is a diagonal step forward and the captured square is where the opponent's pawn landed after advancing two rows |
| SpecialMoves.PawnPromotion | ChessApp/src/GameLogic.js:623-633 | a pawn promotes on row 0 when White and on row 7 when Black |
| SpecialMoves.PromotionRowFacesHomeRow | ChessApp/src/GameLogic.js:623-633 | the promotion row is six rows ahead of the pawn's home row, in its direction of travel |
| SpecialMoves.PromotionFollowsSingleStep | ChessApp/src/GameLogic.js:623-633 | a pawn reaches its promotion row only by a one-row step |
| SpecialMoves.ValidateCastle | ChessApp/src/GameLogic.js:369-439 | returns the new king and rook squares exactly when the king has not moved, stays on its row, targets column 2 or 6, is not in check, the squares between are empty, the start square and the squares between are not in check, and a rook of its colour stands in that corner |
| SpecialMoves.CastleSuccess | ChessApp/src/GameLogic.js:369-439 | a successful castle needs an unmoved king not in check, an empty path and the corner rook; from the king's home column the king moves two columns and the rook lands on the empty square the king crosses |
| SpecialMoves.IsKingPathSafe | ChessApp/src/GameLogic.js:406-412 | true exactly when the king, moved onto each square it crosses or lands on, is not in check there |
| SpecialMoves.ValidateSafeCastle | ChessApp/src/GameLogic.js:369-439 | the corrected castle: the source's castle, refused when any square the king crosses or lands on is attacked |
| SpecialMoves.SafeCastleAvoidsAttackedSquares | ChessApp/src/GameLogic.js:406-412 | a corrected castle agrees with the source's castle, and the king is not in check on any square it crosses or lands on |
| TerminalStates.KnightOffsetsComplete | ChessApp/src/GameLogic.js:536-558 | the eight knight offsets list exactly the knight moves |
| TerminalStates.KingOffsetsComplete | ChessApp/src/GameLogic.js:587-615 | both eight-offset lists name exactly the one-step neighbours |
| TerminalStates.RookMoves | ChessApp/src/GameLogic.js:484-499 | the list holds exactly the squares of the rook's row and column, other than its own, that the rook validator accepts |
| TerminalStates.BishopMoves | ChessApp/src/GameLogic.js:500-531 | the list holds exactly the on-board diagonal squares that the bishop validator accepts |
| TerminalStates.KnightMoves | ChessApp/src/GameLogic.js:536-558 | the list holds exactly the on-board knight moves |
| TerminalStates.PawnMoves | ChessApp/src/GameLogic.js:559-586 | the list holds exactly the on-board one-row forward and diagonal squares that the pawn validator accepts |
| TerminalStates.KingMoves | ChessApp/src/GameLogic.js:587-615 | the list holds exactly the on-board neighbours that the king validator accepts |
| TerminalStates.GetPossibleMoves | ChessApp/src/GameLogic.js:472-621 | the list holds exactly the candidate destinations for the piece's kind; a queen gets the rook and bishop candidates |
| TerminalStates.HasSafeMove | ChessApp/src/GameLogic.js:450-466 | true exactly when some offered destination of the piece does not expose the king |
| TerminalStates.CheckForStalemate | ChessApp/src/GameLogic.js:441-471 | true exactly when no piece of the colour has an offered destination that leaves its king unexposed, and the king square is not in check |
| TerminalStates.IsMoveValid | ChessApp/src/GameLogic.js:244-251 | true exactly when the king moved to the neighbour is not in check there |
| TerminalStates.KingCanEscape | ChessApp/src/GameLogic.js:253-278 | true exactly when some on-board neighbour, empty or holding the other colour, is an escape square |
| TerminalStates.ThreateningPieces | ChessApp/src/GameLogic.js:280-293 | the list holds exactly the on-board pieces of the other colour whose validator reaches the king square |
| TerminalStates.CanBlockAny | ChessApp/src/GameLogic.js:295-307 | true exactly when the piece can move onto the square of one of the listed threats, capturing it, and leave the king out of check |
| TerminalStates.IsKingInCheckmate | ChessApp/src/GameLogic.js:238-310 | true exactly when the king square is occupied, the king has no escape square, and no piece of its colour can capture a threatening piece on its square and leave the king out of check; moving between a threat and the king is never tried |
| ChessAppModel.InitialBoard | ChessApp/src/ChessApp.jsx:22-67 | pawns fill rows 1 and 6, the back ranks are in order rook, knight, bishop, queen, king, bishop, knight, rook, White is on rows 6 and 7, and rows 2 to 5 are empty |
| ChessAppModel.InitialKings | ChessApp/src/ChessApp.jsx:74-81 | the cached king squares hold the kings at the start, and neither king is in check |
| ChessAppModel.Captured | ChessApp/src/ChessApp.jsx:140-146 | an en passant capture by a pawn clears the square one row behind its destination; every other square is unchanged, and without such a capture the board is unchanged |
| ChessAppModel.DoesMoveLeaveKingInCheck | ChessApp/src/ChessApp.jsx:365-382 | the corrected king-safety test: true exactly when the mover's king is in check on the board the move really leaves, with the en passant victim removed |
| ChessAppModel.LeavesKingInCheckIsExposes | ChessApp/src/GameLogic.js:171-193 | away from an en passant capture, the corrected test agrees with the source's scratch-board test |
| ChessAppModel.EnPassantRemovesTheAdvancedPawn | ChessApp/src/ChessApp.jsx:140-146 | an en passant capture puts the pawn on the square passed over, empties its start square and removes the opponent's pawn that advanced two rows |
| ChessAppModel.ValidatorAccepts | ChessApp/src/ChessApp.jsx:263-386 | the click handler applies exactly the validator of the selected piece's kind, and a pawn may also capture en passant |
| ChessAppModel.DecideMove | ChessApp/src/ChessApp.jsx:254-401 | a move attempt is refused when it is not the piece's turn; a king castles when the corrected castle allows it; otherwise it is refused unless the validator accepts and the king is safe afterwards; a pawn on the last row waits for promotion |
| ChessAppModel.AcceptedMoveKeepsKingSafe | ChessApp/src/ChessApp.jsx:254-401 | after an accepted ordinary move or promotion, the mover's king is on the board and not in check |
| ChessAppModel.CastleMovesKingAndRook | ChessApp/src/ChessApp.jsx:287-299 | a castle puts king and rook on their new squares, empties the corner and the king's start square, and changes nothing else |
| ChessAppModel.Initial | ChessApp/src/ChessApp.jsx:70-92 | the starting state is consistent, not over, and White is to move |
| ChessAppModel.UpdateFlags | ChessApp/src/ChessApp.jsx:171-203 | a king in check and mated sets its checkmate flag; the mover's opponent in stalemate sets its stalemate flag; no flag is cleared |
| ChessAppModel.SettledKeepsConsistent | ChessApp/src/ChessApp.jsx:133-204 | the post-move updates keep the history length, the last move and a pending promotion consistent, and clear the selection |
| ChessAppModel.CastlingKeepsConsistent | ChessApp/src/ChessApp.jsx:287-318 | a castle keeps the state consistent |
| ChessAppModel.MovingKeepsConsistent | ChessApp/src/ChessApp.jsx:387-399 | an ordinary move keeps the state consistent |
| ChessAppModel.AttemptKeepsConsistent | ChessApp/src/ChessApp.jsx:254-401 | a move attempt keeps the state consistent |
| ChessAppModel.ClickKeepsConsistent | ChessApp/src/ChessApp.jsx:235-415 | every click keeps one history board per move plus the start, keeps the selected piece where it was selected, and keeps the last move's piece where it landed |
| ChessAppModel.PromotionKeepsConsistent | ChessApp/src/ChessApp.jsx:206-233 | the promotion choice keeps the state consistent |
| ChessAppModel.PromotionPlacesChosenPiece | ChessApp/src/ChessApp.jsx:206-233 | the promotion choice puts a piece of the chosen kind and the pawn's colour on the destination, empties the pawn's square, records that move, counts it and clears the choice without passing the turn again |
| ChessAppModel.KingMoveUpdatesOwnSide | ChessApp/src/ChessApp.jsx:148-159 | a king move puts its own colour's king square on the destination and sets its moved flag; the other colour's king square and flag never change, and after any other move nothing of either changes |
| ChessAppModel.OnlyTheSideToMoveMoves | ChessApp/src/ChessApp.jsx:259-262 | a click that changes the board moved a piece of the colour to move, and passes the turn |
| ChessAppModel.TurnPassesOnlyOnAMove | ChessApp/src/ChessApp.jsx:235-415 | both directions: a click passes the turn exactly when, with the game not over, the selected piece attempts a move onto another square not holding its own colour and the attempt castles, moves or makes a promotion pending; a deselect, a reselect, a refused or not-your-turn attempt, a first selection and any click after the game ended keep the turn |
| ChessAppModel.MovedState | ChessApp/src/ChessApp.jsx:102-158 | after an ordinary move the board is the moved board with the en passant victim removed, and only a moved king changes its king square |
| ChessAppModel.ClickCountingAMove | ChessApp/src/ChessApp.jsx:387-399 | a click that counts a move is an accepted ordinary move of the selected piece onto a square not holding its own colour |
| ChessAppModel.MoverKingSafeAfterClick | ChessApp/src/ChessApp.jsx:235-415 | if each side has one king on its cached square and the last move was the opponent's, then after a click that makes a move the mover's king is on its cached square and not in check |
| ChessAppModel.Game.constructor | ChessApp/src/ChessApp.jsx:70-92 | the component starts in the initial state |
| ChessAppModel.Game.HandleMove | ChessApp/src/ChessApp.jsx:102-131 | the piece is placed on the destination, its start cleared, the new board appended to the history, the move count incremented and the move recorded |
| ChessAppModel.Game.PostMoveUpdates | ChessApp/src/ChessApp.jsx:133-204 | the en passant victim is removed, a moved king updates its square and moved flag, the selection is cleared, and the flags are updated |
| ChessAppModel.Game.HandlePromotionChoice | ChessApp/src/ChessApp.jsx:206-233 | the pending pawn move is made with the chosen piece, the choice cleared and the post-move updates run, keeping the state consistent |
| ChessAppModel.Game.CastleKing | ChessApp/src/ChessApp.jsx:287-318 | king and rook are moved, the king's move recorded, its moved flag set, the turn passed, and the post-move updates run |
| ChessAppModel.Game.AttemptMove | ChessApp/src/ChessApp.jsx:254-401 | the state changes exactly as the decision for the attempt says |
| ChessAppModel.Game.ClickSelected | ChessApp/src/ChessApp.jsx:244-403 | with a piece selected, a click deselects, reselects, or attempts a move |
| ChessAppModel.Game.HandleSquareClick | ChessApp/src/ChessApp.jsx:235-415 | the state changes exactly as the click transition says, and stays consistent |
| Findings.ScratchBoardShieldsKing | ChessApp/src/GameLogic.js:171-193 | on the scratch copy of the en passant capture, the captured pawn still shields the king |
| Findings.CaptureOpensTheRank | ChessApp/src/ChessApp.jsx:140-146 | once the captured pawn is removed, the rook attacks the king along the rank |
| Findings.EnPassantIntoDiscoveredCheck | ChessApp/src/ChessApp.jsx:365-382 | a latent defect: the source's test accepts an en passant capture although the board the capture is meant to leave, without the captured pawn, has the mover's king in check; the corrected test refuses it |
| Findings.CastleThroughAttackedSquare | ChessApp/src/GameLogic.js:406-412 | the source lets the king castle across an attacked square; the corrected castle refuses |
| Findings.MateWithoutInterposition | ChessApp/src/GameLogic.js:295-310 | white king h1, pawns g2 and h2, knight d3 against a rook on a1: the checkmate test reports mate, although the knight can move to c1 and end the check |
| Findings.StalemateMissedOwnPieceStep | ChessApp/src/GameLogic.js:587-613 | white king a1 and pawn a2 against a black pawn a3 and king c2: no White piece is offered a destination that is empty or Black, the king is not in check, yet the stalemate test reports no stalemate, because the king step onto its own pawn counts as safe |
| Findings.EffectRemovalAsWritten | ChessApp/src/ChessApp.jsx:94-100 | the en passant removal, run from the effect as written, never changes the board |
| Findings.CapturedPawnSurvives | ChessApp/src/ChessApp.jsx:140-146 | after an en passant capture, the effect as written leaves the captured pawn on the board, still shielding the king; the corrected update removes it and the king is then in check |

## Left out

- Rendering, the move-history navigation and the promotion dialog are not modelled. `NavigateMoveHistory.jsx`, `Square.jsx`, `Piece.jsx` and `PromotionSelection.jsx` are not part of this model. The promotion choice accepts any kind; the dialog is what restricts it to queen, rook, bishop or knight.
- `console.log` and `console.error` output is left out.
- The `!kingPosition` and `!color` guards in `isKingInCheck`, `postMoveUpdates` and `validateCastle` are left out. Those values are always set, so the guards are unreachable.
- React's deferred state updates are not modelled literally. A handler and the effect it triggers form one atomic method. The effect's stale reads are a finding below. The model uses the corrected reading.
- TerminalStates.PawnMoves: keeps only on-board candidates. The source would read a row past the board edge, but a pawn has promoted before it could get there.
- Rook moves are not tracked. Castling only asks whether the king has moved, as in the source.
- A piece is its kind and colour only. React element identity is not modelled.
- ChessAppModel.DecideMove, ChessAppModel.Game.AttemptMove, ChessAppModel.Game.ClickSelected, ChessAppModel.Game.HandleSquareClick: the game's move decision uses the corrected castle `SafeCastle` in place of `validateCastle`, so it refuses a castle across or onto an attacked square that the source performs (`Findings.CastleThroughAttackedSquare`). It also uses the corrected king-safety test `LeavesKingInCheck` in place of `doesMoveExposeKing`. The two tests differ only on an en passant capture (`LeavesKingInCheckIsExposes`).
- ChessAppModel.Captured: en passant removal is limited to pawns. The source's `isEnPassantMove` would also fire for a king, queen or bishop moving diagonally behind the pawn.
- ChessAppModel.Game.PostMoveUpdates: removes the pawn captured en passant and computes the flags with the king squares already updated. As written, the captured pawn is never removed at all, and the flags read the king squares from before the move (finding 3).
- ChessAppModel.MoverKingSafeAfterClick: covers ordinary moves only. Castling safety is stated by `SafeCastleAvoidsAttackedSquares` for the king alone, without the rook that lands beside it.

## Findings

| source | as written | input that shows it | evidently intended | confidence | as-written member | corrected member |
|---|---|---|---|---|---|---|
| ChessApp/src/ChessApp.jsx:375-382 | an en passant capture is accepted when `doesMoveExposeKing` finds the king safe, but that scratch board still holds the captured pawn | White king a5, white pawn b5, black pawn c5 just advanced from c7, black rook h5; White plays b5xc6 en passant; the board the capture is meant to leave has White's king in check along the fifth rank. As written the defect stays latent: the captured pawn is never removed (third row), so c5 still shields the king | test the king on the board the capture really leaves, without the captured pawn | not executed | CheckDetection.DoesMoveExposeKing | ChessAppModel.DoesMoveLeaveKingInCheck |
| ChessApp/src/GameLogic.js:406-412 | the squares the king crosses are checked with `isKingInCheck`, which is false on an empty square, so only the start square is really examined and the target square is never examined | White king e1, rook h1, black rook f8, black king a8; castling to g1 is accepted although f1 is attacked | the king may not cross or land on an attacked square | not executed | SpecialMoves.ValidateCastle | SpecialMoves.ValidateSafeCastle |
| ChessApp/src/ChessApp.jsx:94-100 | `postMoveUpdates` runs in the effect of the render that already holds the new `lastMove`, so `isEnPassantMove` compares the move with itself and never removes the captured pawn; that render also still holds the king squares from before the move | the same position; after b5xc6 en passant the black pawn stays on c5 | compare with the move before, then test check, checkmate and stalemate on the final board with the updated king squares | not executed | Findings.EffectRemovalAsWritten | ChessAppModel.Game.PostMoveUpdates |
