/** The game state and click handling of ChessApp.jsx: the starting position, the
    acceptance of a move, the board transforms of an ordinary move, a castle and a
    promotion, and the bookkeeping that follows every move. */
module ChessAppModel {
  import opened BoardModel
  import opened Movement
  import opened CheckDetection
  import opened SpecialMoves
  import opened TerminalStates

  /** The back-rank order from file a to file h. */
  function BackRank(c: int): Kind
    requires 0 <= c < 8
  {
    [Rook, Knight, Bishop, Queen, King, Bishop, Knight, Rook][c]
  }

  /** initialBoard (ChessApp.jsx:22-67). */
  function InitialBoard(): (b: Board)
    ensures forall s :: s in b <==> OnBoard(s) && (s.row <= 1 || 6 <= s.row)
    ensures forall s :: s in b && (s.row == 1 || s.row == 6) ==> b[s].kind == Pawn
    ensures forall s :: s in b && (s.row == 0 || s.row == 7) && 0 <= s.col < 8 ==> b[s].kind == BackRank(s.col)
    ensures forall s :: s in b ==> (b[s].color == White <==> 6 <= s.row)
  {
    map r, c | 0 <= r < 8 && 0 <= c < 8 && (r <= 1 || 6 <= r) ::
      Square(r, c) := Piece(if r == 1 || r == 6 then Pawn else BackRank(c), if 6 <= r then White else Black)
  }

  /** The kings start on the squares the king positions are initialised with
      (ChessApp.jsx:74-81), and neither is in check. */
  lemma InitialKings()
    ensures InitialBoard()[Square(7, 4)] == Piece(King, White)
    ensures InitialBoard()[Square(0, 4)] == Piece(King, Black)
    ensures !InCheck(InitialBoard(), Square(7, 4)) && !InCheck(InitialBoard(), Square(0, 4))
  {
    InitialKingUnattacked(Square(7, 4), White);
    InitialKingUnattacked(Square(0, 4), Black);
  }

  /** No piece of the starting position attacks the king on its back rank. */
  lemma InitialKingUnattacked(k: Square, c: Color)
    requires k == Square(HomeRow(c) - Direction(c), 4)
    ensures forall r, col :: 0 <= r < 8 && 0 <= col < 8 ==> !Attacks(InitialBoard(), Square(r, col), k)
  {
    var b := InitialBoard();
    forall r, col | 0 <= r < 8 && 0 <= col < 8
      ensures !Attacks(b, Square(r, col), k)
    {
      if Square(r, col) in b && b[Square(r, col)].color != c {
        assert Abs(r - k.row) >= 6;
      }
    }
  }

  // Accepting a move

  /** The selected piece and the square it was selected on. */
  datatype Selection = Selection(at: Square, piece: Piece)

  /** What a click on a square other than the selected one, and not holding a piece of
      the selected colour, leads to. */
  datatype Outcome = NotYourTurn | Castled(castle: CastleResult) | Illegal | PromotionPending | Moved

  function ColorToMove(whiteToMove: bool): Color {
    if whiteToMove then White else Black
  }

  /** The cached square of the king of colour c. */
  function OwnKing(c: Color, wk: Square, bk: Square): Square {
    if c == White then wk else bk
  }

  /** The validator the click handler applies for the kind of the piece on s; a pawn may
      also move en passant. */
  ghost predicate Accepts(b: Board, s: Square, e: Square, wk: Square, bk: Square, last: Option<LastMove>)
    requires s in b
  {
    match b[s].kind
    case King => KingMove(b, s, e, wk, bk)
    case Queen => QueenMove(b, s, e)
    case Rook => RookMove(b, s, e, b[s].color)
    case Bishop => BishopMove(b, s, e)
    case Knight => KnightMove(s, e)
    case Pawn => PawnMove(b, s, e, b[s].color) || IsEnPassant(s, e, last)
  }

  /** A pawn moving onto the square an adjacent pawn passed over with its two-row advance. */
  predicate EnPassantCapture(moved: Piece, s: Square, e: Square, last: Option<LastMove>) {
    moved.kind == Pawn && IsEnPassant(s, e, last)
  }

  /** The board after the en passant removal of postMoveUpdates (ChessApp.jsx:140-146):
      the square behind the destination is cleared when `moved`, going from s to e, captured
      en passant against the move `last`. */
  function Captured(b: Board, moved: Piece, s: Square, e: Square, last: Option<LastMove>): (r: Board)
    ensures EnPassantCapture(moved, s, e, last) ==> CaptureSquare(e, moved.color) !in r
    ensures forall x :: x != CaptureSquare(e, moved.color) ==> (x in r <==> x in b) && (x in r ==> r[x] == b[x])
    ensures !EnPassantCapture(moved, s, e, last) ==> r == b
  {
    if EnPassantCapture(moved, s, e, last) then b - {CaptureSquare(e, moved.color)} else b
  }

  /** The board an ordinary move of the piece on s to e leaves: moved, then the pawn
      captured en passant removed. */
  function ResultBoard(b: Board, s: Square, e: Square, last: Option<LastMove>): Board
    requires s in b
  {
    Captured(MovedBoard(b, s, e), b[s], s, e, last)
  }

  /** The mover's king is in check on the board the move leaves: at the destination when
      the king itself moved, at the cached square otherwise. */
  ghost predicate LeavesKingInCheck(b: Board, s: Square, e: Square, kingPos: Square, last: Option<LastMove>)
    requires s in b
  {
    var t := ResultBoard(b, s, e, last);
    InCheck(t, KingAfter(t, e, kingPos))
  }

  /** The king-safety test of a move, run on the board the move really leaves. */
  method DoesMoveLeaveKingInCheck(b: Board, s: Square, e: Square, kingPos: Square, last: Option<LastMove>)
    returns (inCheck: bool)
    requires s in b
    ensures inCheck == LeavesKingInCheck(b, s, e, kingPos, last)
  {
    var tempBoard := MovedBoard(b, s, e);
    if EnPassantCapture(b[s], s, e, last) {
      tempBoard := tempBoard - {CaptureSquare(e, b[s].color)};
    }
    var newKingPosition := if e in tempBoard && tempBoard[e].kind == King then e else kingPos;
    inCheck := IsKingInCheck(tempBoard, newKingPosition);
  }

  /** Away from an en passant capture, the test on the resulting board is the source's
      scratch-board test. */
  lemma {:induction false} LeavesKingInCheckIsExposes(b: Board, s: Square, e: Square, kingPos: Square, last: Option<LastMove>)
    requires s in b && !EnPassantCapture(b[s], s, e, last)
    ensures LeavesKingInCheck(b, s, e, kingPos, last) == Exposes(b, s, e, kingPos)
  {
    assert ResultBoard(b, s, e, last) == MovedBoard(b, s, e);
  }

  /** An en passant capture of the pawn that just advanced two rows puts the capturing
      pawn on the square passed over and removes the pawn that advanced. */
  lemma EnPassantRemovesTheAdvancedPawn(b: Board, s: Square, e: Square, m: LastMove)
    requires s in b && b[s].kind == Pawn && m.piece.color != b[s].color
    requires IsEnPassant(s, e, Some(m))
    ensures var r := ResultBoard(b, s, e, Some(m));
      m.end !in r && s !in r && e in r && r[e] == b[s]
  {
    EnPassantCapturesTheDoubleStepper(s, e, m, b[s].color);
  }

  /** The validator for the kind of the piece on s, as the click handler dispatches it. */
  method ValidatorAccepts(b: Board, s: Square, e: Square, wk: Square, bk: Square, last: Option<LastMove>)
    returns (ok: bool)
    requires s in b && s != e
    ensures ok == Accepts(b, s, e, wk, bk, last)
  {
    match b[s].kind
    case King => ok := ValidateKingMove(b, s, e, wk, bk);
    case Queen => ok := ValidateQueenMove(b, s, e);
    case Rook => ok := ValidateRookMove(b, s, e, b[s].color);
    case Bishop => ok := ValidateBishopMove(b, s, e);
    case Knight => ok := KnightMove(s, e);
    case Pawn => ok := PawnMove(b, s, e, b[s].color) || IsEnPassant(s, e, last);
  }

  /** The decision of handleSquareClick (ChessApp.jsx:254-401) for a move attempt by the
      selected piece onto `to`: the colour must be the one to move; a king first tries to
      castle; otherwise the kind's validator must accept and the mover's king must not be
      in check afterwards; a pawn reaching the last row waits for the promotion choice. */
  ghost function Decide(b: Board, sel: Selection, to: Square, whiteToMove: bool, wk: Square, bk: Square,
                        whiteKingMoved: bool, blackKingMoved: bool, last: Option<LastMove>): Outcome
    requires sel.at in b && sel.at != to
  {
    var color := sel.piece.color;
    var kingPos := OwnKing(color, wk, bk);
    var moved := if color == White then whiteKingMoved else blackKingMoved;
    if color != ColorToMove(whiteToMove) then NotYourTurn
    else if sel.piece.kind == King && SafeCastle(b, sel.at, to, kingPos, color, moved).Some? then
      Castled(SafeCastle(b, sel.at, to, kingPos, color, moved).value)
    else if !Accepts(b, sel.at, to, wk, bk, last) || LeavesKingInCheck(b, sel.at, to, kingPos, last) then Illegal
    else if sel.piece.kind == Pawn && PawnPromotion(to, color) then PromotionPending
    else Moved
  }

  /** The move-attempt branch of handleSquareClick, computing its decision. */
  method DecideMove(b: Board, sel: Selection, to: Square, whiteToMove: bool, wk: Square, bk: Square,
                    whiteKingMoved: bool, blackKingMoved: bool, last: Option<LastMove>)
    returns (o: Outcome)
    requires sel.at in b && sel.at != to
    ensures o == Decide(b, sel, to, whiteToMove, wk, bk, whiteKingMoved, blackKingMoved, last)
  {
    var color := sel.piece.color;
    if color != ColorToMove(whiteToMove) {
      return NotYourTurn;
    }
    var kingPos := OwnKing(color, wk, bk);
    if sel.piece.kind == King {
      var castlingResult := ValidateSafeCastle(b, sel.at, to, kingPos, color,
                                               if color == White then whiteKingMoved else blackKingMoved);
      if castlingResult.Some? {
        return Castled(castlingResult.value);
      }
    }
    var isValidMove := ValidatorAccepts(b, sel.at, to, wk, bk, last);
    if isValidMove {
      var inCheck := DoesMoveLeaveKingInCheck(b, sel.at, to, kingPos, last);
      isValidMove := !inCheck;
    }
    if !isValidMove {
      return Illegal;
    }
    if sel.piece.kind == Pawn && PawnPromotion(to, color) {
      return PromotionPending;
    }
    return Moved;
  }

  /** An ordinary move or a promotion the click handler accepts leaves the mover's own king
      on the board and not in check, provided the cached king square holds that king and the
      last move was the opponent's and its piece still stands where it landed. */
  lemma {:induction false} AcceptedMoveKeepsKingSafe(b: Board, sel: Selection, to: Square, whiteToMove: bool,
                                                      wk: Square, bk: Square, wMoved: bool, bMoved: bool,
                                                      last: Option<LastMove>)
    requires sel.at in b && sel.at != to && b[sel.at] == sel.piece
    requires var kingPos := OwnKing(sel.piece.color, wk, bk);
      kingPos in b && b[kingPos] == Piece(King, sel.piece.color)
      && (sel.piece.kind == King ==> sel.at == kingPos)
    requires CanLand(b, to, sel.piece.color)
    requires last.Some? ==>
      (last.value.piece.color != sel.piece.color && last.value.end in b && b[last.value.end] == last.value.piece)
    requires Decide(b, sel, to, whiteToMove, wk, bk, wMoved, bMoved, last) in {Moved, PromotionPending}
    ensures var r := ResultBoard(b, sel.at, to, last);
      var k := if sel.piece.kind == King then to else OwnKing(sel.piece.color, wk, bk);
      k in r && r[k] == Piece(King, sel.piece.color) && !InCheck(r, k)
  {
    var color := sel.piece.color;
    var kingPos := OwnKing(color, wk, bk);
    var r := ResultBoard(b, sel.at, to, last);
    assert !LeavesKingInCheck(b, sel.at, to, kingPos, last);
    assert CaptureSquare(to, color) != to;
    if EnPassantCapture(sel.piece, sel.at, to, last) {
      EnPassantCapturesTheDoubleStepper(sel.at, to, last.value, color);
    }
    if sel.piece.kind != King {
      assert kingPos != sel.at;
    }
    assert KingAfter(r, to, kingPos) == if sel.piece.kind == King then to else kingPos;
  }

  // Castling on the board

  /** The corner the rook comes from when the king castles to r.kingTo. */
  function RookCorner(r: CastleResult): Square {
    Square(r.kingTo.row, if r.kingTo.col == 2 then 0 else 7)
  }

  /** The castle branch of handleSquareClick (ChessApp.jsx:290-298): the king goes from s to
      its new square, then the occupant of the corner goes to the rook's new square. */
  function CastledBoard(b: Board, s: Square, r: CastleResult): Board {
    MovedBoard(MovedBoard(b, s, r.kingTo), RookCorner(r), r.rookTo)
  }

  /** A castle the source accepts puts the king and the rook on their new squares, empties
      the corner and the king's start square (unless the rook lands there) and changes
      nothing else. */
  lemma {:induction false} CastleMovesKingAndRook(b: Board, s: Square, e: Square, kingPos: Square, color: Color, moved: bool)
    requires s in b && b[s] == Piece(King, color) && s != e
    requires Castle(b, s, e, kingPos, color, moved).Some?
    ensures var r := Castle(b, s, e, kingPos, color, moved).value;
      var t := CastledBoard(b, s, r);
      r.kingTo == e && t[e] == Piece(King, color) && RookAt(t, r.rookTo, color)
      && RookCorner(r) !in t && (s != r.rookTo ==> s !in t)
      && forall x :: x != s && x != e && x != r.rookTo && x != RookCorner(r) ==>
           (x in t <==> x in b) && (x in t ==> t[x] == b[x])
  {
    var r := Castle(b, s, e, kingPos, color, moved).value;
    CastleSuccess(b, s, e, kingPos, color, moved);
    assert RookCorner(r) != s && RookCorner(r) != e && r.rookTo != e;
  }

  // The game state

  /** The piece waiting for its promotion choice and its destination. */
  datatype Promotion = Promotion(selection: Selection, to: Square)

  /** The four end-of-game flags. */
  datatype Flags = Flags(whiteStalemate: bool, blackStalemate: bool, whiteCheckmate: bool, blackCheckmate: bool)

  predicate GameOver(f: Flags) {
    f.whiteStalemate || f.blackStalemate || f.whiteCheckmate || f.blackCheckmate
  }

  /** Every piece of state ChessApp keeps that the rules read or write. */
  datatype GameState = GameState(
    board: Board,
    history: seq<Board>,
    moveCount: nat,
    selection: Option<Selection>,
    whiteToMove: bool,
    whiteKing: Square,
    blackKing: Square,
    whiteKingMoved: bool,
    blackKingMoved: bool,
    lastMove: Option<LastMove>,
    promotion: Option<Promotion>,
    flags: Flags)

  /** The history holds one board per move plus the starting one, the selected piece still
      stands where it was selected, and the piece of the last move stands where it landed. */
  predicate Consistent(g: GameState) {
    |g.history| == g.moveCount + 1
    && (g.selection.Some? ==> g.selection.value.at in g.board && g.board[g.selection.value.at] == g.selection.value.piece)
    && (g.lastMove.Some? ==> g.lastMove.value.end in g.board && g.board[g.lastMove.value.end] == g.lastMove.value.piece)
    && (g.promotion.Some? ==> g.promotion.value.selection.at != g.promotion.value.to)
  }

  /** The state ChessApp starts in (ChessApp.jsx:70-92). */
  function Initial(): (g: GameState)
    ensures Consistent(g) && !GameOver(g.flags) && g.whiteToMove
  {
    GameState(InitialBoard(), [InitialBoard()], 0, None, true, Square(7, 4), Square(0, 4),
              false, false, None, None, Flags(false, false, false, false))
  }

  /** The flags after postMoveUpdates (ChessApp.jsx:171-203) on the board b with king squares
      wk and bk after a move of `mover`: a king in check and mated sets its checkmate flag;
      the opponent of the mover in stalemate sets its stalemate flag; no flag is cleared. */
  ghost function UpdatedFlags(f: Flags, b: Board, wk: Square, bk: Square, mover: Color): Flags {
    Flags(
      f.whiteStalemate || (mover == Black && Stalemate(b, wk, White, wk, bk)),
      f.blackStalemate || (mover == White && Stalemate(b, bk, Black, wk, bk)),
      f.whiteCheckmate || (InCheck(b, wk) && Checkmate(b, wk)),
      f.blackCheckmate || (InCheck(b, bk) && Checkmate(b, bk)))
  }

  /** The check, checkmate and stalemate tests of postMoveUpdates. */
  method UpdateFlags(f: Flags, b: Board, wk: Square, bk: Square, mover: Color) returns (r: Flags)
    ensures r == UpdatedFlags(f, b, wk, bk, mover)
  {
    var isWhiteKingInCheck := IsKingInCheck(b, wk);
    var isBlackKingInCheck := IsKingInCheck(b, bk);
    var whiteMated := false;
    if isWhiteKingInCheck {
      whiteMated := IsKingInCheckmate(b, wk);
    }
    var blackMated := false;
    if isBlackKingInCheck {
      blackMated := IsKingInCheckmate(b, bk);
    }
    var stalemate := CheckForStalemate(b, if mover == White then bk else wk,
                                       if mover == White then Black else White, wk, bk);
    r := Flags(
      f.whiteStalemate || (mover == Black && stalemate),
      f.blackStalemate || (mover == White && stalemate),
      f.whiteCheckmate || whiteMated,
      f.blackCheckmate || blackMated);
  }

  /** handleMove (ChessApp.jsx:102-131): the piece is written to the destination, its start
      square cleared, the new board appended to the history, and the move recorded. */
  function Recorded(g: GameState, sel: Selection, to: Square): GameState {
    var nb := g.board[to := sel.piece] - {sel.at};
    g.(board := nb, history := g.history + [nb], moveCount := g.moveCount + 1,
       lastMove := Some(LastMove(sel.piece, sel.at, to)))
  }

  /** postMoveUpdates (ChessApp.jsx:133-204) after `moved` went from `from` to `to`, with
      prevLast the move before it: the pawn captured en passant is removed, a moved king
      updates its square and its moved flag, the selection is cleared and the flags are
      updated on the resulting board and king squares. */
  ghost function Settled(g: GameState, from: Square, to: Square, moved: Piece, prevLast: Option<LastMove>): GameState {
    var b := Captured(g.board, moved, from, to, prevLast);
    var whiteKingMoves := moved.kind == King && moved.color == White;
    var blackKingMoves := moved.kind == King && moved.color == Black;
    var wk := if whiteKingMoves then to else g.whiteKing;
    var bk := if blackKingMoves then to else g.blackKing;
    g.(board := b, whiteKing := wk, blackKing := bk,
       whiteKingMoved := g.whiteKingMoved || whiteKingMoves,
       blackKingMoved := g.blackKingMoved || blackKingMoves,
       selection := None, flags := UpdatedFlags(g.flags, b, wk, bk, moved.color))
  }

  /** handlePromotionChoice (ChessApp.jsx:206-233): the pending pawn's move is made with a
      piece of the chosen kind, the choice is cleared, the post-move updates run; the turn
      was already passed when the promotion became pending. */
  ghost function Promoted(g: GameState, kind: Kind): GameState
    requires g.promotion.Some?
  {
    var p := g.promotion.value;
    var promotedPiece := Piece(kind, p.selection.piece.color);
    var h := Recorded(g, Selection(p.selection.at, promotedPiece), p.to).(promotion := None);
    Settled(h, p.selection.at, p.to, promotedPiece, g.lastMove)
  }

  /** The castle branch (ChessApp.jsx:287-318): king and rook placed, the king's move
      recorded (but not appended to the history), its moved flag set, the turn passed, and
      the post-move updates run. */
  ghost function Castling(g: GameState, sel: Selection, to: Square, r: CastleResult): GameState {
    var h := g.(board := CastledBoard(g.board, sel.at, r),
                lastMove := Some(LastMove(sel.piece, sel.at, r.kingTo)),
                whiteKingMoved := g.whiteKingMoved || sel.piece.color == White,
                blackKingMoved := g.blackKingMoved || sel.piece.color == Black,
                whiteToMove := !g.whiteToMove);
    Settled(h, sel.at, to, sel.piece, g.lastMove)
  }

  /** A move attempt by the selected piece onto `to` (ChessApp.jsx:254-401). */
  ghost function Attempt(g: GameState, sel: Selection, to: Square): GameState
    requires sel.at in g.board && sel.at != to
  {
    match Decide(g.board, sel, to, g.whiteToMove, g.whiteKing, g.blackKing,
                 g.whiteKingMoved, g.blackKingMoved, g.lastMove)
    case NotYourTurn => g
    case Illegal => g
    case Castled(r) => Castling(g, sel, to, r)
    case PromotionPending => g.(promotion := Some(Promotion(sel, to)), whiteToMove := !g.whiteToMove)
    case Moved => Settled(Recorded(g, sel, to).(whiteToMove := !g.whiteToMove), sel.at, to, sel.piece, g.lastMove)
  }

  /** A click with a piece selected (ChessApp.jsx:244-403): on the selected square it
      deselects, on another piece of the selected colour it selects that piece, anywhere
      else it is a move attempt. */
  ghost function ClickWithSelection(g: GameState, sel: Selection, sq: Square): GameState
    requires sel.at in g.board
  {
    if sel.at == sq then g.(selection := None)
    else if sq in g.board && g.board[sq].color == sel.piece.color then g.(selection := Some(Selection(sq, g.board[sq])))
    else Attempt(g, sel, sq)
  }

  /** handleSquareClick (ChessApp.jsx:235-415): nothing once the game is over; with a piece
      selected, see ClickWithSelection; with nothing selected, a click on a piece of the
      colour to move selects it. */
  ghost function Click(g: GameState, sq: Square): GameState
    requires Consistent(g)
  {
    if GameOver(g.flags) then g
    else match g.selection
      case Some(sel) => ClickWithSelection(g, sel, sq)
      case None =>
        if sq in g.board && g.board[sq].color == ColorToMove(g.whiteToMove) then g.(selection := Some(Selection(sq, g.board[sq])))
        else g
  }

  // Properties of a click

  /** Each colour has exactly one king, standing on the square cached for it. */
  predicate KingsInPlace(g: GameState) {
    g.whiteKing in g.board && g.board[g.whiteKing] == Piece(King, White)
    && g.blackKing in g.board && g.board[g.blackKing] == Piece(King, Black)
    && forall s :: s in g.board && g.board[s].kind == King ==> s == OwnKing(g.board[s].color, g.whiteKing, g.blackKing)
  }

  /** The last move, if any, was made by the side not to move. */
  predicate LastMoveByOpponent(g: GameState) {
    g.lastMove.Some? ==> g.lastMove.value.piece.color != ColorToMove(g.whiteToMove)
  }

  /** The post-move updates after a move that landed on `to` keep the state consistent. */
  lemma SettledKeepsConsistent(g: GameState, from: Square, to: Square, moved: Piece, prevLast: Option<LastMove>)
    requires |g.history| == g.moveCount + 1
    requires g.lastMove.Some? && g.lastMove.value.end == to && to in g.board && g.board[to] == g.lastMove.value.piece
    requires g.promotion.Some? ==> g.promotion.value.selection.at != g.promotion.value.to
    ensures Consistent(Settled(g, from, to, moved, prevLast))
  {
    assert CaptureSquare(to, moved.color) != to;
  }

  /** A castle the source accepts keeps the state consistent. */
  lemma CastlingKeepsConsistent(g: GameState, sel: Selection, sq: Square, kingPos: Square, moved: bool)
    requires Consistent(g) && sel.at in g.board && sel.at != sq && g.board[sel.at] == sel.piece
    requires sel.piece.kind == King
    requires Castle(g.board, sel.at, sq, kingPos, sel.piece.color, moved).Some?
    ensures Consistent(Castling(g, sel, sq, Castle(g.board, sel.at, sq, kingPos, sel.piece.color, moved).value))
  {
    var r := Castle(g.board, sel.at, sq, kingPos, sel.piece.color, moved).value;
    CastleMovesKingAndRook(g.board, sel.at, sq, kingPos, sel.piece.color, moved);
    var h := g.(board := CastledBoard(g.board, sel.at, r),
                lastMove := Some(LastMove(sel.piece, sel.at, r.kingTo)),
                whiteKingMoved := g.whiteKingMoved || sel.piece.color == White,
                blackKingMoved := g.blackKingMoved || sel.piece.color == Black,
                whiteToMove := !g.whiteToMove);
    SettledKeepsConsistent(h, sel.at, sq, sel.piece, g.lastMove);
  }

  /** An ordinary move keeps the state consistent. */
  lemma MovingKeepsConsistent(g: GameState, sel: Selection, sq: Square)
    requires Consistent(g) && sel.at != sq
    ensures Consistent(Settled(Recorded(g, sel, sq).(whiteToMove := !g.whiteToMove), sel.at, sq, sel.piece, g.lastMove))
  {
    SettledKeepsConsistent(Recorded(g, sel, sq).(whiteToMove := !g.whiteToMove), sel.at, sq, sel.piece, g.lastMove);
  }

  /** A move attempt keeps the state consistent. */
  lemma {:induction false} AttemptKeepsConsistent(g: GameState, sel: Selection, sq: Square)
    requires Consistent(g) && sel.at in g.board && sel.at != sq && g.board[sel.at] == sel.piece
    ensures Consistent(Attempt(g, sel, sq))
  {
    var color := sel.piece.color;
    var kingPos := OwnKing(color, g.whiteKing, g.blackKing);
    var moved := if color == White then g.whiteKingMoved else g.blackKingMoved;
    var o := Decide(g.board, sel, sq, g.whiteToMove, g.whiteKing, g.blackKing,
                    g.whiteKingMoved, g.blackKingMoved, g.lastMove);
    if o.Castled? {
      CastlingKeepsConsistent(g, sel, sq, kingPos, moved);
    } else if o.Moved? {
      MovingKeepsConsistent(g, sel, sq);
    }
  }

  /** A click keeps the history, the selection, the last move and a pending promotion
      consistent with the board. */
  lemma {:induction false} ClickKeepsConsistent(g: GameState, sq: Square)
    requires Consistent(g)
    ensures Consistent(Click(g, sq))
  {
    if !GameOver(g.flags) && g.selection.Some? {
      var sel := g.selection.value;
      if sel.at != sq && !(sq in g.board && g.board[sq].color == sel.piece.color) {
        AttemptKeepsConsistent(g, sel, sq);
      }
    }
  }

  /** The promotion choice keeps the state consistent. */
  lemma PromotionKeepsConsistent(g: GameState, kind: Kind)
    requires Consistent(g) && g.promotion.Some?
    ensures Consistent(Promoted(g, kind))
  {
    var p := g.promotion.value;
    var promotedPiece := Piece(kind, p.selection.piece.color);
    var h := Recorded(g, Selection(p.selection.at, promotedPiece), p.to).(promotion := None);
    SettledKeepsConsistent(h, p.selection.at, p.to, promotedPiece, g.lastMove);
  }

  /** The promotion choice puts a piece of the chosen kind and the pawn's colour on the
      destination, empties the pawn's square, records the move and clears the choice,
      without passing the turn again. */
  lemma PromotionPlacesChosenPiece(g: GameState, kind: Kind)
    requires g.promotion.Some? && g.promotion.value.selection.at != g.promotion.value.to
    ensures var p, h := g.promotion.value, Promoted(g, kind);
      var promotedPiece := Piece(kind, p.selection.piece.color);
      p.to in h.board && h.board[p.to] == promotedPiece && p.selection.at !in h.board
      && h.lastMove == Some(LastMove(promotedPiece, p.selection.at, p.to))
      && h.moveCount == g.moveCount + 1 && h.promotion == None && h.whiteToMove == g.whiteToMove
  {
    var p := g.promotion.value;
    assert CaptureSquare(p.to, p.selection.piece.color) != p.to;
  }

  /** The post-move updates change only the moving side's king square and moved flag, and
      only when a king moved: it then stands on the destination and counts as moved. */
  lemma KingMoveUpdatesOwnSide(g: GameState, from: Square, to: Square, moved: Piece, prevLast: Option<LastMove>)
    ensures var h := Settled(g, from, to, moved, prevLast);
      var other := if moved.color == White then Black else White;
      OwnKing(other, h.whiteKing, h.blackKing) == OwnKing(other, g.whiteKing, g.blackKing)
      && (moved.color == White ==> h.blackKingMoved == g.blackKingMoved)
      && (moved.color == Black ==> h.whiteKingMoved == g.whiteKingMoved)
      && (moved.kind == King ==>
            OwnKing(moved.color, h.whiteKing, h.blackKing) == to
            && (if moved.color == White then h.whiteKingMoved else h.blackKingMoved))
      && (moved.kind != King ==>
            h.whiteKing == g.whiteKing && h.blackKing == g.blackKing
            && h.whiteKingMoved == g.whiteKingMoved && h.blackKingMoved == g.blackKingMoved)
  {
  }

  /** A click that changes the board was a move of the selected piece, whose colour was the
      one to move, and it passes the turn. */
  lemma {:induction false} OnlyTheSideToMoveMoves(g: GameState, sq: Square)
    requires Consistent(g)
    requires Click(g, sq).board != g.board
    ensures !GameOver(g.flags) && g.selection.Some?
    ensures g.selection.value.piece.color == ColorToMove(g.whiteToMove)
    ensures Click(g, sq).whiteToMove == !g.whiteToMove
  {
    var sel := g.selection.value;
    assert Click(g, sq) == ClickWithSelection(g, sel, sq);
    assert sel.at != sq && !(sq in g.board && g.board[sq].color == sel.piece.color);
    assert Click(g, sq) == Attempt(g, sel, sq);
    var o := Decide(g.board, sel, sq, g.whiteToMove, g.whiteKing, g.blackKing,
                    g.whiteKingMoved, g.blackKingMoved, g.lastMove);
    assert o.Castled? || o.Moved?;
  }

  /** A click passes the turn exactly when it is a move attempt by the selected piece, with
      the game not over, that castles, moves, or makes a promotion pending; a deselect, a
      reselect, a refused or not-your-turn attempt, a first selection and any click after
      the game ended keep the turn. */
  lemma {:induction false} TurnPassesOnlyOnAMove(g: GameState, sq: Square)
    requires Consistent(g)
    ensures Click(g, sq).whiteToMove != g.whiteToMove <==>
      !GameOver(g.flags) && g.selection.Some? && g.selection.value.at != sq
      && !(sq in g.board && g.board[sq].color == g.selection.value.piece.color)
      && Decide(g.board, g.selection.value, sq, g.whiteToMove, g.whiteKing, g.blackKing,
                g.whiteKingMoved, g.blackKingMoved, g.lastMove) !in {NotYourTurn, Illegal}
  {
    if !GameOver(g.flags) && g.selection.Some? {
      var sel := g.selection.value;
      assert Click(g, sq) == ClickWithSelection(g, sel, sq);
      if sel.at != sq && !(sq in g.board && g.board[sq].color == sel.piece.color) {
        assert Click(g, sq) == Attempt(g, sel, sq);
      }
    }
  }

  /** The board and king squares an ordinary move leaves. */
  lemma MovedState(g: GameState, sel: Selection, sq: Square)
    requires sel.at in g.board && g.board[sel.at] == sel.piece && sel.at != sq
    ensures var h := Settled(Recorded(g, sel, sq).(whiteToMove := !g.whiteToMove), sel.at, sq, sel.piece, g.lastMove);
      h.board == ResultBoard(g.board, sel.at, sq, g.lastMove)
      && OwnKing(sel.piece.color, h.whiteKing, h.blackKing)
         == if sel.piece.kind == King then sq else OwnKing(sel.piece.color, g.whiteKing, g.blackKing)
  {
    assert g.board[sq := sel.piece] - {sel.at} == MovedBoard(g.board, sel.at, sq);
  }

  /** A click that counts a move is an ordinary move of the selected piece. */
  lemma {:induction false} ClickCountingAMove(g: GameState, sq: Square)
    requires Consistent(g) && Click(g, sq).moveCount != g.moveCount
    ensures !GameOver(g.flags) && g.selection.Some?
    ensures var sel := g.selection.value;
      sel.at != sq && CanLand(g.board, sq, sel.piece.color)
      && Decide(g.board, sel, sq, g.whiteToMove, g.whiteKing, g.blackKing,
                g.whiteKingMoved, g.blackKingMoved, g.lastMove) == Moved
      && Click(g, sq) == Settled(Recorded(g, sel, sq).(whiteToMove := !g.whiteToMove), sel.at, sq, sel.piece, g.lastMove)
  {
    var sel := g.selection.value;
    assert sel.at != sq && !(sq in g.board && g.board[sq].color == sel.piece.color);
    assert Click(g, sq) == Attempt(g, sel, sq);
  }

  /** After a click that makes an ordinary move, the mover's king stands on its cached
      square and is not in check there. */
  lemma {:induction false} MoverKingSafeAfterClick(g: GameState, sq: Square)
    requires Consistent(g) && KingsInPlace(g) && LastMoveByOpponent(g)
    requires Click(g, sq).moveCount != g.moveCount
    ensures var h := Click(g, sq);
      var mover := ColorToMove(g.whiteToMove);
      var k := OwnKing(mover, h.whiteKing, h.blackKing);
      k in h.board && h.board[k] == Piece(King, mover) && !InCheck(h.board, k)
  {
    ClickCountingAMove(g, sq);
    var sel := g.selection.value;
    MovedState(g, sel, sq);
    AcceptedMoveKeepsKingSafe(g.board, sel, sq, g.whiteToMove, g.whiteKing, g.blackKing,
                              g.whiteKingMoved, g.blackKingMoved, g.lastMove);
  }

  // The component state

  /** ChessApp's state hooks as fields, updated in place by its handlers. */
  class Game {
    var board: Board
    var history: seq<Board>
    var moveCount: nat
    var selection: Option<Selection>
    var whiteToMove: bool
    var whiteKing: Square
    var blackKing: Square
    var whiteKingMoved: bool
    var blackKingMoved: bool
    var lastMove: Option<LastMove>
    var promotion: Option<Promotion>
    var flags: Flags

    ghost function State(): GameState
      reads this
    {
      GameState(board, history, moveCount, selection, whiteToMove, whiteKing, blackKing,
                whiteKingMoved, blackKingMoved, lastMove, promotion, flags)
    }

    ghost predicate Valid()
      reads this
    {
      Consistent(State())
    }

    constructor()
      ensures State() == Initial() && Valid()
    {
      board := InitialBoard();
      history := [InitialBoard()];
      moveCount := 0;
      selection := None;
      whiteToMove := true;
      whiteKing := Square(7, 4);
      blackKing := Square(0, 4);
      whiteKingMoved := false;
      blackKingMoved := false;
      lastMove := None;
      promotion := None;
      flags := Flags(false, false, false, false);
    }

    /** handleMove. */
    method HandleMove(sel: Selection, to: Square)
      modifies this
      ensures State() == Recorded(old(State()), sel, to)
    {
      var newBoard := board[to := sel.piece] - {sel.at};
      board := newBoard;
      history := history + [newBoard];
      moveCount := moveCount + 1;
      lastMove := Some(LastMove(sel.piece, sel.at, to));
    }

    /** postMoveUpdates, run once the moved board is in place. */
    method PostMoveUpdates(from: Square, to: Square, moved: Piece, prevLast: Option<LastMove>)
      modifies this
      ensures State() == Settled(old(State()), from, to, moved, prevLast)
    {
      board := Captured(board, moved, from, to, prevLast);
      if moved.kind == King {
        if moved.color == White {
          whiteKingMoved := true;
          whiteKing := to;
        } else {
          blackKingMoved := true;
          blackKing := to;
        }
      }
      selection := None;
      flags := UpdateFlags(flags, board, whiteKing, blackKing, moved.color);
    }

    /** handlePromotionChoice: the pending pawn move is made with the chosen kind. */
    method HandlePromotionChoice(kind: Kind)
      requires promotion.Some?
      modifies this
      ensures State() == Promoted(old(State()), kind)
      ensures old(Valid()) ==> Valid()
    {
      var p := promotion.value;
      var promotedPiece := Piece(kind, p.selection.piece.color);
      var prevLast := lastMove;
      HandleMove(Selection(p.selection.at, promotedPiece), p.to);
      promotion := None;
      PostMoveUpdates(p.selection.at, p.to, promotedPiece, prevLast);
      if old(Valid()) {
        PromotionKeepsConsistent(old(State()), kind);
      }
    }

    /** The castle branch of handleSquareClick. */
    method CastleKing(sel: Selection, to: Square, r: CastleResult)
      modifies this
      ensures State() == Castling(old(State()), sel, to, r)
    {
      var prevLast := lastMove;
      board := CastledBoard(board, sel.at, r);
      lastMove := Some(LastMove(sel.piece, sel.at, r.kingTo));
      if sel.piece.color == White {
        whiteKingMoved := true;
      } else {
        blackKingMoved := true;
      }
      whiteToMove := !whiteToMove;
      PostMoveUpdates(sel.at, to, sel.piece, prevLast);
    }

    /** The move-attempt branch of handleSquareClick. */
    method AttemptMove(sel: Selection, to: Square)
      requires sel.at in board && sel.at != to
      modifies this
      ensures State() == Attempt(old(State()), sel, to)
    {
      var outcome := DecideMove(board, sel, to, whiteToMove, whiteKing, blackKing,
                                whiteKingMoved, blackKingMoved, lastMove);
      match outcome
      case NotYourTurn =>
      case Illegal =>
      case Castled(r) =>
        CastleKing(sel, to, r);
      case PromotionPending =>
        promotion := Some(Promotion(sel, to));
        whiteToMove := !whiteToMove;
      case Moved =>
        var prevLast := lastMove;
        HandleMove(sel, to);
        whiteToMove := !whiteToMove;
        PostMoveUpdates(sel.at, to, sel.piece, prevLast);
    }

    /** The branch of handleSquareClick with a piece selected. */
    method ClickSelected(sel: Selection, sq: Square)
      requires sel.at in board
      modifies this
      ensures State() == ClickWithSelection(old(State()), sel, sq)
    {
      if sel.at == sq {
        selection := None;
      } else if sq in board && board[sq].color == sel.piece.color {
        selection := Some(Selection(sq, board[sq]));
      } else {
        AttemptMove(sel, sq);
      }
    }

    /** handleSquareClick. */
    method HandleSquareClick(sq: Square)
      requires Valid()
      modifies this
      ensures State() == Click(old(State()), sq)
      ensures Valid()
    {
      ClickKeepsConsistent(State(), sq);
      if GameOver(flags) {
        return;
      }
      if selection.Some? {
        ClickSelected(selection.value, sq);
      } else if sq in board && board[sq].color == ColorToMove(whiteToMove) {
        selection := Some(Selection(sq, board[sq]));
      }
    }
  }
}
