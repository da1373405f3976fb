/** En passant recognition, promotion trigger and castling from GameLogic.js. */
module SpecialMoves {
  import opened BoardModel
  import opened Movement
  import opened CheckDetection

  /** The record ChessApp.jsx keeps of the previous move. */
  datatype LastMove = LastMove(piece: Piece, start: Square, end: Square)

  /** isEnPassantMove (GameLogic.js:100-117): the last move was a pawn moving two rows,
      it landed on the mover's row in an adjacent column, and e is the square it passed
      over. The board is not consulted and the mover's kind is not checked. */
  predicate IsEnPassant(s: Square, e: Square, last: Option<LastMove>) {
    last.Some?
    && last.value.piece.kind == Pawn
    && Abs(last.value.start.row - last.value.end.row) == 2
    && last.value.end.row == s.row
    && Abs(last.value.end.col - s.col) == 1
    && e.row == last.value.end.row + (if last.value.piece.color == White then 1 else -1)
    && e.col == last.value.end.col
  }

  /** The square whose pawn an en passant capture by a `color` mover landing on e removes
      (ChessApp.jsx:142): one row behind e, seen from the mover. */
  function CaptureSquare(e: Square, color: Color): Square {
    Square(e.row - Direction(color), e.col)
  }

  /** pawnPromotion (GameLogic.js:623-633). */
  predicate PawnPromotion(e: Square, color: Color) {
    (color == White && e.row == 0) || (color == Black && e.row == 7)
  }

  /** When the previous move was the opponent's, an en passant move of a pawn is a
      diagonal step forward, and the capture square is exactly where the opponent's pawn
      landed. */
  lemma EnPassantCapturesTheDoubleStepper(s: Square, e: Square, m: LastMove, color: Color)
    requires IsEnPassant(s, e, Some(m))
    requires m.piece.color != color
    ensures e.row == s.row + Direction(color) && Abs(e.col - s.col) == 1
    ensures CaptureSquare(e, color) == m.end
    ensures m.piece.kind == Pawn && Abs(m.start.row - m.end.row) == 2
  {
  }

  /** Whoever made the last move, an en passant move is a one-square diagonal step onto a
      square other than the one the advanced pawn stands on. */
  lemma EnPassantIsDiagonalStep(s: Square, e: Square, last: Option<LastMove>)
    requires IsEnPassant(s, e, last)
    ensures Abs(e.row - s.row) == 1 && Abs(e.col - s.col) == 1 && e != last.value.end
  {
  }

  /** The promotion row lies six rows ahead of the pawn's home row. */
  lemma PromotionRowFacesHomeRow(e: Square, color: Color)
    ensures PawnPromotion(e, color) <==> e.row == HomeRow(color) + 6 * Direction(color)
  {
  }

  /** A pawn reaching its promotion row does so with a one-row step: the two-row advance
      from the home row never reaches it. */
  lemma PromotionFollowsSingleStep(b: Board, s: Square, e: Square, color: Color)
    requires PawnMove(b, s, e, color) && PawnPromotion(e, color)
    ensures e.row == s.row + Direction(color)
  {
  }

  /** What validateCastle returns on success. */
  datatype CastleResult = CastleResult(kingTo: Square, rookTo: Square)

  predicate RookAt(b: Board, sq: Square, color: Color) {
    sq in b && b[sq].kind == Rook && b[sq].color == color
  }

  /** The source's transit test: every column from the start column up to, but not
      including, the end column is not in check. An empty square is never in check, so
      only the start square is really examined. */
  ghost predicate TransitNotInCheck(b: Board, row: int, c1: int, c2: int) {
    forall c :: (c1 <= c < c2 || c2 < c <= c1) ==> !InCheck(b, Square(row, c))
  }

  /** validateCastle (GameLogic.js:369-439), as written. */
  ghost function Castle(b: Board, s: Square, e: Square, kingPos: Square, color: Color, moved: bool)
    : Option<CastleResult>
  {
    if moved || s.row != e.row || (e.col != 2 && e.col != 6) || InCheck(b, kingPos)
       || !RowClear(b, s.row, s.col, e.col) || !TransitNotInCheck(b, s.row, s.col, e.col) then None
    else if e.col == 2 && RookAt(b, Square(s.row, 0), color) then
      Some(CastleResult(Square(s.row, 2), Square(s.row, 3)))
    else if e.col == 6 && RookAt(b, Square(s.row, 7), color) then
      Some(CastleResult(Square(s.row, 6), Square(s.row, 5)))
    else None
  }

  /** validateCastle. Callers never pass s == e (clicking the selected square deselects). */
  method ValidateCastle(b: Board, s: Square, e: Square, kingPos: Square, color: Color, moved: bool)
    returns (r: Option<CastleResult>)
    requires s != e
    ensures r == Castle(b, s, e, kingPos, color, moved)
  {
    if moved {
      return None;
    }
    if s.row != e.row || (e.col != 2 && e.col != 6) {
      return None;
    }
    var check := IsKingInCheck(b, kingPos);
    if check {
      return None;
    }
    var step := if s.col < e.col then 1 else -1;
    var col := s.col + step;
    while col != e.col
      invariant step == 1 ==> s.col < col <= e.col
      invariant step == -1 ==> e.col <= col < s.col
      invariant forall c :: Between(c, s.col, col) ==> Square(s.row, c) !in b
      decreases Abs(e.col - col)
    {
      if Square(s.row, col) in b {
        assert Between(col, s.col, e.col);
        return None;
      }
      col := col + step;
    }
    col := s.col;
    while col != e.col
      invariant step == 1 ==> s.col <= col <= e.col
      invariant step == -1 ==> e.col <= col <= s.col
      invariant forall c :: (s.col <= c < col || col < c <= s.col) ==> !InCheck(b, Square(s.row, c))
      decreases Abs(e.col - col)
    {
      check := IsKingInCheck(b, Square(s.row, col));
      if check {
        return None;
      }
      col := col + step;
    }
    if e.col == 2 && RookAt(b, Square(s.row, 0), color) {
      return Some(CastleResult(Square(s.row, 2), Square(s.row, 3)));
    }
    if e.col == 6 && RookAt(b, Square(s.row, 7), color) {
      return Some(CastleResult(Square(s.row, 6), Square(s.row, 5)));
    }
    return None;
  }

  /** A successful castle: the king had not moved, stays on its row and is not in check,
      the squares strictly between start and target are empty, and a rook of its colour
      stands in the corner on the target's side. From the king's home column the king
      moves two columns, and the rook lands on the square the king crosses, which was empty. */
  lemma CastleSuccess(b: Board, s: Square, e: Square, kingPos: Square, color: Color, moved: bool)
    requires Castle(b, s, e, kingPos, color, moved).Some?
    ensures !moved && s.row == e.row && !InCheck(b, kingPos)
    ensures forall c :: Between(c, s.col, e.col) ==> Square(s.row, c) !in b
    ensures var r := Castle(b, s, e, kingPos, color, moved).value;
      if e.col == 2 then RookAt(b, Square(s.row, 0), color) && r == CastleResult(e, Square(s.row, 3))
      else e.col == 6 && RookAt(b, Square(s.row, 7), color) && r == CastleResult(e, Square(s.row, 5))
    ensures var r := Castle(b, s, e, kingPos, color, moved).value;
      s.col == 4 ==> Abs(e.col - s.col) == 2 && Between(r.rookTo.col, s.col, e.col) && r.rookTo !in b
  {
  }

  /** Every column the king visits after leaving its start square, the target included. */
  predicate KingVisits(s: Square, e: Square, c: int) {
    Between(c, s.col, e.col) || c == e.col
  }

  /** The king, placed on each square it visits after leaving s, is not in check there. */
  ghost predicate KingPathSafe(b: Board, s: Square, e: Square, kingPos: Square) {
    forall c :: KingVisits(s, e, c) ==> !Exposes(b, s, Square(s.row, c), kingPos)
  }

  /** Castling as evidently intended: the source's conditions, and in addition the king
      does not pass through or land on an attacked square. */
  ghost function SafeCastle(b: Board, s: Square, e: Square, kingPos: Square, color: Color, moved: bool)
    : Option<CastleResult>
  {
    if KingPathSafe(b, s, e, kingPos) then Castle(b, s, e, kingPos, color, moved) else None
  }

  /** The king, placed on each of the first i - 1 squares after s towards e, is not in check. */
  ghost predicate SafeBefore(b: Board, s: Square, e: Square, kingPos: Square, i: int) {
    forall j :: 1 <= j < i ==> !Exposes(b, s, Square(s.row, Toward(s.col, e.col, j)), kingPos)
  }

  lemma SafeBeforeIsPathSafe(b: Board, s: Square, e: Square, kingPos: Square)
    requires s.col != e.col && SafeBefore(b, s, e, kingPos, Abs(e.col - s.col) + 1)
    ensures KingPathSafe(b, s, e, kingPos)
  {
    forall c | KingVisits(s, e, c)
      ensures !Exposes(b, s, Square(s.row, c), kingPos)
    {
      assert c == Toward(s.col, e.col, Abs(c - s.col));
    }
  }

  lemma SafeBeforeStep(b: Board, s: Square, e: Square, kingPos: Square, i: int)
    requires SafeBefore(b, s, e, kingPos, i)
    requires !Exposes(b, s, Square(s.row, Toward(s.col, e.col, i)), kingPos)
    ensures SafeBefore(b, s, e, kingPos, i + 1)
  {
  }

  lemma ExposedOnPath(b: Board, s: Square, e: Square, kingPos: Square, i: int)
    requires 1 <= i <= Abs(e.col - s.col)
    requires Exposes(b, s, Square(s.row, Toward(s.col, e.col, i)), kingPos)
    ensures !KingPathSafe(b, s, e, kingPos)
  {
    assert KingVisits(s, e, Toward(s.col, e.col, i));
  }

  /** Moves the king onto each square it visits in turn and tests it on the scratch copy. */
  method IsKingPathSafe(b: Board, s: Square, e: Square, color: Color, kingPos: Square)
    returns (safe: bool)
    requires s.col != e.col
    ensures safe == KingPathSafe(b, s, e, kingPos)
  {
    var n := Abs(e.col - s.col);
    var i := 1;
    while i <= n
      invariant 1 <= i <= n + 1
      invariant SafeBefore(b, s, e, kingPos, i)
    {
      var exposed := DoesMoveExposeKing(s, Square(s.row, Toward(s.col, e.col, i)), b, color, kingPos);
      if exposed {
        ExposedOnPath(b, s, e, kingPos, i);
        return false;
      }
      SafeBeforeStep(b, s, e, kingPos, i);
      i := i + 1;
    }
    SafeBeforeIsPathSafe(b, s, e, kingPos);
    return true;
  }

  /** The corrected castle: the source's castle, then every square the king crosses or
      lands on is examined with the king standing on it. */
  method ValidateSafeCastle(b: Board, s: Square, e: Square, kingPos: Square, color: Color, moved: bool)
    returns (r: Option<CastleResult>)
    requires s != e
    ensures r == SafeCastle(b, s, e, kingPos, color, moved)
  {
    r := ValidateCastle(b, s, e, kingPos, color, moved);
    if r.Some? {
      var safe := IsKingPathSafe(b, s, e, color, kingPos);
      if !safe {
        r := None;
      }
    }
  }

  /** With a king on s, the corrected castle only succeeds when the king, moved onto any
      square it crosses or lands on, is not in check there; and it agrees with the
      source's castle whenever it succeeds. */
  lemma SafeCastleAvoidsAttackedSquares(b: Board, s: Square, e: Square, kingPos: Square, color: Color, moved: bool)
    requires s in b && b[s].kind == King && s != e
    requires SafeCastle(b, s, e, kingPos, color, moved).Some?
    ensures SafeCastle(b, s, e, kingPos, color, moved) == Castle(b, s, e, kingPos, color, moved)
    ensures forall c :: KingVisits(s, e, c) ==>
      !InCheck(MovedBoard(b, s, Square(s.row, c)), Square(s.row, c))
  {
    forall c | KingVisits(s, e, c)
      ensures !InCheck(MovedBoard(b, s, Square(s.row, c)), Square(s.row, c))
    {
      assert !Exposes(b, s, Square(s.row, c), kingPos);
      assert Square(s.row, c) != s;
    }
  }
}
