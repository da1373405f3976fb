/** The per-piece movement validators of GameLogic.js. Each decides whether a piece
    could go from one square to another on a board, ignoring check. */
module Movement {
  import opened BoardModel

  predicate Between(x: int, a: int, b: int) {
    a < x < b || b < x < a
  }

  /** No piece stands on `row` strictly between columns c1 and c2. */
  ghost predicate RowClear(b: Board, row: int, c1: int, c2: int) {
    forall c :: Between(c, c1, c2) ==> Square(row, c) !in b
  }

  /** No piece stands in column `col` strictly between rows r1 and r2. */
  ghost predicate ColClear(b: Board, col: int, r1: int, r2: int) {
    forall r :: Between(r, r1, r2) ==> Square(r, col) !in b
  }

  /** Rook geometry: a shared row or column, a clear path, and a destination that
      is empty or holds the other colour than `color`. */
  ghost predicate RookMove(b: Board, s: Square, e: Square, color: Color) {
    if s.row == e.row then RowClear(b, s.row, s.col, e.col) && CanLand(b, e, color)
    else if s.col == e.col then ColClear(b, s.col, s.row, e.row) && CanLand(b, e, color)
    else false
  }

  /** The coordinate i steps from a towards b. */
  function Toward(a: int, b: int, i: int): int {
    if a < b then a + i else a - i
  }

  /** The i-th square on the diagonal walk from s towards e. */
  function DiagonalSquare(s: Square, e: Square, i: int): Square {
    Square(Toward(s.row, e.row, i), Toward(s.col, e.col, i))
  }

  ghost predicate DiagonalClear(b: Board, s: Square, e: Square) {
    forall i :: 1 <= i < Abs(s.row - e.row) ==> DiagonalSquare(s, e, i) !in b
  }

  /** Bishop geometry: equal row and column distances and a clear diagonal.
      The occupant of the destination is never looked at. */
  ghost predicate BishopMove(b: Board, s: Square, e: Square) {
    Abs(s.row - e.row) == Abs(s.col - e.col) && DiagonalClear(b, s, e)
  }

  /** validateKnightMove (GameLogic.js:49-58): it takes the board but never reads it. */
  predicate KnightMove(s: Square, e: Square) {
    var dr, dc := Abs(s.row - e.row), Abs(s.col - e.col);
    (dr == 2 && dc == 1) || (dr == 1 && dc == 2)
  }

  /** validatePawnMove (GameLogic.js:60-98): one step onto an empty square, two steps
      from the home row over an empty square onto an empty square, or one diagonal
      step onto a piece of the other colour. */
  predicate PawnMove(b: Board, s: Square, e: Square, color: Color) {
    var d := Direction(color);
    (s.row + d == e.row && s.col == e.col && e !in b)
    || (s.row == HomeRow(color) && s.row + 2 * d == e.row && s.col == e.col
        && e !in b && Square(s.row + d, e.col) !in b)
    || (s.row + d == e.row && Abs(s.col - e.col) == 1 && e in b && b[e].color != color)
  }

  /** Queen: false on an empty start square, otherwise a rook move for the colour of the
      piece on s or a bishop move. */
  ghost predicate QueenMove(b: Board, s: Square, e: Square) {
    s in b && (RookMove(b, s, e, b[s].color) || BishopMove(b, s, e))
  }

  /** isThreateningPiece (GameLogic.js:312-328): the validator of the piece's own kind
      accepts s to e; a king threatens nothing. */
  ghost predicate Threatens(b: Board, s: Square, e: Square)
    requires s in b
  {
    match b[s].kind
    case Rook => RookMove(b, s, e, b[s].color)
    case Bishop => BishopMove(b, s, e)
    case Queen => QueenMove(b, s, e)
    case Knight => KnightMove(s, e)
    case Pawn => PawnMove(b, s, e, b[s].color)
    case King => false
  }

  /** validateRookMove. The source's walk never meets the end column when s == e,
      so callers never pass equal squares. */
  method ValidateRookMove(b: Board, s: Square, e: Square, color: Color) returns (ok: bool)
    requires s != e
    ensures ok == RookMove(b, s, e, color)
  {
    if s.row == e.row {
      var step := if s.col < e.col then 1 else -1;
      var col := s.col + step;
      while col != e.col
        invariant step == 1 ==> s.col < col <= e.col
        invariant step == -1 ==> e.col <= col < s.col
        invariant forall c :: Between(c, s.col, col) ==> Square(s.row, c) !in b
        decreases Abs(e.col - col)
      {
        if Square(s.row, col) in b {
          assert Between(col, s.col, e.col);
          return false;
        }
        col := col + step;
      }
      return CanLand(b, e, color);
    }
    if s.col == e.col {
      var step := if s.row < e.row then 1 else -1;
      var row := s.row + step;
      while row != e.row
        invariant step == 1 ==> s.row < row <= e.row
        invariant step == -1 ==> e.row <= row < s.row
        invariant forall r :: Between(r, s.row, row) ==> Square(r, s.col) !in b
        decreases Abs(e.row - row)
      {
        if Square(row, s.col) in b {
          assert Between(row, s.row, e.row);
          return false;
        }
        row := row + step;
      }
      return CanLand(b, e, color);
    }
    return false;
  }

  /** validateBishopMove. */
  method ValidateBishopMove(b: Board, s: Square, e: Square) returns (ok: bool)
    ensures ok == BishopMove(b, s, e)
  {
    var rowDiff := Abs(s.row - e.row);
    var colDiff := Abs(s.col - e.col);
    if rowDiff == colDiff {
      var i := 1;
      while i < rowDiff
        invariant 1 <= i
        invariant forall j :: 1 <= j < i ==> DiagonalSquare(s, e, j) !in b
      {
        if DiagonalSquare(s, e, i) in b {
          return false;
        }
        i := i + 1;
      }
      return true;
    }
    return false;
  }

  /** validateQueenMove. */
  method ValidateQueenMove(b: Board, s: Square, e: Square) returns (ok: bool)
    requires s != e
    ensures ok == QueenMove(b, s, e)
  {
    if s !in b {
      return false;
    }
    ok := ValidateRookMove(b, s, e, b[s].color);
    if !ok {
      ok := ValidateBishopMove(b, s, e);
    }
  }

  /** isThreateningPiece. */
  method IsThreateningPiece(b: Board, s: Square, e: Square) returns (ok: bool)
    requires s in b && s != e
    ensures ok == Threatens(b, s, e)
  {
    match b[s].kind
    case Rook => ok := ValidateRookMove(b, s, e, b[s].color);
    case Bishop => ok := ValidateBishopMove(b, s, e);
    case Queen => ok := ValidateQueenMove(b, s, e);
    case Knight => ok := KnightMove(s, e);
    case Pawn => ok := PawnMove(b, s, e, b[s].color);
    case King => ok := false;
  }

  // Properties of the validators

  /** A rook move depends on the destination's occupant only through its colour:
      the destination is not on the path. */
  lemma {:induction false} RookMoveIgnoresPathEnd(b: Board, s: Square, e: Square, color: Color, p: Piece)
    requires p.color != color
    ensures RookMove(b[e := p], s, e, color) == RookMove(b - {e}, s, e, color)
  {
    if s.row == e.row {
      assert forall c :: Between(c, s.col, e.col) ==> Square(s.row, c) != e;
    } else if s.col == e.col {
      assert forall r :: Between(r, s.row, e.row) ==> Square(r, s.col) != e;
    }
  }

  /** The diagonal walk stays strictly before the destination, so a bishop move does not
      depend on what occupies the destination. */
  lemma {:induction false} BishopIgnoresDestination(b: Board, s: Square, e: Square, p: Piece)
    ensures BishopMove(b[e := p], s, e) == BishopMove(b, s, e)
    ensures BishopMove(b - {e}, s, e) == BishopMove(b, s, e)
  {
    forall i | 1 <= i < Abs(s.row - e.row)
      ensures DiagonalSquare(s, e, i) != e
    {
    }
  }

  /** A knight move changes both the row and the column, by three squares in all. */
  lemma KnightMoveOffsets(s: Square, e: Square)
    ensures KnightMove(s, e) <==>
      s.row != e.row && s.col != e.col && Abs(s.row - e.row) + Abs(s.col - e.col) == 3
  {
  }

  /** A knight always lands on a square of the other shade. */
  lemma KnightChangesShade(s: Square, e: Square)
    requires KnightMove(s, e)
    ensures (s.row + s.col) % 2 != (e.row + e.col) % 2
  {
  }

  /** A pawn only moves forward, by one row or by two rows from its home row, and only
      enters an occupied square diagonally, capturing the other colour. */
  lemma PawnMoveShape(b: Board, s: Square, e: Square, color: Color)
    requires PawnMove(b, s, e, color)
    ensures e.row == s.row + Direction(color)
         || (s.row == HomeRow(color) && e.row == s.row + 2 * Direction(color))
    ensures e in b ==> Abs(s.col - e.col) == 1 && b[e].color != color
    ensures e !in b ==> s.col == e.col
  {
  }

  /** A queen move is along a row, a column or a diagonal. */
  lemma QueenMoveIsLine(b: Board, s: Square, e: Square)
    requires QueenMove(b, s, e)
    ensures s.row == e.row || s.col == e.col || Abs(s.row - e.row) == Abs(s.col - e.col)
  {
  }
}
