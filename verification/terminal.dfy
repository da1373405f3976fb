/** Move enumeration, stalemate and checkmate detection of GameLogic.js. */
module TerminalStates {
  import opened BoardModel
  import opened Movement
  import opened CheckDetection

  /** A king step: one of the eight neighbouring squares. */
  predicate KingStep(k: Square, n: Square) {
    n != k && Abs(n.row - k.row) <= 1 && Abs(n.col - k.col) <= 1
  }

  /** The eight offsets of the knight list in getPossibleMoves. */
  const KnightOffsets: seq<(int, int)> :=
    [(2, 1), (2, -1), (-2, 1), (-2, -1), (1, 2), (1, -2), (-1, 2), (-1, -2)]

  /** The eight offsets of the king list in getPossibleMoves. */
  const KingOffsets: seq<(int, int)> :=
    [(1, 0), (-1, 0), (0, 1), (0, -1), (1, 1), (1, -1), (-1, 1), (-1, -1)]

  /** The eight offsets of the king list in isKingInCheckmate. */
  const MateOffsets: seq<(int, int)> :=
    [(-1, 0), (1, 0), (0, -1), (0, 1), (-1, -1), (-1, 1), (1, -1), (1, 1)]

  function Offset(s: Square, d: (int, int)): Square {
    Square(s.row + d.0, s.col + d.1)
  }

  lemma KnightOffsetsComplete(s: Square, m: Square)
    ensures KnightMove(s, m) <==> (m.row - s.row, m.col - s.col) in KnightOffsets
  {
  }

  lemma KingOffsetsComplete(s: Square, m: Square)
    ensures KingStep(s, m) <==> (m.row - s.row, m.col - s.col) in KingOffsets
    ensures KingStep(s, m) <==> (m.row - s.row, m.col - s.col) in MateOffsets
  {
  }

  /** A destination a rook on s would be offered: along its row or column, not s itself. */
  ghost predicate RookCandidate(b: Board, s: Square, color: Color, m: Square) {
    ((m.col == s.col && m.row != s.row) || (m.row == s.row && m.col != s.col))
    && RookMove(b, s, m, color)
  }

  ghost predicate BishopCandidate(b: Board, s: Square, m: Square) {
    m != s && BishopMove(b, s, m)
  }

  /** The destinations getPossibleMoves offers for a piece of the given kind and colour
      on s: on-board squares its validator accepts among the rays (rook, bishop, queen)
      or fixed offsets (knight, king, pawn single steps) the source enumerates.
      A pawn's two-row advance is never offered. */
  ghost predicate Candidate(b: Board, s: Square, kind: Kind, color: Color, wk: Square, bk: Square, m: Square)
    requires s in b
  {
    OnBoard(m) &&
    match kind
    case Rook => RookCandidate(b, s, color, m)
    case Bishop => BishopCandidate(b, s, m)
    case Queen => RookCandidate(b, s, color, m) || BishopCandidate(b, s, m)
    case Knight => KnightMove(s, m)
    case Pawn => m.row == s.row + Direction(color) && Abs(m.col - s.col) <= 1 && PawnMove(b, s, m, color)
    case King => KingStep(s, m) && KingMove(b, s, m, wk, bk)
  }

  /** The rook case of getPossibleMoves: every square of s's column, then of its row. */
  method RookMoves(b: Board, s: Square, color: Color) returns (moves: seq<Square>)
    requires OnBoard(s)
    ensures forall m :: m in moves <==> OnBoard(m) && RookCandidate(b, s, color, m)
  {
    moves := [];
    var i := 0;
    while i < 8
      invariant 0 <= i <= 8
      invariant forall m :: m in moves <==>
        OnBoard(m) && RookCandidate(b, s, color, m) && (if m.col == s.col then m.row < i else m.col < i)
    {
      if i != s.row {
        var ok := ValidateRookMove(b, s, Square(i, s.col), color);
        if ok {
          moves := moves + [Square(i, s.col)];
        }
      }
      if i != s.col {
        var ok := ValidateRookMove(b, s, Square(s.row, i), color);
        if ok {
          moves := moves + [Square(s.row, i)];
        }
      }
      i := i + 1;
    }
  }

  /** The bishop case of getPossibleMoves: the four diagonals, distance 1 to 7. */
  method BishopMoves(b: Board, s: Square) returns (moves: seq<Square>)
    requires OnBoard(s)
    ensures forall m :: m in moves <==> OnBoard(m) && BishopCandidate(b, s, m)
  {
    moves := [];
    var i := 1;
    while i < 8
      invariant 1 <= i <= 8
      invariant forall m :: m in moves <==>
        OnBoard(m) && BishopCandidate(b, s, m) && Abs(m.row - s.row) < i
    {
      var diagonals := [Square(s.row + i, s.col + i), Square(s.row + i, s.col - i),
                        Square(s.row - i, s.col + i), Square(s.row - i, s.col - i)];
      var j := 0;
      while j < 4
        invariant 0 <= j <= 4
        invariant forall m :: m in moves <==>
          OnBoard(m) && BishopCandidate(b, s, m) && (Abs(m.row - s.row) < i || m in diagonals[..j])
      {
        var d := diagonals[j];
        if OnBoard(d) {
          var ok := ValidateBishopMove(b, s, d);
          if ok {
            moves := moves + [d];
          }
        }
        assert diagonals[..j + 1] == diagonals[..j] + [d];
        j := j + 1;
      }
      DiagonalsAtDistance(b, s, i, diagonals);
      i := i + 1;
    }
  }

  /** The four squares at distance i on the diagonals of s hold every bishop candidate at
      that distance. */
  lemma DiagonalsAtDistance(b: Board, s: Square, i: int, diagonals: seq<Square>)
    requires diagonals == [Square(s.row + i, s.col + i), Square(s.row + i, s.col - i),
                           Square(s.row - i, s.col + i), Square(s.row - i, s.col - i)]
    ensures forall m :: OnBoard(m) && Abs(m.row - s.row) == i && BishopCandidate(b, s, m) ==> m in diagonals
  {
    forall m | OnBoard(m) && Abs(m.row - s.row) == i && BishopCandidate(b, s, m)
      ensures m in diagonals
    {
      assert m == Square(s.row + (m.row - s.row), s.col + (m.col - s.col));
    }
  }

  /** The knight case of getPossibleMoves. */
  method KnightMoves(s: Square) returns (moves: seq<Square>)
    ensures forall m :: m in moves <==> OnBoard(m) && KnightMove(s, m)
  {
    moves := [];
    var i := 0;
    while i < 8
      invariant 0 <= i <= 8
      invariant forall m :: m in moves <==>
        OnBoard(m) && KnightMove(s, m) && (m.row - s.row, m.col - s.col) in KnightOffsets[..i]
    {
      var m := Offset(s, KnightOffsets[i]);
      if OnBoard(m) && KnightMove(s, m) {
        moves := moves + [m];
      }
      assert KnightOffsets[..i + 1] == KnightOffsets[..i] + [KnightOffsets[i]];
      i := i + 1;
    }
    forall m ensures m in moves <==> OnBoard(m) && KnightMove(s, m) {
      KnightOffsetsComplete(s, m);
    }
  }

  /** The pawn case of getPossibleMoves: straight ahead and the two forward diagonals. */
  method PawnMoves(b: Board, s: Square, color: Color) returns (moves: seq<Square>)
    ensures forall m :: m in moves <==>
      OnBoard(m) && m.row == s.row + Direction(color) && Abs(m.col - s.col) <= 1 && PawnMove(b, s, m, color)
  {
    moves := [];
    var direction := Direction(color);
    var ahead := Square(s.row + direction, s.col);
    if OnBoard(ahead) && PawnMove(b, s, ahead, color) {
      moves := moves + [ahead];
    }
    var right := Square(s.row + direction, s.col + 1);
    if OnBoard(right) && PawnMove(b, s, right, color) {
      moves := moves + [right];
    }
    var left := Square(s.row + direction, s.col - 1);
    if OnBoard(left) && PawnMove(b, s, left, color) {
      moves := moves + [left];
    }
  }

  /** The king case of getPossibleMoves. */
  method KingMoves(b: Board, s: Square, wk: Square, bk: Square) returns (moves: seq<Square>)
    requires s in b
    ensures forall m :: m in moves <==> OnBoard(m) && KingStep(s, m) && KingMove(b, s, m, wk, bk)
  {
    moves := [];
    var i := 0;
    while i < 8
      invariant 0 <= i <= 8
      invariant forall m :: m in moves ==> OnBoard(m) && KingStep(s, m) && KingMove(b, s, m, wk, bk)
      invariant forall j :: 0 <= j < i ==> var m := Offset(s, KingOffsets[j]);
        OnBoard(m) && KingMove(b, s, m, wk, bk) ==> m in moves
    {
      var m := Offset(s, KingOffsets[i]);
      KingOffsetsComplete(s, m);
      if OnBoard(m) {
        var ok := ValidateKingMove(b, s, m, wk, bk);
        if ok {
          moves := moves + [m];
        }
      }
      i := i + 1;
    }
    forall m | OnBoard(m) && KingStep(s, m) && KingMove(b, s, m, wk, bk)
      ensures m in moves
    {
      KingOffsetsComplete(s, m);
      var j :| 0 <= j < 8 && KingOffsets[j] == (m.row - s.row, m.col - s.col);
      assert Offset(s, KingOffsets[j]) == m;
    }
  }

  /** getPossibleMoves: exactly the candidate destinations. */
  method GetPossibleMoves(b: Board, s: Square, kind: Kind, color: Color, wk: Square, bk: Square)
    returns (moves: seq<Square>)
    requires s in b && OnBoard(s)
    ensures forall m :: m in moves <==> Candidate(b, s, kind, color, wk, bk, m)
  {
    match kind
    case Rook => moves := RookMoves(b, s, color);
    case Bishop => moves := BishopMoves(b, s);
    case Queen =>
      var rookMoves := RookMoves(b, s, color);
      var bishopMoves := BishopMoves(b, s);
      moves := rookMoves + bishopMoves;
    case Knight => moves := KnightMoves(s);
    case Pawn => moves := PawnMoves(b, s, color);
    case King => moves := KingMoves(b, s, wk, bk);
  }

  /** No destination offered for the piece on s, if it has colour `color`, avoids
      exposing the king square kingPos. */
  ghost predicate NoSafeMoveFrom(b: Board, s: Square, color: Color, kingPos: Square, wk: Square, bk: Square) {
    s in b && b[s].color == color ==>
      forall m :: Candidate(b, s, b[s].kind, color, wk, bk, m) ==> Exposes(b, s, m, kingPos)
  }

  /** checkForStalemate: no piece of `color` has an offered destination that does not
      expose kingPos, and kingPos is not in check. */
  ghost predicate Stalemate(b: Board, kingPos: Square, color: Color, wk: Square, bk: Square) {
    (forall r, c :: 0 <= r < 8 && 0 <= c < 8 ==> NoSafeMoveFrom(b, Square(r, c), color, kingPos, wk, bk))
    && !InCheck(b, kingPos)
  }

  /** The inner loop of checkForStalemate for one piece. */
  method HasSafeMove(b: Board, s: Square, color: Color, kingPos: Square, wk: Square, bk: Square)
    returns (found: bool)
    requires s in b && OnBoard(s) && b[s].color == color
    ensures found == !NoSafeMoveFrom(b, s, color, kingPos, wk, bk)
  {
    var possibleMoves := GetPossibleMoves(b, s, b[s].kind, color, wk, bk);
    var i := 0;
    while i < |possibleMoves|
      invariant 0 <= i <= |possibleMoves|
      invariant forall j :: 0 <= j < i ==> Exposes(b, s, possibleMoves[j], kingPos)
    {
      var exposed := DoesMoveExposeKing(s, possibleMoves[i], b, color, kingPos);
      if !exposed {
        return true;
      }
      i := i + 1;
    }
    return false;
  }

  /** checkForStalemate. */
  method CheckForStalemate(b: Board, kingPos: Square, color: Color, wk: Square, bk: Square)
    returns (stalemate: bool)
    ensures stalemate == Stalemate(b, kingPos, color, wk, bk)
  {
    var row := 0;
    while row < 8
      invariant 0 <= row <= 8
      invariant forall r, c :: 0 <= r < row && 0 <= c < 8 ==> NoSafeMoveFrom(b, Square(r, c), color, kingPos, wk, bk)
    {
      var col := 0;
      while col < 8
        invariant 0 <= col <= 8
        invariant forall r, c :: 0 <= r < row && 0 <= c < 8 ==> NoSafeMoveFrom(b, Square(r, c), color, kingPos, wk, bk)
        invariant forall c :: 0 <= c < col ==> NoSafeMoveFrom(b, Square(row, c), color, kingPos, wk, bk)
      {
        var s := Square(row, col);
        if s in b && b[s].color == color {
          var found := HasSafeMove(b, s, color, kingPos, wk, bk);
          if found {
            return false;
          }
        }
        col := col + 1;
      }
      row := row + 1;
    }
    var check := IsKingInCheck(b, kingPos);
    return !check;
  }

  /** The closure isMoveValid of isKingInCheckmate: after the trial move, the moved king's
      square (or kingPos, when the piece moved is not a king) is not in check. */
  ghost predicate EscapesTo(b: Board, k: Square, n: Square) {
    var t := MovedBoard(b, k, n);
    !InCheck(t, KingAfter(t, n, k))
  }

  /** isKingInCheckmate, first loop: no neighbouring on-board square that is empty or
      holds the other colour lets the king escape. */
  ghost predicate NoKingEscape(b: Board, k: Square)
    requires k in b
  {
    forall n :: KingStep(k, n) && OnBoard(n) && CanLand(b, n, b[k].color) ==> !EscapesTo(b, k, n)
  }

  /** isKingInCheckmate, last loop: the piece on s, if it has the king's colour, cannot
      move onto the square of any piece threatening k and leave k out of check there.
      Moving between a threat and the king is never tried. A king is never a blocker. */
  ghost predicate CannotBlock(b: Board, s: Square, k: Square)
    requires k in b
  {
    s in b && b[s].color == b[k].color ==>
      forall t :: OnBoard(t) && Attacks(b, t, k) ==> !Blocks(b, s, t, k)
  }

  /** isKingInCheckmate: k holds a piece, it has no escape square, and no piece of its
      colour can capture a threatening piece on its square. Check itself is not required. */
  ghost predicate Checkmate(b: Board, k: Square) {
    k in b && NoKingEscape(b, k)
    && forall r, c :: 0 <= r < 8 && 0 <= c < 8 ==> CannotBlock(b, Square(r, c), k)
  }

  /** The closure isMoveValid of isKingInCheckmate. */
  method IsMoveValid(b: Board, k: Square, n: Square) returns (ok: bool)
    ensures ok == EscapesTo(b, k, n)
  {
    var tempBoard := MovedBoard(b, k, n);
    var newKingPosition := if n in tempBoard && tempBoard[n].kind == King then n else k;
    var check := IsKingInCheck(tempBoard, newKingPosition);
    return !check;
  }

  /** The first loop of isKingInCheckmate. */
  method KingCanEscape(b: Board, k: Square) returns (escapes: bool)
    requires k in b
    ensures escapes == !NoKingEscape(b, k)
  {
    var i := 0;
    while i < 8
      invariant 0 <= i <= 8
      invariant forall j :: 0 <= j < i ==> var n := Offset(k, MateOffsets[j]);
        !(OnBoard(n) && CanLand(b, n, b[k].color) && EscapesTo(b, k, n))
    {
      var n := Offset(k, MateOffsets[i]);
      if OnBoard(n) && CanLand(b, n, b[k].color) {
        var valid := IsMoveValid(b, k, n);
        if valid {
          KingOffsetsComplete(k, n);
          return true;
        }
      }
      i := i + 1;
    }
    forall n | KingStep(k, n) && OnBoard(n) && CanLand(b, n, b[k].color)
      ensures !EscapesTo(b, k, n)
    {
      KingOffsetsComplete(k, n);
      var j :| 0 <= j < 8 && MateOffsets[j] == (n.row - k.row, n.col - k.col);
      assert Offset(k, MateOffsets[j]) == n;
    }
    return false;
  }

  /** The second loop of isKingInCheckmate: the threatening pieces, collected with push. */
  method ThreateningPieces(b: Board, k: Square) returns (threats: seq<Square>)
    requires k in b
    ensures forall t :: t in threats <==> OnBoard(t) && Attacks(b, t, k)
  {
    threats := [];
    var row := 0;
    while row < 8
      invariant 0 <= row <= 8
      invariant forall t :: t in threats <==> OnBoard(t) && t.row < row && Attacks(b, t, k)
    {
      var col := 0;
      while col < 8
        invariant 0 <= col <= 8
        invariant forall t :: t in threats <==>
          OnBoard(t) && (t.row < row || (t.row == row && t.col < col)) && Attacks(b, t, k)
      {
        var s := Square(row, col);
        if s in b && b[s].color != b[k].color {
          var threatening := IsThreateningPiece(b, s, k);
          if threatening {
            threats := threats + [s];
          }
        }
        col := col + 1;
      }
      row := row + 1;
    }
  }

  /** The innermost loop of isKingInCheckmate for one piece of the king's colour. */
  method CanBlockAny(b: Board, s: Square, threats: seq<Square>, k: Square) returns (blocks: bool)
    requires k in b && s in b && b[s].color == b[k].color
    requires forall t :: t in threats ==> Attacks(b, t, k)
    ensures blocks == exists t :: t in threats && Blocks(b, s, t, k)
  {
    var i := 0;
    while i < |threats|
      invariant 0 <= i <= |threats|
      invariant forall j :: 0 <= j < i ==> !Blocks(b, s, threats[j], k)
    {
      assert Attacks(b, threats[i], k);
      var block := IsBlockingMove(b, s, threats[i], k);
      if block {
        return true;
      }
      i := i + 1;
    }
    return false;
  }

  /** isKingInCheckmate. */
  method IsKingInCheckmate(b: Board, k: Square) returns (mate: bool)
    ensures mate == Checkmate(b, k)
  {
    if k !in b {
      return false;
    }
    var escapes := KingCanEscape(b, k);
    if escapes {
      return false;
    }
    var threats := ThreateningPieces(b, k);
    var row := 0;
    while row < 8
      invariant 0 <= row <= 8
      invariant forall r, c :: 0 <= r < row && 0 <= c < 8 ==> CannotBlock(b, Square(r, c), k)
    {
      var col := 0;
      while col < 8
        invariant 0 <= col <= 8
        invariant forall r, c :: 0 <= r < row && 0 <= c < 8 ==> CannotBlock(b, Square(r, c), k)
        invariant forall c :: 0 <= c < col ==> CannotBlock(b, Square(row, c), k)
      {
        var s := Square(row, col);
        if s in b && b[s].color == b[k].color {
          var blocks := CanBlockAny(b, s, threats, k);
          if blocks {
            return false;
          }
        }
        col := col + 1;
      }
      row := row + 1;
    }
    return true;
  }
}
