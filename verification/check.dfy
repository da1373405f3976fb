/** Check detection, king moves and the scratch-board move simulations of GameLogic.js. */
module CheckDetection {
  import opened BoardModel
  import opened Movement

  /** The piece on s is of the other colour than the piece on k and its validator
      reaches k (the closure isThreatenedByPiece). */
  ghost predicate Attacks(b: Board, s: Square, k: Square) {
    s in b && k in b && b[s].color != b[k].color && Threatens(b, s, k)
  }

  /** isKingInCheck: an empty square is never in check; otherwise some piece of the other
      colour on the 8x8 grid reaches the square with its own validator. */
  ghost predicate InCheck(b: Board, k: Square) {
    k in b && exists r, c :: 0 <= r < 8 && 0 <= c < 8 && Attacks(b, Square(r, c), k)
  }

  /** The closure isThreatenedByPiece of isKingInCheck. */
  method IsThreatenedByPiece(b: Board, s: Square, k: Square) returns (ok: bool)
    requires k in b
    ensures ok == Attacks(b, s, k)
  {
    if s !in b || b[s].color == b[k].color {
      return false;
    }
    ok := IsThreateningPiece(b, s, k);
  }

  /** isKingInCheck, scanning all 64 squares. */
  method IsKingInCheck(b: Board, k: Square) returns (ok: bool)
    ensures ok == InCheck(b, k)
  {
    if k !in b {
      return false;
    }
    var row := 0;
    while row < 8
      invariant 0 <= row <= 8
      invariant forall r, c :: 0 <= r < row && 0 <= c < 8 ==> !Attacks(b, Square(r, c), k)
    {
      var col := 0;
      while col < 8
        invariant 0 <= col <= 8
        invariant forall r, c :: 0 <= r < row && 0 <= c < 8 ==> !Attacks(b, Square(r, c), k)
        invariant forall c :: 0 <= c < col ==> !Attacks(b, Square(row, c), k)
      {
        var threatened := IsThreatenedByPiece(b, Square(row, col), k);
        if threatened {
          return true;
        }
        col := col + 1;
      }
      row := row + 1;
    }
    return false;
  }

  /** Two squares at most one row and one column apart. */
  predicate Adjacent(e: Square, k: Square) {
    Abs(e.row - k.row) <= 1 && Abs(e.col - k.col) <= 1
  }

  /** validateKingMove: one step in any direction, not next to the other colour's cached
      king square, and the destination not in check (which only bites on an occupied
      destination, since an empty square is never in check). */
  ghost predicate KingMove(b: Board, s: Square, e: Square, wk: Square, bk: Square)
    requires s in b
  {
    var otherKing := if b[s].color == White then bk else wk;
    Adjacent(s, e) && !Adjacent(e, otherKing) && !InCheck(b, e)
  }

  /** validateKingMove. The source reads the colour of the start square's piece. */
  method ValidateKingMove(b: Board, s: Square, e: Square, wk: Square, bk: Square) returns (ok: bool)
    requires s in b
    ensures ok == KingMove(b, s, e, wk, bk)
  {
    var isValidMove := Abs(s.row - e.row) <= 1 && Abs(s.col - e.col) <= 1;
    if isValidMove {
      if b[s].color == White && Adjacent(e, bk) {
        return false;
      }
      if b[s].color == Black && Adjacent(e, wk) {
        return false;
      }
    }
    var check := IsKingInCheck(b, e);
    return isValidMove && !check;
  }

  /** The king square to test after a trial move: the destination when a king was moved,
      the cached square otherwise. */
  function KingAfter(t: Board, e: Square, kingPos: Square): Square {
    if e in t && t[e].kind == King then e else kingPos
  }

  /** doesMoveExposeKing: on the scratch copy with s moved to e, the king square is in check.
      A captured en passant pawn stays on the scratch copy. */
  ghost predicate Exposes(b: Board, s: Square, e: Square, kingPos: Square) {
    var t := MovedBoard(b, s, e);
    InCheck(t, KingAfter(t, e, kingPos))
  }

  /** doesMoveExposeKing. The colour parameter is never read. */
  method DoesMoveExposeKing(s: Square, e: Square, b: Board, color: Color, kingPos: Square)
    returns (exposed: bool)
    ensures exposed == Exposes(b, s, e, kingPos)
  {
    var tempBoard := b;
    if s in tempBoard {
      tempBoard := tempBoard[e := tempBoard[s]];
    } else {
      tempBoard := tempBoard - {e};
    }
    tempBoard := tempBoard - {s};
    var newKingPosition := kingPos;
    if e in tempBoard && tempBoard[e].kind == King {
      newKingPosition := e;
    }
    exposed := IsKingInCheck(tempBoard, newKingPosition);
  }

  /** isBlockingMove: the piece on s may, by its own validator, move to t, and on the
      scratch copy after that move the square k is not in check. */
  ghost predicate Blocks(b: Board, s: Square, t: Square, k: Square)
    requires s in b
  {
    Threatens(b, s, t) && !InCheck(MovedBoard(b, s, t), k)
  }

  /** isBlockingMove. */
  method IsBlockingMove(b: Board, s: Square, t: Square, k: Square) returns (ok: bool)
    requires s != t
    ensures ok == (s in b && Blocks(b, s, t, k))
  {
    if s !in b {
      return false;
    }
    var isValidMove := IsThreateningPiece(b, s, t);
    if !isValidMove {
      return false;
    }
    var tempBoard := b[t := b[s]] - {s};
    var check := IsKingInCheck(tempBoard, k);
    return !check;
  }

  // Properties of check detection

  /** An empty square is never in check, and a square is only in check through an
      attacker of the other colour that is not a king. */
  lemma InCheckWitness(b: Board, k: Square)
    ensures k !in b ==> !InCheck(b, k)
    ensures InCheck(b, k) ==>
      exists r, c :: 0 <= r < 8 && 0 <= c < 8 && Square(r, c) in b
        && b[Square(r, c)].color != b[k].color && b[Square(r, c)].kind != King
  {
  }

  /** A board on which every piece of the other colour is a king has no check at k. */
  lemma KingsNeverGiveCheck(b: Board, k: Square)
    requires k in b
    requires forall s :: s in b && b[s].color != b[k].color ==> b[s].kind == King
    ensures !InCheck(b, k)
  {
  }

  /** For a king, the exposure test checks the king's own destination on the scratch board;
      for any other piece, the cached king square. */
  lemma ExposesTestsMovedKing(b: Board, s: Square, e: Square, kingPos: Square)
    requires s in b && s != e
    ensures b[s].kind == King ==> (Exposes(b, s, e, kingPos) <==> InCheck(MovedBoard(b, s, e), e))
    ensures b[s].kind != King ==> (Exposes(b, s, e, kingPos) <==> InCheck(MovedBoard(b, s, e), kingPos))
  {
  }
}
