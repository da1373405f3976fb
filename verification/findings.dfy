/** Concrete positions on which the source's rules, as written, differ from what they
    evidently intend, next to the corrected rules the game model uses. */
module Findings {
  import opened BoardModel
  import opened Movement
  import opened CheckDetection
  import opened SpecialMoves
  import opened TerminalStates
  import opened ChessAppModel

  const WhiteKing := Piece(King, White)
  const WhitePawn := Piece(Pawn, White)
  const WhiteRook := Piece(Rook, White)
  const BlackKing := Piece(King, Black)
  const BlackPawn := Piece(Pawn, Black)
  const BlackRook := Piece(Rook, Black)
  const WhiteKnight := Piece(Knight, White)

  /** Black's pawn has just advanced from c7 to c5 beside White's pawn on b5; White's king
      on a5 is shielded from the rook on h5 by the two pawns. */
  function EnPassantPosition(): Board {
    map[Square(3, 0) := WhiteKing, Square(3, 1) := WhitePawn, Square(3, 2) := BlackPawn,
        Square(3, 7) := BlackRook, Square(0, 4) := BlackKing]
  }

  const DoubleStep := LastMove(BlackPawn, Square(1, 2), Square(3, 2))

  /** On the source's scratch board the pawn on c5 still shields the king. */
  lemma ScratchBoardShieldsKing()
    ensures !Exposes(EnPassantPosition(), Square(3, 1), Square(2, 2), Square(3, 0))
  {
    var t := MovedBoard(EnPassantPosition(), Square(3, 1), Square(2, 2));
    assert t == map[Square(3, 0) := WhiteKing, Square(2, 2) := WhitePawn, Square(3, 2) := BlackPawn,
                     Square(3, 7) := BlackRook, Square(0, 4) := BlackKing];
    forall x | x in t
      ensures !Attacks(t, x, Square(3, 0))
    {
      ScratchAttacker(x);
    }
  }

  /** No piece of the scratch copy after b5-c6 attacks a5. */
  lemma ScratchAttacker(x: Square)
    ensures var t := map[Square(3, 0) := WhiteKing, Square(2, 2) := WhitePawn, Square(3, 2) := BlackPawn,
                         Square(3, 7) := BlackRook, Square(0, 4) := BlackKing];
      !Attacks(t, x, Square(3, 0))
  {
    var t := map[Square(3, 0) := WhiteKing, Square(2, 2) := WhitePawn, Square(3, 2) := BlackPawn,
                 Square(3, 7) := BlackRook, Square(0, 4) := BlackKing];
    if x == Square(3, 7) {
      assert Square(3, 2) in t && Between(2, 7, 0);
    }
  }

  /** With the captured pawn removed, the rook on h5 attacks the king along the rank. */
  lemma CaptureOpensTheRank()
    ensures InCheck(ResultBoard(EnPassantPosition(), Square(3, 1), Square(2, 2), Some(DoubleStep)), Square(3, 0))
  {
    var u := ResultBoard(EnPassantPosition(), Square(3, 1), Square(2, 2), Some(DoubleStep));
    assert u == map[Square(3, 0) := WhiteKing, Square(2, 2) := WhitePawn,
                     Square(3, 7) := BlackRook, Square(0, 4) := BlackKing];
    assert Attacks(u, Square(3, 7), Square(3, 0));
  }

  /** A latent defect: the source's acceptance test accepts the en passant capture b5xc6,
      because its scratch board keeps the captured pawn, yet the board such a capture is
      meant to leave, with both pawns gone from the fifth rank, has White's king in check
      from the rook. The defect shows once the removal of the captured pawn takes effect
      (see CapturedPawnSurvives); the corrected test refuses the capture. */
  lemma EnPassantIntoDiscoveredCheck()
    ensures var b, s, e, k := EnPassantPosition(), Square(3, 1), Square(2, 2), Square(3, 0);
      Accepts(b, s, e, k, Square(0, 4), Some(DoubleStep))
      && !Exposes(b, s, e, k)
      && InCheck(ResultBoard(b, s, e, Some(DoubleStep)), k)
      && LeavesKingInCheck(b, s, e, k, Some(DoubleStep))
  {
    ScratchBoardShieldsKing();
    CaptureOpensTheRank();
  }

  /** White's king on e1 with the rook on h1 may castle short, although Black's rook on f8
      attacks f1, the square the king crosses; the corrected castle refuses. */
  lemma CastleThroughAttackedSquare()
    ensures var b := map[Square(7, 4) := WhiteKing, Square(7, 7) := WhiteRook,
                         Square(0, 5) := BlackRook, Square(0, 0) := BlackKing];
      Castle(b, Square(7, 4), Square(7, 6), Square(7, 4), White, false)
        == Some(CastleResult(Square(7, 6), Square(7, 5)))
      && InCheck(MovedBoard(b, Square(7, 4), Square(7, 5)), Square(7, 5))
      && SafeCastle(b, Square(7, 4), Square(7, 6), Square(7, 4), White, false) == None
  {
    var b := map[Square(7, 4) := WhiteKing, Square(7, 7) := WhiteRook,
                 Square(0, 5) := BlackRook, Square(0, 0) := BlackKing];
    var s := Square(7, 4);
    forall r, c | 0 <= r < 8 && 0 <= c < 8
      ensures !Attacks(b, Square(r, c), s)
    {
    }
    assert TransitNotInCheck(b, 7, 4, 6);
    var t := MovedBoard(b, s, Square(7, 5));
    assert t == map[Square(7, 5) := WhiteKing, Square(7, 7) := WhiteRook,
                    Square(0, 5) := BlackRook, Square(0, 0) := BlackKing];
    assert Attacks(t, Square(0, 5), Square(7, 5));
    assert KingVisits(s, Square(7, 6), 5);
  }

  /** The en passant removal as the effect of ChessApp.jsx runs it: the effect belongs to
      the render in which lastMove already records the move just made, so the test compares
      the move with itself, and the captured pawn is never removed. */
  function EffectRemovalAsWritten(b: Board, moved: Piece, from: Square, to: Square): (r: Board)
    ensures r == b
  {
    Captured(b, moved, from, to, Some(LastMove(moved, from, to)))
  }

  /** After White's en passant capture b5xc6, the effect as written leaves Black's pawn on
      c5, still shielding White's king, while the corrected update, which compares with
      Black's advance, removes it and opens the rank to the rook. */
  lemma CapturedPawnSurvives()
    ensures var s, e := Square(3, 1), Square(2, 2);
      var b := MovedBoard(EnPassantPosition(), s, e);
      var asWritten := EffectRemovalAsWritten(b, WhitePawn, s, e);
      var corrected := Captured(b, WhitePawn, s, e, Some(DoubleStep));
      asWritten[Square(3, 2)] == BlackPawn && !InCheck(asWritten, Square(3, 0))
      && Square(3, 2) !in corrected && InCheck(corrected, Square(3, 0))
  {
    ScratchBoardShieldsKing();
    CaptureOpensTheRank();
  }

  /** White: king h1, pawns g2 and h2, knight d3. Black: rook a1, king a8. The rook checks
      along the first rank. */
  function BackRankPosition(): Board {
    map[Square(7, 7) := WhiteKing, Square(6, 6) := WhitePawn, Square(6, 7) := WhitePawn,
        Square(5, 3) := WhiteKnight, Square(7, 0) := BlackRook, Square(0, 0) := BlackKing]
  }

  /** On the back-rank position only the rook on a1 gives check to h1. */
  lemma BackRankCheckers()
    ensures Attacks(BackRankPosition(), Square(7, 0), Square(7, 7))
    ensures forall t :: Attacks(BackRankPosition(), t, Square(7, 7)) ==> t == Square(7, 0)
  {
    var b, k := BackRankPosition(), Square(7, 7);
    assert Attacks(b, Square(7, 0), k);
    forall t | Attacks(b, t, k)
      ensures t == Square(7, 0)
    {
    }
  }

  /** The only neighbour of h1 that is empty or holds a Black piece is g1. */
  lemma BackRankOnlyLanding(n: Square)
    requires KingStep(Square(7, 7), n) && OnBoard(n) && CanLand(BackRankPosition(), n, White)
    ensures n == Square(7, 6)
  {
    assert n.row == 6 || n.row == 7;
    assert n.col == 6 || n.col == 7;
  }

  /** With the king moved to g1, the rook on a1 attacks it. */
  lemma BackRankG1Attacked()
    ensures !EscapesTo(BackRankPosition(), Square(7, 7), Square(7, 6))
  {
    var t := MovedBoard(BackRankPosition(), Square(7, 7), Square(7, 6));
    assert t == map[Square(7, 6) := WhiteKing, Square(6, 6) := WhitePawn, Square(6, 7) := WhitePawn,
                    Square(5, 3) := WhiteKnight, Square(7, 0) := BlackRook, Square(0, 0) := BlackKing];
    assert Attacks(t, Square(7, 0), Square(7, 6));
  }

  /** On the back-rank position the king on h1 has no escape square. */
  lemma BackRankNoEscape()
    ensures NoKingEscape(BackRankPosition(), Square(7, 7))
  {
    var b, k := BackRankPosition(), Square(7, 7);
    BackRankG1Attacked();
    forall n | KingStep(k, n) && OnBoard(n) && CanLand(b, n, White)
      ensures !EscapesTo(b, k, n)
    {
      BackRankOnlyLanding(n);
    }
  }

  /** With the knight moved from d3 to c1, the rook no longer reaches h1. */
  lemma KnightShieldsBackRank()
    ensures !InCheck(MovedBoard(BackRankPosition(), Square(5, 3), Square(7, 2)), Square(7, 7))
  {
    var k := Square(7, 7);
    var u := MovedBoard(BackRankPosition(), Square(5, 3), Square(7, 2));
    assert u == map[Square(7, 7) := WhiteKing, Square(6, 6) := WhitePawn, Square(6, 7) := WhitePawn,
                    Square(7, 2) := WhiteKnight, Square(7, 0) := BlackRook, Square(0, 0) := BlackKing];
    forall x | x in u
      ensures !Attacks(u, x, k)
    {
      if x == Square(7, 0) {
        assert Square(7, 2) in u && Between(2, 0, 7);
      }
    }
  }

  /** No white piece can move onto a1 and capture the checking rook. */
  lemma BackRankNoCapture()
    ensures forall r, c :: 0 <= r < 8 && 0 <= c < 8 ==> CannotBlock(BackRankPosition(), Square(r, c), Square(7, 7))
  {
    BackRankCheckers();
  }

  /** isKingInCheckmate only tries moving a piece onto a threatening piece's square, never
      between it and the king: it declares mate although the knight can go from d3 to c1
      and shield the king. */
  lemma MateWithoutInterposition()
    ensures var b, k := BackRankPosition(), Square(7, 7);
      InCheck(b, k) && Checkmate(b, k)
      && KnightMove(Square(5, 3), Square(7, 2)) && !InCheck(MovedBoard(b, Square(5, 3), Square(7, 2)), k)
  {
    var b, k := BackRankPosition(), Square(7, 7);
    BackRankCheckers();
    BackRankNoEscape();
    KnightShieldsBackRank();
    BackRankNoCapture();
  }

  /** White: king a1, pawn a2. Black: pawn a3, king c2. White to move has no legal move:
      b1 and b2 touch Black's king, a2 holds White's own pawn, and the pawn is blocked. */
  function CorneredPosition(): Board {
    map[Square(7, 0) := WhiteKing, Square(6, 0) := WhitePawn,
        Square(5, 0) := BlackPawn, Square(6, 2) := BlackKing]
  }

  /** Nothing on the cornered position attacks a1 or a2. */
  lemma CorneredKingUnattacked()
    ensures !InCheck(CorneredPosition(), Square(7, 0))
    ensures !InCheck(CorneredPosition(), Square(6, 0))
  {
    var b := CorneredPosition();
    forall x | x in b
      ensures !Attacks(b, x, Square(7, 0)) && !Attacks(b, x, Square(6, 0))
    {
    }
  }

  /** The king step a1-a2 onto White's own pawn is offered and leaves the king unattacked. */
  lemma KingStepOntoOwnPawn()
    ensures Candidate(CorneredPosition(), Square(7, 0), King, White, Square(7, 0), Square(6, 2), Square(6, 0))
    ensures !Exposes(CorneredPosition(), Square(7, 0), Square(6, 0), Square(7, 0))
  {
    var b := CorneredPosition();
    CorneredKingUnattacked();
    var t := MovedBoard(b, Square(7, 0), Square(6, 0));
    assert t == map[Square(6, 0) := WhiteKing, Square(5, 0) := BlackPawn, Square(6, 2) := BlackKing];
    forall x | x in t
      ensures !Attacks(t, x, Square(6, 0))
    {
    }
  }

  /** checkForStalemate offers the king moves onto its own pieces, so it misses the
      stalemate of the cornered position: the step a1-a2 onto White's own pawn counts as
      a safe move, although White has no legal move and is not in check. */
  lemma StalemateMissedOwnPieceStep()
    ensures var b, k, bk := CorneredPosition(), Square(7, 0), Square(6, 2);
      !InCheck(b, k)
      && (forall s, m :: s in b && b[s].color == White && Candidate(b, s, b[s].kind, White, k, bk, m)
            ==> m in b && b[m].color == White)
      && !Stalemate(b, k, White, k, bk)
  {
    var b, k, bk := CorneredPosition(), Square(7, 0), Square(6, 2);
    CorneredKingUnattacked();
    KingStepOntoOwnPawn();
    assert !NoSafeMoveFrom(b, k, White, k, k, bk);
    forall s, m | s in b && b[s].color == White && Candidate(b, s, b[s].kind, White, k, bk, m)
      ensures m in b && b[m].color == White
    {
      CorneredOffersOwnSquares(s, m);
    }
  }

  /** On the cornered position, a White piece is offered only the square of White's pawn. */
  lemma CorneredOffersOwnSquares(s: Square, m: Square)
    requires var b := CorneredPosition();
      s in b && b[s].color == White && Candidate(b, s, b[s].kind, White, Square(7, 0), Square(6, 2), m)
    ensures m == Square(6, 0)
  {
    if s == Square(6, 0) {
      assert m.row == 5;
    } else {
      assert s == Square(7, 0) && KingStep(s, m);
    }
  }
}
