/** The values the rule engine works on: pieces, squares and boards.
    Row 0 is Black's back rank and row 7 White's; column 0 is file a. */
module BoardModel {

  datatype Option<T> = None | Some(value: T)

  datatype Color = White | Black

  datatype Kind = Pawn | Knight | Bishop | Rook | Queen | King

  /** A piece is only its kind and colour; identity is not tracked across moves. */
  datatype Piece = Piece(kind: Kind, color: Color)

  datatype Square = Square(row: int, col: int)

  /** A board maps every occupied square to its piece; a square that is not a key is empty.
      Every write in the source happens on a fresh copy, so a board is a plain value here. */
  type Board = map<Square, Piece>

  predicate OnBoard(s: Square) {
    0 <= s.row < 8 && 0 <= s.col < 8
  }

  function Abs(x: int): nat {
    if x < 0 then -x else x
  }

  /** The row step of a pawn: White advances towards row 0, Black towards row 7. */
  function Direction(c: Color): int {
    if c == White then -1 else 1
  }

  /** The row a pawn of colour c starts on. */
  function HomeRow(c: Color): int {
    if c == White then 6 else 1
  }

  /** The destination is empty or holds a piece of the other colour. */
  predicate CanLand(b: Board, e: Square, c: Color) {
    e !in b || b[e].color != c
  }

  /** The scratch copy the source makes to try a move: the occupant of s (or nothing)
      is written to e, then s is cleared. */
  function MovedBoard(b: Board, s: Square, e: Square): (r: Board)
    ensures s !in r
    ensures s != e ==> (e in r <==> s in b) && (s in b ==> r[e] == b[s])
    ensures forall x :: x != s && x != e ==> (x in r <==> x in b) && (x in r ==> r[x] == b[x])
  {
    (if s in b then b[e := b[s]] else b - {e}) - {s}
  }
}
