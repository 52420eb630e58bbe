/** Value types the chess position works with: colours, piece kinds, pieces,
    squares of the 0x88 board and moves, plus the Option and Result wrappers
    used for the source's None values and raised errors. */
module ChessTypes {

  datatype Option<T> = None | Some(value: T)

  datatype Result<T, E> = Ok(value: T) | Err(error: E)

  datatype Color = White | Black

  /** opposite_color: "w" <-> "b". */
  function Opposite(c: Color): (r: Color)
    ensures r != c
  {
    if c == White then Black else White
  }

  /** The turn field of a FEN: 'w' or 'b'. */
  function ColorChar(c: Color): char
  {
    if c == White then 'w' else 'b'
  }

  datatype Kind = Pawn | Knight | Bishop | Rook | Queen | King

  datatype Piece = Piece(color: Color, kind: Kind)

  /** The lower-case type letter of a piece kind: p, n, b, r, q, k. */
  function KindLetter(k: Kind): char
  {
    match k
    case Pawn => 'p'
    case Knight => 'n'
    case Bishop => 'b'
    case Rook => 'r'
    case Queen => 'q'
    case King => 'k'
  }

  /** The upper-case form of a type letter, as used by SAN. */
  function Upper(c: char): char
  {
    if 'a' <= c <= 'z' then (c as int - 32) as char else c
  }

  /** One of the twelve piece letters "pnbrqkPNBRQK". */
  predicate IsPieceLetter(c: char)
  {
    c == 'p' || c == 'n' || c == 'b' || c == 'r' || c == 'q' || c == 'k' ||
    c == 'P' || c == 'N' || c == 'B' || c == 'R' || c == 'Q' || c == 'K'
  }

  /** Piece.get_symbol(): upper case for white, lower case for black. */
  function Symbol(p: Piece): (c: char)
    ensures IsPieceLetter(c)
  {
    if p.color == White then Upper(KindLetter(p.kind)) else KindLetter(p.kind)
  }

  /** Piece.from_symbol(): the inverse of Symbol on the twelve piece letters. */
  function FromSymbol(c: char): (r: Option<Piece>)
    ensures r.Some? <==> IsPieceLetter(c)
    ensures r.Some? ==> Symbol(r.value) == c
  {
    match c
    case 'p' => Some(Piece(Black, Pawn))
    case 'n' => Some(Piece(Black, Knight))
    case 'b' => Some(Piece(Black, Bishop))
    case 'r' => Some(Piece(Black, Rook))
    case 'q' => Some(Piece(Black, Queen))
    case 'k' => Some(Piece(Black, King))
    case 'P' => Some(Piece(White, Pawn))
    case 'N' => Some(Piece(White, Knight))
    case 'B' => Some(Piece(White, Bishop))
    case 'R' => Some(Piece(White, Rook))
    case 'Q' => Some(Piece(White, Queen))
    case 'K' => Some(Piece(White, King))
    case _ => None
  }

  lemma SymbolRoundTrip(p: Piece)
    ensures FromSymbol(Symbol(p)) == Some(p)
  {
    match p.kind
    case Pawn => case Knight => case Bishop => case Rook => case Queen => case King =>
  }

  /** `i & 0x88 != 0`, written with the bits of the two's complement
      representation that Python uses for every integer: bit 3 and bit 7. */
  predicate OffBoard(i: int)
  {
    (i / 8) % 2 == 1 || (i / 128) % 2 == 1
  }

  /** An index of the 128-cell list that stands for one of the 64 squares. */
  predicate IsSquare(i: int)
  {
    0 <= i < 128 && i % 16 < 8
  }

  lemma OffBoardIsNotSquare(i: int)
    requires -128 <= i < 256
    ensures OffBoard(i) <==> !IsSquare(i)
  {
  }

  /** A square, identified by its 0x88 index: index = file + 16 * (8 - rank),
      so a8 is 0, h8 is 7 and h1 is 119. */
  type Square = i: int | 0 <= i < 128 && i % 16 < 8 witness 0

  /** The file, 0 for a to 7 for h (Square.get_x). */
  function File(sq: Square): (f: int)
    ensures 0 <= f < 8
  {
    sq % 16
  }

  /** The rank, 1 to 8 (Square.get_rank). */
  function Rank(sq: Square): (r: int)
    ensures 1 <= r <= 8
    ensures sq == File(sq) + 16 * (8 - r)
  {
    8 - sq / 16
  }

  function FileLetter(sq: Square): char { ('a' as int + File(sq)) as char }

  function RankDigit(sq: Square): char { ('0' as int + Rank(sq)) as char }

  /** Square.get_name(), such as "e4". */
  function Name(sq: Square): string { [FileLetter(sq), RankDigit(sq)] }

  /** The square of a file (0..7) and rank (1..8). */
  function SquareOf(file: int, rank: int): (sq: Square)
    requires 0 <= file < 8 && 1 <= rank <= 8
    ensures File(sq) == file && Rank(sq) == rank
  {
    file + 16 * (8 - rank)
  }

  lemma NameInjective(a: Square, b: Square)
    ensures Name(a) == Name(b) <==> a == b
  {
    if Name(a) == Name(b) {
      assert FileLetter(a) == FileLetter(b) && RankDigit(a) == RankDigit(b);
      assert File(a) == File(b) && Rank(a) == Rank(b);
    }
  }

  /** Square.is_light(): h1 and a8 are light squares. */
  predicate IsLight(sq: Square) { (File(sq) + Rank(sq)) % 2 == 0 }

  /** Square.is_backrank(): the first or the eighth rank. */
  predicate IsBackrank(sq: Square) { Rank(sq) == 1 || Rank(sq) == 8 }

  /** The k-th square of Square.get_all(), in ascending index order. */
  function SquareAt(k: int): (sq: Square)
    requires 0 <= k < 64
    ensures sq == 16 * (k / 8) + k % 8
  {
    16 * (k / 8) + k % 8
  }

  /** The position of a square in Square.get_all(). */
  function SquareIndex(sq: Square): (k: int)
    ensures 0 <= k < 64 && SquareAt(k) == sq
  {
    var row, file := sq / 16, sq % 16;
    assert sq == 16 * row + file && 0 <= row < 8 && 0 <= file < 8;
    var k := 8 * row + file;
    assert k / 8 == row && k % 8 == file;
    k
  }

  /** SquareIndex undoes SquareAt. */
  lemma IndexOfSquareAt(k: int)
    requires 0 <= k < 64
    ensures SquareIndex(SquareAt(k)) == k
  {
    SquareAtInjective(SquareIndex(SquareAt(k)), k);
  }

  lemma SquareAtInjective(j: int, k: int)
    requires 0 <= j < 64 && 0 <= k < 64
    ensures SquareAt(j) == SquareAt(k) <==> j == k
  {
  }

  datatype Move = Move(source: Square, target: Square, promotion: Option<Kind>)
}
