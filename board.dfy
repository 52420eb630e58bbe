/** The fields of a position as one value (the board list, the side to move,
    the castling string, the en-passant file and the two counters), the
    castling-right bookkeeping that `set` and `set_fen` perform, and the
    read-only queries get_piece_counts and get_king. */
module BoardState {
  import opened ChessTypes

  /** The 128-cell list `_board`; cell i stands for a square when IsSquare(i). */
  type Board = b: seq<Option<Piece>> | |b| == 128 witness seq(128, _ => None)

  function EmptyBoard(): (b: Board)
    ensures forall i :: 0 <= i < 128 ==> b[i] == None
  {
    seq(128, _ => None)
  }

  /** The fields of a Position: `_board`, `_turn`, `_castling`, `_ep_file`,
      `_half_moves` and `_move_number`. */
  datatype State = State(
    board: Board,
    turn: Color,
    castling: string,
    epFile: Option<char>,
    halfMoves: int,
    moveNumber: int)

  /** A freshly constructed position (Position.__init__). */
  function InitialState(): State
  {
    State(EmptyBoard(), White, "", None, 0, 1)
  }

  /** Python's `_board[i]` for -128 <= i < 128: a negative index counts from
      the end of the list. */
  function Cell(b: Board, i: int): Option<Piece>
    requires -128 <= i < 128
  {
    if i >= 0 then b[i] else b[i + 128]
  }

  /** Python's `_board[i] = v` for -128 <= i < 128. */
  function WriteCell(b: Board, i: int, v: Option<Piece>): (r: Board)
    requires -128 <= i < 128
    ensures Cell(r, i) == v
    ensures forall k :: 0 <= k < 128 && k != (if i >= 0 then i else i + 128) ==> r[k] == b[k]
  {
    if i >= 0 then b[i := v] else b[i + 128 := v]
  }

  /** The 64 cells that are not squares hold nothing. */
  predicate OffBoardEmpty(b: Board)
  {
    forall i :: 0 <= i < 128 && !IsSquare(i) ==> b[i] == None
  }

  // ---------------------------------------------------------------------
  // Castling rights

  /** The four castling types "K", "Q", "k" and "q". */
  datatype CastlingType = WhiteKingSide | WhiteQueenSide | BlackKingSide | BlackQueenSide

  function TypeLetter(t: CastlingType): char
  {
    match t
    case WhiteKingSide => 'K'
    case WhiteQueenSide => 'Q'
    case BlackKingSide => 'k'
    case BlackQueenSide => 'q'
  }

  /** The order of the source's `for type in ["K", "Q", "k", "q"]` loops. */
  function CastlingOrder(k: int): CastlingType
    requires 0 <= k < 4
  {
    [WhiteKingSide, WhiteQueenSide, BlackKingSide, BlackQueenSide][k]
  }

  lemma CastlingOrderInjective(j: int, k: int)
    requires 0 <= j < 4 && 0 <= k < 4 && j != k
    ensures CastlingOrder(j) != CastlingOrder(k)
  {
  }

  const A8: Square := 0
  const E8: Square := 4
  const H8: Square := 7
  const A1: Square := 112
  const E1: Square := 116
  const H1: Square := 119

  /** get_theoretical_castling_right: the king on e1 (e8) and the rook on
      h1 or a1 (h8 or a8). */
  predicate TheoreticalRight(b: Board, t: CastlingType)
  {
    match t
    case WhiteKingSide => b[E1] == Some(Piece(White, King)) && b[H1] == Some(Piece(White, Rook))
    case WhiteQueenSide => b[E1] == Some(Piece(White, King)) && b[A1] == Some(Piece(White, Rook))
    case BlackKingSide => b[E8] == Some(Piece(Black, King)) && b[H8] == Some(Piece(Black, Rook))
    case BlackQueenSide => b[E8] == Some(Piece(Black, King)) && b[A8] == Some(Piece(Black, Rook))
  }

  /** get_castling_right: the type letter occurs in the castling string. */
  predicate HasRight(castling: string, t: CastlingType)
  {
    TypeLetter(t) in castling
  }

  /** The castling string holding exactly the given rights, in K, Q, k, q order. */
  function RightsString(wk: bool, wq: bool, bk: bool, bq: bool): string
  {
    (if wk then "K" else "") + (if wq then "Q" else "") + (if bk then "k" else "") + (if bq then "q" else "")
  }

  lemma RightsStringRights(wk: bool, wq: bool, bk: bool, bq: bool)
    ensures var c := RightsString(wk, wq, bk, bq);
      HasRight(c, WhiteKingSide) == wk && HasRight(c, WhiteQueenSide) == wq &&
      HasRight(c, BlackKingSide) == bk && HasRight(c, BlackQueenSide) == bq
  {
    var c := RightsString(wk, wq, bk, bq);
    assert 'K' in c <==> wk;
    assert 'Q' in c <==> wq;
    assert 'k' in c <==> bk;
    assert 'q' in c <==> bq;
  }

  /** A castling string in the form the source always keeps: the held rights
      in K, Q, k, q order, each at most once. */
  predicate Canonical(c: string)
  {
    c == RightsString(HasRight(c, WhiteKingSide), HasRight(c, WhiteQueenSide),
                      HasRight(c, BlackKingSide), HasRight(c, BlackQueenSide))
  }

  lemma RightsStringCanonical(wk: bool, wq: bool, bk: bool, bq: bool)
    ensures Canonical(RightsString(wk, wq, bk, bq))
  {
    RightsStringRights(wk, wq, bk, bq);
  }

  /** Two canonical castling strings are equal exactly when they hold the
      same rights. */
  lemma CanonicalByRights(c: string, d: string)
    requires Canonical(c) && Canonical(d)
    requires forall t :: HasRight(c, t) == HasRight(d, t)
    ensures c == d
  {
  }

  /** The castling string that set_castling_right(t, status) builds: right t
      set to status, every other right as held in c, in K, Q, k, q order. */
  function WithRight(c: string, t: CastlingType, status: bool): (r: string)
    ensures Canonical(r)
    ensures HasRight(r, t) == status
    ensures forall u :: u != t ==> HasRight(r, u) == HasRight(c, u)
  {
    var wk := if t == WhiteKingSide then status else HasRight(c, WhiteKingSide);
    var wq := if t == WhiteQueenSide then status else HasRight(c, WhiteQueenSide);
    var bk := if t == BlackKingSide then status else HasRight(c, BlackKingSide);
    var bq := if t == BlackQueenSide then status else HasRight(c, BlackQueenSide);
    RightsStringCanonical(wk, wq, bk, bq);
    ChangedRight(c, t, status, wk, wq, bk, bq);
    RightsString(wk, wq, bk, bq)
  }

  /** The rights of the string WithRight builds, right by right. */
  lemma ChangedRight(c: string, t: CastlingType, status: bool, wk: bool, wq: bool, bk: bool, bq: bool)
    requires wk == if t == WhiteKingSide then status else HasRight(c, WhiteKingSide)
    requires wq == if t == WhiteQueenSide then status else HasRight(c, WhiteQueenSide)
    requires bk == if t == BlackKingSide then status else HasRight(c, BlackKingSide)
    requires bq == if t == BlackQueenSide then status else HasRight(c, BlackQueenSide)
    ensures HasRight(RightsString(wk, wq, bk, bq), t) == status
    ensures forall u :: u != t ==> HasRight(RightsString(wk, wq, bk, bq), u) == HasRight(c, u)
  {
    RightsStringRights(wk, wq, bk, bq);
    forall u ensures u != t ==> HasRight(RightsString(wk, wq, bk, bq), u) == HasRight(c, u) {
      match u
      case WhiteKingSide =>
      case WhiteQueenSide =>
      case BlackKingSide =>
      case BlackQueenSide =>
    }
    match t
    case WhiteKingSide =>
    case WhiteQueenSide =>
    case BlackKingSide =>
    case BlackQueenSide =>
  }

  /** The castling string after the loop `for type in ["K", "Q", "k", "q"]:
      if not get_theoretical_castling_right(type): set_castling_right(type,
      False)`, started at position k of that list. */
  function RederiveFrom(b: Board, c: string, k: int): string
    requires 0 <= k <= 4
    decreases 4 - k
  {
    if k == 4 then c
    else
      var t := CastlingOrder(k);
      RederiveFrom(b, if TheoreticalRight(b, t) then c else WithRight(c, t, false), k + 1)
  }

  /** The castling update that `set` and `set_fen` run after changing the board. */
  function Rederive(b: Board, c: string): string
  {
    RederiveFrom(b, c, 0)
  }

  lemma {:induction false} RederiveFromRights(b: Board, c: string, k: int)
    requires 0 <= k <= 4
    ensures var r := RederiveFrom(b, c, k);
      (forall j :: 0 <= j < k ==> HasRight(r, CastlingOrder(j)) == HasRight(c, CastlingOrder(j))) &&
      (forall j :: k <= j < 4 ==>
        HasRight(r, CastlingOrder(j)) == (HasRight(c, CastlingOrder(j)) && TheoreticalRight(b, CastlingOrder(j)))) &&
      (Canonical(c) ==> Canonical(r))
    decreases 4 - k
  {
    if k < 4 {
      var t := CastlingOrder(k);
      var c' := if TheoreticalRight(b, t) then c else WithRight(c, t, false);
      RederiveFromRights(b, c', k + 1);
      assert RederiveFrom(b, c, k) == RederiveFrom(b, c', k + 1);
      forall j | 0 <= j < 4 && j != k ensures HasRight(c', CastlingOrder(j)) == HasRight(c, CastlingOrder(j)) {
        CastlingOrderInjective(j, k);
      }
    }
  }

  /** After the update every right is held exactly when it was held before
      and the pieces allow it; the string stays in canonical order. */
  lemma RederiveRights(b: Board, c: string)
    ensures forall t :: HasRight(Rederive(b, c), t) == (HasRight(c, t) && TheoreticalRight(b, t))
    ensures Canonical(c) ==> Canonical(Rederive(b, c))
  {
    RederiveFromRights(b, c, 0);
    forall t ensures HasRight(Rederive(b, c), t) == (HasRight(c, t) && TheoreticalRight(b, t)) {
      var j := match t
        case WhiteKingSide => 0 case WhiteQueenSide => 1 case BlackKingSide => 2 case BlackQueenSide => 3;
      assert CastlingOrder(j) == t;
    }
  }

  /** Every held right is backed by the king and the rook on their home squares. */
  predicate RightsBacked(s: State)
  {
    forall t :: HasRight(s.castling, t) ==> TheoreticalRight(s.board, t)
  }

  /** When every held right is already backed, the update changes nothing. */
  lemma RederiveKeepsBacked(s: State)
    requires Canonical(s.castling) && RightsBacked(s)
    ensures Rederive(s.board, s.castling) == s.castling
  {
    RederiveRights(s.board, s.castling);
    CanonicalByRights(Rederive(s.board, s.castling), s.castling);
  }

  // ---------------------------------------------------------------------
  // Invariants

  predicate EpFileOk(ep: Option<char>)
  {
    ep.None? || 'a' <= ep.value <= 'h'
  }

  /** What every operation of the position keeps: off-board cells empty, a
      canonical castling string, a file letter for en passant and counters
      within the ranges set_fen accepts. */
  predicate Loadable(s: State)
  {
    OffBoardEmpty(s.board) && Canonical(s.castling) && EpFileOk(s.epFile) &&
    s.halfMoves >= 0 && s.moveNumber >= 1
  }

  /** A loadable position whose castling rights are all backed. */
  predicate Wf(s: State)
  {
    Loadable(s) && RightsBacked(s)
  }

  // ---------------------------------------------------------------------
  // Board writes

  /** `set(square, piece)`: write the cell, then drop the rights the pieces
      no longer allow. */
  function SetPiece(s: State, sq: Square, p: Option<Piece>): State
  {
    var b := s.board[sq := p];
    s.(board := b, castling := Rederive(b, s.castling))
  }

  /** `set` writes one cell, keeps every other field but the castling string,
      keeps a right exactly when it was held and is still backed, and keeps
      the invariants. */
  lemma SetPieceEffect(s: State, sq: Square, p: Option<Piece>)
    ensures var r := SetPiece(s, sq, p);
      r.board[sq] == p &&
      (forall i :: 0 <= i < 128 && i != sq ==> r.board[i] == s.board[i]) &&
      r.turn == s.turn && r.epFile == s.epFile &&
      r.halfMoves == s.halfMoves && r.moveNumber == s.moveNumber &&
      (forall t :: HasRight(r.castling, t) == (HasRight(s.castling, t) && TheoreticalRight(r.board, t))) &&
      RightsBacked(r) &&
      (Loadable(s) ==> Loadable(r))
  {
    var b := s.board[sq := p];
    RederiveRights(b, s.castling);
  }

  /** `clear()`: every cell empty and no castling right. */
  function Cleared(s: State): (r: State)
    ensures Loadable(s) ==> Wf(r)
  {
    assert !HasRight("", WhiteKingSide) && !HasRight("", WhiteQueenSide);
    assert !HasRight("", BlackKingSide) && !HasRight("", BlackQueenSide);
    s.(board := EmptyBoard(), castling := "")
  }

  // ---------------------------------------------------------------------
  // Piece counts and the king

  /** The colour argument of get_piece_counts: "w", "b", or "wb"/"bw". */
  datatype ColorFilter = OnlyWhite | OnlyBlack | Both

  predicate Admits(f: ColorFilter, c: Color)
  {
    match f
    case OnlyWhite => c == White
    case OnlyBlack => c == Black
    case Both => true
  }

  predicate Counted(cell: Option<Piece>, f: ColorFilter, k: Kind)
  {
    cell.Some? && Admits(f, cell.value.color) && cell.value.kind == k
  }

  /** The number of pieces of kind k admitted by f in cells[..n]. */
  function CountUpTo(cells: seq<Option<Piece>>, f: ColorFilter, k: Kind, n: int): nat
    requires 0 <= n <= |cells|
  {
    if n == 0 then 0
    else CountUpTo(cells, f, k, n - 1) + (if Counted(cells[n - 1], f, k) then 1 else 0)
  }

  /** The entry for kind k of get_piece_counts(f). */
  function Count(b: Board, f: ColorFilter, k: Kind): nat
  {
    CountUpTo(b, f, k, 128)
  }

  /** `sum(get_piece_counts(f).values())`. */
  function Total(b: Board, f: ColorFilter): nat
  {
    Count(b, f, Pawn) + Count(b, f, Knight) + Count(b, f, Bishop) +
    Count(b, f, Rook) + Count(b, f, Queen) + Count(b, f, King)
  }

  /** The cells counted for kind k under f. */
  function CountedCells(b: Board, f: ColorFilter, k: Kind, n: int): set<int>
    requires 0 <= n <= 128
  {
    set i | 0 <= i < n && Counted(b[i], f, k)
  }

  /** The counted cells among the first n are those among the first n - 1
      and, when it is counted, cell n - 1. */
  lemma CountedCellsStep(b: Board, f: ColorFilter, k: Kind, n: int)
    requires 0 < n <= 128
    ensures CountedCells(b, f, k, n) ==
      CountedCells(b, f, k, n - 1) + (if Counted(b[n - 1], f, k) then {n - 1} else {})
    ensures n - 1 !in CountedCells(b, f, k, n - 1)
  {
    var prev, cur := CountedCells(b, f, k, n - 1), CountedCells(b, f, k, n);
    var extra: set<int> := if Counted(b[n - 1], f, k) then {n - 1} else {};
    forall i ensures i in cur <==> i in prev + extra {
    }
  }

  lemma {:induction false} CountUpToIsCardinality(b: Board, f: ColorFilter, k: Kind, n: int)
    requires 0 <= n <= 128
    ensures CountUpTo(b, f, k, n) == |CountedCells(b, f, k, n)|
  {
    if n == 0 {
      assert CountedCells(b, f, k, 0) == {};
    } else {
      CountUpToIsCardinality(b, f, k, n - 1);
      CountedCellsStep(b, f, k, n);
    }
  }

  /** A count is the number of cells holding such a piece. */
  lemma CountIsCardinality(b: Board, f: ColorFilter, k: Kind)
    ensures Count(b, f, k) == |CountedCells(b, f, k, 128)|
  {
    CountUpToIsCardinality(b, f, k, 128);
  }

  lemma {:induction false} CountUpToSplit(b: Board, k: Kind, n: int)
    requires 0 <= n <= 128
    ensures CountUpTo(b, Both, k, n) == CountUpTo(b, OnlyWhite, k, n) + CountUpTo(b, OnlyBlack, k, n)
  {
    if n > 0 {
      CountUpToSplit(b, k, n - 1);
    }
  }

  /** The "wb" count is the sum of the "w" and "b" counts. */
  lemma CountSplit(b: Board, k: Kind)
    ensures Count(b, Both, k) == Count(b, OnlyWhite, k) + Count(b, OnlyBlack, k)
  {
    CountUpToSplit(b, k, 128);
  }

  lemma {:induction false} CountUpToZero(b: Board, f: ColorFilter, k: Kind, n: int)
    requires 0 <= n <= 128
    ensures CountUpTo(b, f, k, n) == 0 <==> forall i :: 0 <= i < n ==> !Counted(b[i], f, k)
  {
    if n > 0 {
      CountUpToZero(b, f, k, n - 1);
    }
  }

  /** A count is zero exactly when no cell holds such a piece. */
  lemma CountZero(b: Board, f: ColorFilter, k: Kind)
    ensures Count(b, f, k) == 0 <==> forall i :: 0 <= i < 128 ==> !Counted(b[i], f, k)
  {
    CountUpToZero(b, f, k, 128);
  }

  predicate IsKingOf(b: Board, sq: Square, c: Color)
  {
    b[sq] == Some(Piece(c, King))
  }

  /** get_king's loop over Square.get_all(), started at position k. */
  function KingFrom(b: Board, c: Color, k: int): (r: Option<Square>)
    requires 0 <= k <= 64
    ensures r.Some? ==> IsKingOf(b, r.value, c) && k <= SquareIndex(r.value)
    ensures r.Some? ==> forall j :: k <= j < SquareIndex(r.value) ==> !IsKingOf(b, SquareAt(j), c)
    ensures r.None? ==> forall j :: k <= j < 64 ==> !IsKingOf(b, SquareAt(j), c)
    decreases 64 - k
  {
    if k == 64 then None
    else if IsKingOf(b, SquareAt(k), c) then IndexOfSquareAt(k); Some(SquareAt(k))
    else KingFrom(b, c, k + 1)
  }

  /** get_king(color): the first square in Square.get_all() order that holds
      the king of that colour, or None. */
  function GetKing(b: Board, c: Color): (r: Option<Square>)
    ensures r.Some? ==> IsKingOf(b, r.value, c)
    ensures r.None? <==> forall sq: Square :: !IsKingOf(b, sq, c)
  {
    var r := KingFrom(b, c, 0);
    if r.None? then
      assert forall sq: Square :: !IsKingOf(b, sq, c) by {
        forall sq: Square ensures !IsKingOf(b, sq, c) {
          assert SquareAt(SquareIndex(sq)) == sq;
        }
      }
      r
    else r
  }

  /** One turn of get_king's loop: the square at position k if it holds the
      king, otherwise the search goes on from k + 1. */
  lemma KingFromStep(b: Board, c: Color, k: int)
    requires 0 <= k <= 64
    ensures KingFrom(b, c, k) ==
      if k == 64 then None
      else if IsKingOf(b, SquareAt(k), c) then Some(SquareAt(k))
      else KingFrom(b, c, k + 1)
  {
  }

  lemma GetKingFrom(b: Board, c: Color)
    ensures GetKing(b, c) == KingFrom(b, c, 0)
  {
  }

  /** With a single king of that colour on the board, get_king finds it. */
  lemma GetKingUnique(b: Board, c: Color, sq: Square)
    requires IsKingOf(b, sq, c)
    requires forall other: Square :: IsKingOf(b, other, c) ==> other == sq
    ensures GetKing(b, c) == Some(sq)
  {
  }
}
