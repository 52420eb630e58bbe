/** Move information and standard algebraic notation: get_move_info and the
    disambiguator it inserts (_get_disambiguator). Both walk the legal-move
    generator, so both can raise what it raises. */
module San {
  import opened ChessTypes
  import opened BoardState
  import opened Attacks
  import opened Moves
  import opened Fen
  import opened MoveGen
  import opened Classify

  /** Why get_move_info raises: its assertion that the move is legal fails,
      or a generator, the copy or make_move raises on the way. */
  datatype InfoError = NotLegal | Raised(stop: Stop)

  /** libchess.MoveInfo. */
  datatype MoveInfo = MoveInfo(
    move: Move,
    piece: Piece,
    captured: Option<Piece>,
    san: string,
    isEnPassant: bool,
    isKingSideCastle: bool,
    isQueenSideCastle: bool,
    isCheck: bool,
    isCheckmate: bool)

  // -----------------------------------------------------------------------
  // The disambiguator

  /** The test in _get_disambiguator's loop: m moves an equal piece from
      another square to the same target. */
  predicate Rival(b: Board, mv: Move, m: Move)
  {
    b[m.source] == b[mv.source] && m.source != mv.source && m.target == mv.target
  }

  /** Some move of ms is a rival from the same rank. */
  predicate RankRival(b: Board, mv: Move, ms: seq<Move>)
  {
    exists i :: 0 <= i < |ms| && Rival(b, mv, ms[i]) && Rank(ms[i].source) == Rank(mv.source)
  }

  /** Some move of ms is a rival from the same file. */
  predicate FileRival(b: Board, mv: Move, ms: seq<Move>)
  {
    exists i :: 0 <= i < |ms| && Rival(b, mv, ms[i]) && File(ms[i].source) == File(mv.source)
  }

  /** _get_disambiguator(mv): the source's name when rivals share its rank
      and its file, its rank digit when they share only its file, its file
      letter when they share only its rank, and nothing otherwise. The loop
      breaks off as soon as both flags are set; otherwise it runs the legal
      generator to its end and raises what the generator raises. */
  function Disambiguator(s: State, mv: Move): Result<string, Stop>
  {
    Disambiguation(s.board, mv, Legal(s))
  }

  /** The answer of _get_disambiguator once the legal moves g are known. */
  function Disambiguation(b: Board, mv: Move, g: Gen): Result<string, Stop>
  {
    var byRank, byFile := RankRival(b, mv, g.moves), FileRival(b, mv, g.moves);
    if byRank && byFile then Ok(Name(mv.source))
    else if g.stop != Exhausted then Err(g.stop)
    else if byFile then Ok([RankDigit(mv.source)])
    else if byRank then Ok([FileLetter(mv.source)])
    else Ok([])
  }

  /** d is one of the disambiguators that can be written for sq: nothing,
      its name, its file letter or its rank digit. */
  predicate Fits(d: string, sq: Square)
  {
    d == [] || d == Name(sq) || d == [FileLetter(sq)] || d == [RankDigit(sq)]
  }

  /** The disambiguator fits the move's source and fits no rival from the
      same rank or the same file, and it is empty exactly when there is no
      such rival. (A rival on another rank and another file, such as a
      second knight, is not told apart.) It raises only when the rivals do
      not share both the rank and the file, with the generator's stop. */
  lemma DisambiguatorSpec(s: State, mv: Move)
    ensures var g, r := Legal(s), Disambiguator(s, mv);
      (r.Ok? ==>
        Fits(r.value, mv.source) &&
        (r.value == [] <==> !RankRival(s.board, mv, g.moves) && !FileRival(s.board, mv, g.moves)) &&
        forall i :: 0 <= i < |g.moves| && Rival(s.board, mv, g.moves[i]) &&
          (Rank(g.moves[i].source) == Rank(mv.source) || File(g.moves[i].source) == File(mv.source))
          ==> !Fits(r.value, g.moves[i].source)) &&
      (r.Err? ==>
        r.error == g.stop && g.stop != Exhausted &&
        !(RankRival(s.board, mv, g.moves) && FileRival(s.board, mv, g.moves)))
  {
    var g, r := Legal(s), Disambiguator(s, mv);
    if r.Ok? {
      forall i | 0 <= i < |g.moves| && Rival(s.board, mv, g.moves[i]) &&
          (Rank(g.moves[i].source) == Rank(mv.source) || File(g.moves[i].source) == File(mv.source))
        ensures !Fits(r.value, g.moves[i].source)
      {
        var a, o := mv.source, g.moves[i].source;
        NameInjective(a, o);
        assert a == File(a) + 16 * (8 - Rank(a)) && o == File(o) + 16 * (8 - Rank(o));
      }
    }
  }

  // -----------------------------------------------------------------------
  // The SAN text

  /** The upper-case type letter, none for a pawn. */
  function PieceLetter(k: Kind): string
  {
    if k == Pawn then "" else [Upper(KindLetter(k))]
  }

  /** On a capture: the pawn's source file, then "x". */
  function CapturePart(piece: Piece, capture: bool, src: Square): string
  {
    if capture then (if piece.kind == Pawn then [FileLetter(src)] else "") + "x" else ""
  }

  /** "=" and the upper-case promotion type. */
  function PromotionPart(p: Option<Kind>): string
  {
    if p.Some? then "=" + [Upper(KindLetter(p.value))] else ""
  }

  /** The SAN of a move that is not castling, before the check marks. */
  function SanBody(piece: Piece, d: string, capture: bool, mv: Move): string
  {
    PieceLetter(piece.kind) + d + CapturePart(piece, capture, mv.source) + Name(mv.target) + PromotionPart(mv.promotion)
  }

  /** "#" for mate, else "+" for check; then " (e.p.)" for en passant. */
  function Marks(mate: bool, check: bool, ep: bool): string
  {
    (if mate then "#" else if check then "+" else "") + (if ep then " (e.p.)" else "")
  }

  /** The part of get_move_info after the move was made on the copy, giving
      `after`: the piece and the capture are read from the board b before
      the move; an en-passant capture takes a pawn of the side to move
      afterwards; a king moving two files castles; the check and the mate
      are those of `after`, and the disambiguator is asked for only when the
      move is no castling. */
  function Describe(b: Board, mv: Move, after: State, mate: Result<bool, Stop>, d: Result<string, Stop>): Result<MoveInfo, InfoError>
  {
    match b[mv.source]
    case None => Err(Raised(MoveFailed(EmptySource)))
    case Some(piece) =>
      var ep := piece.kind == Pawn && File(mv.target) != File(mv.source) && b[mv.target].None?;
      var captured := if ep then Some(Piece(after.turn, Pawn)) else b[mv.target];
      var kingSide := piece.kind == King && File(mv.target) - File(mv.source) == 2;
      var queenSide := piece.kind == King && File(mv.target) - File(mv.source) == -2;
      var check := IsCheck(after);
      match mate
      case Err(e) => Err(Raised(e))
      case Ok(isMate) => Written(MoveInfo(mv, piece, captured, "", ep, kingSide, queenSide, check, isMate), d)
  }

  /** The information `info` with its SAN written: the castling notation,
      or else the piece letter, the disambiguator d (which may raise), the
      capture and the target; then the marks. */
  function Written(info: MoveInfo, d: Result<string, Stop>): Result<MoveInfo, InfoError>
  {
    var marks := Marks(info.isCheckmate, info.isCheck, info.isEnPassant);
    if info.isKingSideCastle || info.isQueenSideCastle then
      Ok(info.(san := (if info.isKingSideCastle then "o-o" else "o-o-o") + marks))
    else match d
      case Err(e) => Err(Raised(e))
      case Ok(dis) => Ok(info.(san := SanBody(info.piece, dis, info.captured.Some?, info.move) + marks))
  }

  /** get_move_info(mv): the move must be legal (the assertion walks the
      legal generator until it meets the move); the position after it is
      made on a copy loaded from the FEN; then the information is read. */
  function GetMoveInfo(s: State, mv: Move): Result<MoveInfo, InfoError>
  {
    var g := Legal(s);
    if mv !in g.moves then Err(if g.stop == Exhausted then NotLegal else Raised(g.stop))
    else match ParseFen(Fen.Fen(s))
      case Err(_) => Err(Raised(CopyFailed))
      case Ok(c) =>
        match ApplyMove(c, mv)
        case Err(e) => Err(Raised(MoveFailed(e)))
        case Ok(after) => Describe(s.board, mv, after, IsCheckmate(after), Disambiguator(s, mv))
  }

  // -----------------------------------------------------------------------
  // What the information says

  /** What Describe reads off: the piece on the source, a mate only with a
      check, en passant exactly for a pawn changing file onto an empty
      square, and then a pawn of the side to move afterwards captured, the
      target's piece otherwise; castling exactly for a king moving two files. */
  lemma DescribeSpec(b: Board, mv: Move, after: State, mate: Result<bool, Stop>, d: Result<string, Stop>)
    requires mate == Ok(true) ==> IsCheck(after)
    ensures var r := Describe(b, mv, after, mate, d);
      r.Ok? ==>
        var info := r.value;
        info.move == mv && b[mv.source] == Some(info.piece) &&
        (info.isCheckmate ==> info.isCheck) && info.isCheck == IsCheck(after) &&
        (info.isEnPassant <==> info.piece.kind == Pawn && File(mv.target) != File(mv.source) && b[mv.target].None?) &&
        (info.isEnPassant ==> info.captured == Some(Piece(after.turn, Pawn))) &&
        (!info.isEnPassant ==> info.captured == b[mv.target]) &&
        (info.isKingSideCastle <==> info.piece.kind == King && File(mv.target) == File(mv.source) + 2) &&
        (info.isQueenSideCastle <==> info.piece.kind == King && File(mv.target) == File(mv.source) - 2)
  {
  }

  /** The marks in the SAN: "#" exactly for mate, "+" exactly for a check
      that is no mate, "x" exactly for a capture other than castling, "="
      exactly for a promotion other than castling, "o" exactly for castling,
      and ")" exactly for en passant, whenever the disambiguator fits the
      source. */
  lemma SanMarks(b: Board, mv: Move, after: State, mate: Result<bool, Stop>, d: Result<string, Stop>)
    requires d.Ok? ==> Fits(d.value, mv.source)
    ensures var r := Describe(b, mv, after, mate, d);
      r.Ok? ==>
        var info, castle := r.value, r.value.isKingSideCastle || r.value.isQueenSideCastle;
        ('#' in info.san <==> info.isCheckmate) &&
        ('+' in info.san <==> info.isCheck && !info.isCheckmate) &&
        ('x' in info.san <==> info.captured.Some? && !castle) &&
        ('=' in info.san <==> mv.promotion.Some? && !castle) &&
        ('o' in info.san <==> castle) &&
        (')' in info.san <==> info.isEnPassant)
  {
    var r := Describe(b, mv, after, mate, d);
    if r.Ok? {
      var piece := b[mv.source].value;
      var ep := piece.kind == Pawn && File(mv.target) != File(mv.source) && b[mv.target].None?;
      var captured := if ep then Some(Piece(after.turn, Pawn)) else b[mv.target];
      var kingSide := piece.kind == King && File(mv.target) - File(mv.source) == 2;
      var queenSide := piece.kind == King && File(mv.target) - File(mv.source) == -2;
      var info := MoveInfo(mv, piece, captured, "", ep, kingSide, queenSide, IsCheck(after), mate.value);
      assert r == Written(info, d);
      WrittenMarks(info, d);
    }
  }

  /** The marks of a SAN written from `info`: see SanMarks. */
  predicate Marked(info: MoveInfo)
  {
    var castle := info.isKingSideCastle || info.isQueenSideCastle;
    ('#' in info.san <==> info.isCheckmate) &&
    ('+' in info.san <==> info.isCheck && !info.isCheckmate) &&
    ('x' in info.san <==> info.captured.Some? && !castle) &&
    ('=' in info.san <==> info.move.promotion.Some? && !castle) &&
    ('o' in info.san <==> castle) &&
    (')' in info.san <==> info.isEnPassant)
  }

  lemma WrittenMarks(info: MoveInfo, d: Result<string, Stop>)
    requires d.Ok? ==> Fits(d.value, info.move.source)
    ensures Written(info, d).Ok? ==> Marked(Written(info, d).value)
  {
    var marks := Marks(info.isCheckmate, info.isCheck, info.isEnPassant);
    MarksChars(info.isCheckmate, info.isCheck, info.isEnPassant);
    if info.isKingSideCastle || info.isQueenSideCastle {
      var name := if info.isKingSideCastle then "o-o" else "o-o-o";
      assert forall c :: c in name ==> c == 'o' || c == '-';
      assert Written(info, d).value.san == name + marks;
    } else if d.Ok? {
      BodyChars(info.piece, d.value, info.captured.Some?, info.move);
      assert Written(info, d).value.san == SanBody(info.piece, d.value, info.captured.Some?, info.move) + marks;
    }
  }

  /** The check and en-passant marks hold "#", "+" and ")" exactly when
      they say so, and none of "x", "=", "o". */
  lemma MarksChars(mate: bool, check: bool, ep: bool)
    ensures var m := Marks(mate, check, ep);
      ('#' in m <==> mate) && ('+' in m <==> check && !mate) && (')' in m <==> ep) &&
      'x' !in m && '=' !in m && 'o' !in m
  {
    var m1 := if mate then "#" else if check then "+" else "";
    var m2 := if ep then " (e.p.)" else "";
    assert Marks(mate, check, ep) == m1 + m2;
    assert forall c :: c in m2 ==> c in " (e.p.)";
  }

  /** A character that is none of the SAN's marks x, =, #, +, ) and o. */
  predicate Unmarked(c: char)
  {
    c != 'x' && c != '=' && c != '#' && c != '+' && c != ')' && c != 'o'
  }

  predicate AllUnmarked(t: string)
  {
    forall c :: c in t ==> Unmarked(c)
  }

  lemma NameUnmarked(sq: Square)
    ensures AllUnmarked(Name(sq))
  {
  }

  lemma FitsUnmarked(d: string, sq: Square)
    requires Fits(d, sq)
    ensures AllUnmarked(d)
  {
    NameUnmarked(sq);
  }

  lemma PieceLetterUnmarked(k: Kind)
    ensures AllUnmarked(PieceLetter(k))
  {
  }

  lemma CapturePartChars(piece: Piece, capture: bool, src: Square)
    ensures var cap := CapturePart(piece, capture, src);
      ('x' in cap <==> capture) && forall c :: c in cap ==> c == 'x' || Unmarked(c)
  {
  }

  lemma PromotionPartChars(p: Option<Kind>)
    ensures var promo := PromotionPart(p);
      ('=' in promo <==> p.Some?) && forall c :: c in promo ==> c == '=' || Unmarked(c)
  {
  }

  /** The body of a SAN holds "x" exactly on a capture and "=" exactly on
      a promotion, and none of "#", "+", ")", "o", when the disambiguator
      fits the source. */
  lemma BodyChars(piece: Piece, d: string, capture: bool, mv: Move)
    requires Fits(d, mv.source)
    ensures var body := SanBody(piece, d, capture, mv);
      ('x' in body <==> capture) && ('=' in body <==> mv.promotion.Some?) &&
      '#' !in body && '+' !in body && ')' !in body && 'o' !in body
  {
    var pre, cap, promo := PieceLetter(piece.kind), CapturePart(piece, capture, mv.source), PromotionPart(mv.promotion);
    FitsUnmarked(d, mv.source);
    PieceLetterUnmarked(piece.kind);
    CapturePartChars(piece, capture, mv.source);
    PromotionPartChars(mv.promotion);
    NameUnmarked(mv.target);
    var body := SanBody(piece, d, capture, mv);
    assert body == pre + d + cap + Name(mv.target) + promo;
    assert forall c :: c in body <==> c in pre || c in d || c in cap || c in Name(mv.target) || c in promo;
  }

  /** On a position that loads back from its FEN, get_move_info reads the
      copy as the position itself after the move. */
  lemma InfoOnCopy(s: State, mv: Move)
    requires Loadable(s) && mv in Legal(s).moves
    ensures ApplyMove(Reloaded(s), mv).Ok?
    ensures GetMoveInfo(s, mv) ==
      Describe(s.board, mv, ApplyMove(Reloaded(s), mv).value, IsCheckmate(ApplyMove(Reloaded(s), mv).value),
               Disambiguator(s, mv))
    ensures ApplyMove(Reloaded(s), mv).value.board == AfterMove(s, mv).board
    ensures ApplyMove(Reloaded(s), mv).value.turn == Opposite(s.turn)
    ensures HoldsColor(s.board, mv.source, s.turn)
  {
    LegalSpec(s, mv);
    PseudoLegalSpec(s);
    ReloadFen(s);
    var c := Reloaded(s);
    assert c == s.(castling := c.castling);
    ApplyMoveIgnoresCastling(s, c.castling, mv);
    ApplyMoveTurn(c, mv);
  }

  /** get_move_info on a position that loads back from its FEN: it succeeds
      only for a legal move; the piece is the mover's, of the side to move;
      a mate is a check; the check is the opposite king's after the move;
      en passant is a pawn changing file onto an empty square and captures
      an enemy pawn; otherwise the captured piece is what stood on the
      target. It fails the legality assertion exactly when the move is not
      legal and the legal generator runs to its end. */
  lemma MoveInfoSpec(s: State, mv: Move)
    requires Loadable(s)
    ensures var r := GetMoveInfo(s, mv);
      (r.Ok? ==>
        var info := r.value;
        mv in Legal(s).moves && info.move == mv &&
        s.board[mv.source] == Some(info.piece) && info.piece.color == s.turn &&
        (info.isCheckmate ==> info.isCheck) &&
        info.isCheck == IsKingAttacked(AfterMove(s, mv).board, Opposite(s.turn)) &&
        (info.isEnPassant <==>
          info.piece.kind == Pawn && File(mv.target) != File(mv.source) && s.board[mv.target].None?) &&
        (info.isEnPassant ==> info.captured == Some(Piece(Opposite(s.turn), Pawn))) &&
        (!info.isEnPassant ==> info.captured == s.board[mv.target])) &&
      (r == Err(NotLegal) <==> mv !in Legal(s).moves && Legal(s).stop == Exhausted)
  {
    GetMoveInfoNotLegal(s, mv);
    if mv in Legal(s).moves {
      InfoOnCopy(s, mv);
      var after := ApplyMove(Reloaded(s), mv).value;
      DescribeSpec(s.board, mv, after, IsCheckmate(after), Disambiguator(s, mv));
    }
  }

  /** get_move_info reports an illegal move only from its legality test. */
  lemma GetMoveInfoNotLegal(s: State, mv: Move)
    ensures GetMoveInfo(s, mv) == Err(NotLegal) <==> mv !in Legal(s).moves && Legal(s).stop == Exhausted
  {
    if mv in Legal(s).moves {
      match ParseFen(Fen.Fen(s))
      case Err(_) =>
      case Ok(c) =>
        match ApplyMove(c, mv)
        case Err(_) =>
        case Ok(after) => DescribeRaises(s.board, mv, after, IsCheckmate(after), Disambiguator(s, mv));
    }
  }

  /** Reading the information of a made move never reports an illegal move. */
  lemma DescribeRaises(b: Board, mv: Move, after: State, mate: Result<bool, Stop>, d: Result<string, Stop>)
    ensures Describe(b, mv, after, mate, d) != Err(NotLegal)
  {
  }

  /** The marks of every SAN get_move_info builds (see SanMarks). */
  lemma MoveInfoSanMarks(s: State, mv: Move)
    ensures var r := GetMoveInfo(s, mv);
      r.Ok? ==>
        var info, castle := r.value, r.value.isKingSideCastle || r.value.isQueenSideCastle;
        ('#' in info.san <==> info.isCheckmate) &&
        ('+' in info.san <==> info.isCheck && !info.isCheckmate) &&
        ('x' in info.san <==> info.captured.Some? && !castle) &&
        ('=' in info.san <==> mv.promotion.Some? && !castle) &&
        ('o' in info.san <==> castle) &&
        (')' in info.san <==> info.isEnPassant)
  {
    DisambiguatorSpec(s, mv);
    if mv in Legal(s).moves {
      match ParseFen(Fen.Fen(s))
      case Err(_) =>
      case Ok(c) =>
        match ApplyMove(c, mv)
        case Err(_) =>
        case Ok(after) => SanMarks(s.board, mv, after, IsCheckmate(after), Disambiguator(s, mv));
    }
  }
}
