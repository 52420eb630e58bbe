/** Move generation: get_pseudo_legal_moves and get_legal_moves. Both are
    Python generators; the model gives the whole sequence of moves they yield
    together with the way they stop, since a generator can raise part-way. */
module MoveGen {
  import opened ChessTypes
  import opened Geometry
  import opened BoardState
  import opened Attacks
  import opened Moves
  import opened Fen

  /** How a generator ends. */
  datatype Stop =
    | Exhausted               // it ran to its end
    | NoKing                  // a castling right is held but get_king found no king (AttributeError)
    | OutsideBoard            // it builds a Square from an index outside the board and uses it
    | MoveFailed(error: MoveError)  // make_move raised on the copy
    | CopyFailed              // the copy's FEN did not load

  /** The moves a generator yields, in order, and how it ends. */
  datatype Gen = Gen(moves: seq<Move>, stop: Stop)

  /** Running g and then, if g ran to its end, h. */
  function Then(g: Gen, h: Gen): Gen
  {
    if g.stop == Exhausted then Gen(g.moves + h.moves, h.stop) else g
  }

  // -----------------------------------------------------------------------
  // Pawns

  /** The four promotions to the same target, in the order "bnrq". */
  function Promotions(src: Square, t: Square): seq<Move>
  {
    [Move(src, t, Some(Bishop)), Move(src, t, Some(Knight)), Move(src, t, Some(Rook)), Move(src, t, Some(Queen))]
  }

  /** PAWN_OFFSETS[turn][0]: one square ahead. */
  function Forward(c: Color): int { if c == White then -16 else 16 }

  /** PAWN_OFFSETS[turn][2] and [3]. For black these are 16 and 15: one
      capture straight ahead and one towards the a-file. */
  function CaptureOffsets(c: Color): (int, int) { if c == White then (-17, -15) else (16, 15) }

  /** One pass of the capture loop of a pawn on sq: an enemy piece is taken
      (four promotions on a back rank); an empty target on the en passant
      file is moved to. */
  function PawnCapture(s: State, sq: Square, off: int): seq<Move>
    requires -17 <= off <= 16
  {
    var ti := sq + off;
    if OffBoard(ti) then []
    else
      OffBoardIsNotSquare(ti);
      var t: Square := ti;
      match s.board[t]
      case Some(q) =>
        if q.color != s.turn then (if IsBackrank(t) then Promotions(sq, t) else [Move(sq, t, None)])
        else []
      case None => if s.epFile == Some(FileLetter(t)) then [Move(sq, t, None)] else []
  }

  /** The pushes of a pawn on sq whose square ahead t is empty: the four
      promotions when t is on a back rank, then the double step. The double
      step tests, as `A or B and C` parses in Python, that a white pawn is on
      rank 2, or that a black pawn is on rank 7 with the square two ahead
      empty. */
  function Pushes(s: State, sq: Square, t: Square): seq<Move>
  {
    (if IsBackrank(t) then Promotions(sq, t) else []) +
    (if s.turn == White && Rank(sq) == 2 then [Move(sq, sq - 32, None)]
     else if s.turn == Black && Rank(sq) == 7 && s.board[sq + 32].None? then [Move(sq, sq + 32, None)]
     else [])
  }

  /** The moves of a pawn of the side to move on sq, or None when the square
      ahead lies off the board (a pawn on its own last rank): the generator
      then reads the board through a Square built from that index, which
      this model does not follow. */
  function PawnMoves(s: State, sq: Square): Option<seq<Move>>
  {
    var ti := sq + Forward(s.turn);
    if !IsSquare(ti) then None
    else
      var t: Square := ti;
      var offs := CaptureOffsets(s.turn);
      Some((if s.board[t].Some? then [] else Pushes(s, sq, t)) + PawnCapture(s, sq, offs.0) + PawnCapture(s, sq, offs.1))
  }

  // -----------------------------------------------------------------------
  // Other pieces

  /** PIECE_OFFSETS. */
  function PieceOffsets(k: Kind): (offs: seq<int>)
    ensures forall i :: 0 <= i < |offs| ==> -33 <= offs[i] <= 33 && (k == Knight || IsDirection(offs[i]))
  {
    match k
    case Knight => [-18, -33, -31, -14, 18, 33, 31, 14]
    case Bishop => [-17, -15, 17, 15]
    case Rook => [-16, 1, 16, -1]
    case _ => [-17, -16, -15, 1, 17, 16, 15, -1]
  }

  /** Knights and kings take one step per offset. */
  predicate Single(k: Kind) { k == Knight || k == King }

  /** The walk from cur in steps of off for the piece on sq: empty squares are
      moved to, the first occupied one ends the walk and is taken when it
      holds an enemy piece; a single-step piece stops after one square. */
  function Slide(b: Board, turn: Color, sq: Square, off: int, cur: Square, single: bool): seq<Move>
    requires -33 <= off <= 33
    requires single || IsDirection(off)
    decreases Room(cur, off)
  {
    var ti := cur + off;
    if OffBoard(ti) then []
    else
      OffBoardIsNotSquare(ti);
      var t: Square := ti;
      match b[t]
      case None =>
        if single then [Move(sq, t, None)]
        else NextSquare(cur, off); [Move(sq, t, None)] + Slide(b, turn, sq, off, t, single)
      case Some(q) => if q.color == turn then [] else [Move(sq, t, None)]
  }

  /** One step of a walk: off the board it ends, on an empty square it moves
      there and goes on unless the piece is single-step, on an occupied
      square it ends, taking an enemy piece. */
  lemma SlideStep(b: Board, turn: Color, sq: Square, off: int, cur: Square, single: bool, t: Square)
    requires -33 <= off <= 33 && (single || IsDirection(off)) && t == cur + off
    ensures b[t].None? && !single ==> Room(t, off) < Room(cur, off)
    ensures Slide(b, turn, sq, off, cur, single) ==
      match b[t]
      case None => [Move(sq, t, None)] + (if single then [] else Slide(b, turn, sq, off, t, single))
      case Some(q) => if q.color == turn then [] else [Move(sq, t, None)]
  {
    OffBoardIsNotSquare(t);
    if b[t].None? && !single {
      NextSquare(cur, off);
    }
  }

  /** The walks for a list of offsets, one after the other. */
  function OffsetMoves(b: Board, turn: Color, sq: Square, k: Kind, offs: seq<int>): seq<Move>
    requires forall i :: 0 <= i < |offs| ==> -33 <= offs[i] <= 33 && (Single(k) || IsDirection(offs[i]))
  {
    if offs == [] then []
    else Slide(b, turn, sq, offs[0], sq, Single(k)) + OffsetMoves(b, turn, sq, k, offs[1..])
  }

  /** The moves of whatever stands on sq: nothing for an empty square or an
      enemy piece; None when the pawn walk leaves the model. */
  function SquareMoves(s: State, sq: Square): Option<seq<Move>>
  {
    match s.board[sq]
    case None => Some([])
    case Some(p) =>
      if p.color != s.turn then Some([])
      else if p.kind == Pawn then PawnMoves(s, sq)
      else Some(OffsetMoves(s.board, s.turn, sq, p.kind, PieceOffsets(p.kind)))
  }

  /** The loop over Square.get_all(), from its k-th square on. */
  function PiecesFrom(s: State, k: int): Gen
    requires 0 <= k <= 64
    decreases 64 - k
  {
    if k == 64 then Gen([], Exhausted)
    else match SquareMoves(s, SquareAt(k))
      case None => Gen([], OutsideBoard)
      case Some(ms) =>
        var rest := PiecesFrom(s, k + 1);
        Gen(ms + rest.moves, rest.stop)
  }

  // -----------------------------------------------------------------------
  // Castling

  function KingSideType(c: Color): CastlingType { if c == Black then BlackKingSide else WhiteKingSide }

  function QueenSideType(c: Color): CastlingType { if c == Black then BlackQueenSide else WhiteQueenSide }

  /** The last tests of castling towards dir (+1 king side, -1 queen side),
      run once the cells are empty: the king is not in check, and the square
      it crosses and the square it lands on are not attacked. */
  function Crossing(b: Board, turn: Color, from: Square, dir: int): Gen
    requires dir == 1 || dir == -1
  {
    if IsKingAttacked(b, turn) then Gen([], Exhausted) else CrossFrom(b, turn, from, dir, 1)
  }

  /** The tests of the n-th square towards dir and those after it: a square
      built from an index off the board ends the generator, an attacked one
      ends the castling, and past the second square the king lands. */
  function CrossFrom(b: Board, turn: Color, from: Square, dir: int, n: int): Gen
    requires dir == 1 || dir == -1
    requires n == 1 || n == 2
    decreases 2 - n
  {
    var t := if n == 1 then from + dir else from + 2 * dir;
    if !IsSquare(t) then Gen([], OutsideBoard)
    else if IsAttacked(b, Opposite(turn), t) then Gen([], Exhausted)
    else if n == 2 then Gen([Move(from, t, None)], Exhausted)
    else CrossFrom(b, turn, from, dir, 2)
  }

  /** One test of the castling path, with the attack test given as a value. */
  lemma CrossFromStep(b: Board, turn: Color, from: Square, dir: int, n: int, t: int, attacked: bool)
    requires (dir == 1 || dir == -1) && (n == 1 || n == 2)
    requires t == if n == 1 then from + dir else from + 2 * dir
    requires IsSquare(t) ==> attacked == IsAttacked(b, Opposite(turn), t)
    ensures CrossFrom(b, turn, from, dir, n) ==
      if !IsSquare(t) then Gen([], OutsideBoard)
      else if attacked then Gen([], Exhausted)
      else if n == 2 then Gen([Move(from, t, None)], Exhausted)
      else CrossFrom(b, turn, from, dir, 2)
  {
  }

  /** King-side castling: with the right held, the king found by get_king
      moves two files right when the two cells to its right are empty, it is
      not in check and neither of the two squares is attacked. The tests run
      in the source's order and stop at the first that fails. */
  function KingSideCastle(s: State): Gen
  {
    if !HasRight(s.castling, KingSideType(s.turn)) then Gen([], Exhausted)
    else match GetKing(s.board, s.turn)
      case None => Gen([], NoKing)
      case Some(from) => CastleFrom(s.board, s.turn, from, 1)
  }

  /** Queen-side castling: three empty cells to the left of the king, no
      check, and the two squares the king crosses not attacked. */
  function QueenSideCastle(s: State): Gen
  {
    if !HasRight(s.castling, QueenSideType(s.turn)) then Gen([], Exhausted)
    else match GetKing(s.board, s.turn)
      case None => Gen([], NoKing)
      case Some(from) => CastleFrom(s.board, s.turn, from, -1)
  }

  /** Castling from the king square towards dir once the right is held: an
      occupied cell between king and rook ends it, otherwise the attack tests
      decide. */
  function CastleFrom(b: Board, turn: Color, from: Square, dir: int): Gen
    requires dir == 1 || dir == -1
  {
    if CellsEmpty(b, from, dir) then Crossing(b, turn, from, dir) else Gen([], Exhausted)
  }

  /** get_pseudo_legal_moves(): the moves of every piece of the side to move
      in Square.get_all() order, then king-side and queen-side castling. */
  function PseudoLegal(s: State): Gen
  {
    Then(Then(PiecesFrom(s, 0), KingSideCastle(s)), QueenSideCastle(s))
  }

  // -----------------------------------------------------------------------
  // Legal moves

  /** The filter of get_legal_moves over the pseudo-legal moves ms, applied to
      the copy c: a move is kept when, after it, the king of the side that
      made it is not attacked; make_move raising ends the generator. */
  function LegalFrom(c: State, turn: Color, ms: seq<Move>, stop: Stop): Gen
    decreases |ms|
  {
    if ms == [] then Gen([], stop)
    else match ApplyMove(c, ms[0])
      case Err(e) => Gen([], MoveFailed(e))
      case Ok(t) =>
        var rest := LegalFrom(c, turn, ms[1..], stop);
        if IsKingAttacked(t.board, turn) then rest else Gen([ms[0]] + rest.moves, rest.stop)
  }

  /** get_legal_moves(): each pseudo-legal move is tried on a copy made
      through the position's FEN. */
  function Legal(s: State): Gen
  {
    var g := PseudoLegal(s);
    if g.moves == [] then Gen([], g.stop)
    else match ParseFen(Fen.Fen(s))
      case Err(_) => Gen([], CopyFailed)
      case Ok(c) => LegalFrom(c, s.turn, g.moves, g.stop)
  }

  // -----------------------------------------------------------------------
  // What the walks generate

  /** The cell t holds a piece of colour c. */
  predicate HoldsColor(b: Board, t: Square, c: Color)
  {
    b[t].Some? && b[t].value.color == c
  }

  /** The path from cur to t is clear exactly when the first cell on it is
      empty and the path from that cell on is clear. */
  lemma PathClearShift(b: Board, cur: Square, next: Square, t: Square)
    requires Aligned(cur, t) && Dist(cur, t) > 1 && next == cur + Step(cur, t)
    ensures Aligned(next, t)
    ensures PathClear(b, cur, t) <==> b[next].None? && PathClear(b, next, t)
  {
    RayCellShift(cur, next, t, 0);
    if PathClear(b, cur, t) {
      PathClearTail(b, cur, next, t);
    }
    if b[next].None? && PathClear(b, next, t) {
      PathClearCons(b, cur, next, t);
    }
  }

  lemma PathClearTail(b: Board, cur: Square, next: Square, t: Square)
    requires Aligned(cur, t) && Dist(cur, t) > 1 && next == cur + Step(cur, t)
    requires PathClear(b, cur, t)
    ensures Aligned(next, t) && b[next].None? && PathClear(b, next, t)
  {
    FirstRayCell(cur, next, t);
    RayCellShift(cur, next, t, 0);
    forall j | 0 < j < Dist(next, t) ensures b[RayCell(next, t, j)].None? {
      RayCellShift(cur, next, t, j);
    }
  }

  lemma PathClearCons(b: Board, cur: Square, next: Square, t: Square)
    requires Aligned(cur, t) && Dist(cur, t) > 1 && next == cur + Step(cur, t)
    requires Aligned(next, t) && b[next].None? && PathClear(b, next, t)
    ensures PathClear(b, cur, t)
  {
    FirstRayCell(cur, next, t);
    forall k | 0 < k < Dist(cur, t) ensures b[RayCell(cur, t, k)].None? {
      if k > 1 {
        RayCellShift(cur, next, t, k - 1);
      }
    }
  }

  /** t lies beyond cur in direction off, over empty cells only. */
  predicate Beyond(b: Board, cur: Square, off: int, t: Square)
  {
    Aligned(cur, t) && Step(cur, t) == off && PathClear(b, cur, t)
  }

  /** At the edge of the board nothing lies beyond. */
  lemma BeyondEdge(b: Board, cur: Square, off: int, t: Square)
    requires IsDirection(off) && !IsSquare(cur + off)
    ensures !Beyond(b, cur, off, t)
  {
    if Aligned(cur, t) && Step(cur, t) == off {
      StepTowards(cur, t);
    }
  }

  /** Next to an occupied cell, only that cell lies beyond. */
  lemma BeyondBlocked(b: Board, cur: Square, off: int, t: Square)
    requires IsDirection(off) && IsSquare(cur + off) && b[cur + off].Some?
    ensures Beyond(b, cur, off, t) <==> t == cur + off
  {
    if t == cur + off {
      DirectionAligned(cur, off);
      assert PathClear(b, cur, t);
    } else {
      BeyondPastBlock(b, cur, cur + off, off, t);
    }
  }

  lemma BeyondPastBlock(b: Board, cur: Square, next: Square, off: int, t: Square)
    requires next == cur + off && b[next].Some? && t != next
    ensures !Beyond(b, cur, off, t)
  {
    if Aligned(cur, t) && Step(cur, t) == off {
      StepTowards(cur, t);
      PathClearShift(b, cur, next, t);
    }
  }

  /** Next to an empty cell, what lies beyond is that cell and what lies
      beyond it. */
  lemma BeyondEmpty(b: Board, cur: Square, off: int, t: Square)
    requires IsDirection(off) && IsSquare(cur + off) && b[cur + off].None?
    ensures Beyond(b, cur, off, t) <==> t == cur + off || Beyond(b, cur + off, off, t)
  {
    DirectionAligned(cur, off);
    if t != cur + off && Beyond(b, cur, off, t) {
      BeyondFurther(b, cur, cur + off, off, t);
    }
    if Beyond(b, cur + off, off, t) {
      BeyondCloser(b, cur, cur + off, off, t);
    }
  }

  lemma BeyondFurther(b: Board, cur: Square, next: Square, off: int, t: Square)
    requires next == cur + off && b[next].None?
    requires t != next && Beyond(b, cur, off, t)
    ensures Beyond(b, next, off, t)
  {
    StepTowards(cur, t);
    PathClearShift(b, cur, next, t);
  }

  lemma BeyondCloser(b: Board, cur: Square, next: Square, off: int, t: Square)
    requires IsDirection(off) && next == cur + off && b[next].None?
    requires Beyond(b, next, off, t)
    ensures Beyond(b, cur, off, t)
  {
    assert Aligned(next, t) && Step(next, t) == off && PathClear(b, next, t);
    StepBack(cur, off, t);
    AlignedDistinct(next, t);
    assert Dist(cur, t) > 1 && next == cur + Step(cur, t);
    PathClearShift(b, cur, next, t);
    assert PathClear(b, cur, t);
  }

  /** A sliding walk from cur in direction off yields exactly the squares
      beyond cur in that direction that do not hold a piece of the mover. */
  lemma {:induction false} SlideSpec(b: Board, turn: Color, sq: Square, off: int, cur: Square, mv: Move)
    requires IsDirection(off)
    ensures mv in Slide(b, turn, sq, off, cur, false) <==>
      mv.source == sq && mv.promotion.None? && Beyond(b, cur, off, mv.target) && !HoldsColor(b, mv.target, turn)
    decreases Room(cur, off)
  {
    var ti := cur + off;
    OffBoardIsNotSquare(ti);
    if OffBoard(ti) {
      BeyondEdge(b, cur, off, mv.target);
    } else {
      var t0: Square := ti;
      if b[t0].Some? {
        BeyondBlocked(b, cur, off, mv.target);
      } else {
        SlideStep(b, turn, sq, off, cur, false, t0);
        SlideSpec(b, turn, sq, off, t0, mv);
        BeyondEmpty(b, cur, off, mv.target);
      }
    }
  }

  /** A single step yields the square off away when it is on the board and
      does not hold a piece of the mover. */
  lemma SingleSpec(b: Board, turn: Color, sq: Square, off: int, mv: Move)
    requires -33 <= off <= 33
    ensures mv in Slide(b, turn, sq, off, sq, true) <==>
      mv.source == sq && mv.promotion.None? && mv.target == sq + off && !HoldsColor(b, mv.target, turn)
  {
    OffBoardIsNotSquare(sq + off);
  }

  /** The walks for a list of offsets yield what one of the walks yields. */
  lemma {:induction false} OffsetMovesSpec(b: Board, turn: Color, sq: Square, k: Kind, offs: seq<int>, mv: Move)
    requires forall i :: 0 <= i < |offs| ==> -33 <= offs[i] <= 33 && (Single(k) || IsDirection(offs[i]))
    ensures mv in OffsetMoves(b, turn, sq, k, offs) <==>
      exists i :: 0 <= i < |offs| && mv in Slide(b, turn, sq, offs[i], sq, Single(k))
    decreases |offs|
  {
    if offs != [] {
      OffsetMovesSpec(b, turn, sq, k, offs[1..], mv);
      if exists i :: 0 <= i < |offs| && mv in Slide(b, turn, sq, offs[i], sq, Single(k)) {
        var i :| 0 <= i < |offs| && mv in Slide(b, turn, sq, offs[i], sq, Single(k));
        if i > 0 {
          assert offs[1..][i - 1] == offs[i];
        }
      }
      if exists i :: 0 <= i < |offs| - 1 && mv in Slide(b, turn, sq, offs[1..][i], sq, Single(k)) {
        var i :| 0 <= i < |offs| - 1 && mv in Slide(b, turn, sq, offs[1..][i], sq, Single(k));
        assert offs[1..][i] == offs[i + 1];
      }
    }
  }

  /** mv is a move of the piece p, not a pawn, standing on sq, by the rules
      of chess: it goes to a square p attacks that does not hold a piece of
      p's colour, without promotion. */
  predicate PieceTarget(b: Board, p: Piece, sq: Square, mv: Move)
  {
    mv.source == sq && mv.promotion.None? && !HoldsColor(b, mv.target, p.color) && Reaches(b, p, sq, mv.target)
  }

  /** Knight jumps are exactly the eight knight offsets. */
  lemma KnightOffsets(sq: Square, t: Square)
    ensures KnightJump(sq, t) <==> (t - sq) in PieceOffsets(Knight)
  {
    IndexDifference(sq, t);
  }

  /** King steps are exactly the eight direction offsets. */
  lemma KingOffsets(sq: Square, t: Square)
    ensures Adjacent(sq, t) <==> (t - sq) in PieceOffsets(King)
  {
    IndexDifference(sq, t);
  }

  /** The step from a square to an aligned one is among a slider's offsets
      exactly when the two squares lie on a line that slider moves along. */
  lemma SliderOffsets(k: Kind, sq: Square, t: Square)
    requires k == Bishop || k == Rook || k == Queen
    requires Aligned(sq, t)
    ensures Step(sq, t) in PieceOffsets(k) <==>
      (k == Bishop && OnDiagonal(sq, t)) || (k == Rook && OnLine(sq, t)) || k == Queen
  {
  }

  /** The offset walks of a piece other than a pawn yield exactly its moves
      by the rules of chess. */
  lemma PieceMovesSpec(b: Board, p: Piece, sq: Square, mv: Move)
    requires p.kind != Pawn
    ensures mv in OffsetMoves(b, p.color, sq, p.kind, PieceOffsets(p.kind)) <==> PieceTarget(b, p, sq, mv)
  {
    var offs := PieceOffsets(p.kind);
    var t := mv.target;
    OffsetMovesSpec(b, p.color, sq, p.kind, offs, mv);
    if Single(p.kind) {
      forall i | 0 <= i < |offs|
        ensures mv in Slide(b, p.color, sq, offs[i], sq, true) <==>
          mv.source == sq && mv.promotion.None? && t == sq + offs[i] && !HoldsColor(b, t, p.color)
      {
        SingleSpec(b, p.color, sq, offs[i], mv);
      }
      if p.kind == Knight {
        KnightOffsets(sq, t);
      } else {
        KingOffsets(sq, t);
      }
    } else {
      forall i | 0 <= i < |offs|
        ensures mv in Slide(b, p.color, sq, offs[i], sq, false) <==>
          mv.source == sq && mv.promotion.None? && Beyond(b, sq, offs[i], t) && !HoldsColor(b, t, p.color)
      {
        SlideSpec(b, p.color, sq, offs[i], sq, mv);
      }
      if Aligned(sq, t) {
        SliderOffsets(p.kind, sq, t);
      }
    }
  }

  // -----------------------------------------------------------------------
  // Pawn moves

  /** Every promotion among ms promotes to a bishop, knight, rook or queen,
      and the other three promotions of the same pawn to the same square are
      among ms as well. */
  predicate PromotionsGrouped(ms: seq<Move>)
  {
    forall mv :: mv in ms && mv.promotion.Some? ==>
      mv.promotion.value != Pawn && mv.promotion.value != King &&
      Move(mv.source, mv.target, Some(Bishop)) in ms && Move(mv.source, mv.target, Some(Knight)) in ms &&
      Move(mv.source, mv.target, Some(Rook)) in ms && Move(mv.source, mv.target, Some(Queen)) in ms
  }

  lemma GroupedConcat(a: seq<Move>, b: seq<Move>)
    requires PromotionsGrouped(a) && PromotionsGrouped(b)
    ensures PromotionsGrouped(a + b)
  {
  }

  /** A pawn of colour c going from sq to t moves one rank forward, straight
      or to a neighbouring file, or two ranks forward on its file. */
  predicate PawnForward(c: Color, sq: Square, t: Square)
  {
    var d := if c == White then Rank(t) - Rank(sq) else Rank(sq) - Rank(t);
    (d == 1 && Abs(File(t) - File(sq)) <= 1) || (d == 2 && File(t) == File(sq))
  }

  /** The capture loop yields moves of the pawn one rank forward that do not
      land on the mover's pieces, promotions only on a back rank, in groups. */
  lemma PawnCaptureFacts(s: State, sq: Square, off: int)
    requires off == CaptureOffsets(s.turn).0 || off == CaptureOffsets(s.turn).1
    ensures var ms := PawnCapture(s, sq, off);
      PromotionsGrouped(ms) &&
      forall mv :: mv in ms ==>
        mv.source == sq && mv.target == sq + off && !HoldsColor(s.board, mv.target, s.turn) &&
        PawnForward(s.turn, sq, mv.target) && (mv.promotion.Some? ==> IsBackrank(mv.target))
  {
    OffBoardIsNotSquare(sq + off);
    if IsSquare(sq + off) {
      var t: Square := sq + off;
      PawnStepForward(s.turn, sq, t, off);
      var ms := PawnCapture(s, sq, off);
      assert ms != [] ==> !HoldsColor(s.board, t, s.turn);
      assert ms == [] || ms == [Move(sq, t, None)] || (IsBackrank(t) && ms == Promotions(sq, t));
      TargetListFacts(ms, sq, t);
    }
  }

  /** A move list that is empty, one plain move, or the four promotions on a
      back rank, all from sq to t. */
  lemma TargetListFacts(ms: seq<Move>, sq: Square, t: Square)
    requires ms == [] || ms == [Move(sq, t, None)] || (IsBackrank(t) && ms == Promotions(sq, t))
    ensures PromotionsGrouped(ms)
    ensures forall mv :: mv in ms ==> mv.source == sq && mv.target == t && (mv.promotion.Some? ==> IsBackrank(t))
  {
  }

  /** The single step and both capture offsets of a pawn lead one rank
      forward, to the same or a neighbouring file. */
  lemma PawnStepForward(c: Color, sq: Square, t: Square, off: int)
    requires t == sq + off
    requires off == Forward(c) || off == CaptureOffsets(c).0 || off == CaptureOffsets(c).1
    ensures PawnForward(c, sq, t)
    ensures off == Forward(c) ==> File(t) == File(sq)
  {
    RankFileDelta(Rank(t) - Rank(sq), File(t) - File(sq), off);
  }

  /** The rank and file differences of two squares whose indices differ by
      off, for the pawn offsets of either colour. */
  lemma RankFileDelta(dr: int, df: int, off: int)
    requires -7 <= df <= 7 && off == df - 16 * dr
    requires off == -17 || off == -16 || off == -15 || off == 15 || off == 16 || off == 17 || off == -32 || off == 32
    ensures off == -17 ==> dr == 1 && df == -1
    ensures off == -16 ==> dr == 1 && df == 0
    ensures off == -15 ==> dr == 1 && df == 1
    ensures off == 15 ==> dr == -1 && df == -1
    ensures off == 16 ==> dr == -1 && df == 0
    ensures off == 17 ==> dr == -1 && df == 1
    ensures off == -32 ==> dr == 2 && df == 0
    ensures off == 32 ==> dr == -2 && df == 0
  {
  }

  /** The pushes go straight forward onto the empty square ahead or, for the
      double step, two squares ahead; only the single push promotes, and it is
      yielded only as a promotion. */
  lemma PushesFacts(s: State, sq: Square, t: Square)
    requires t == sq + Forward(s.turn) && s.board[t].None?
    ensures var ms := Pushes(s, sq, t);
      PromotionsGrouped(ms) &&
      forall mv :: mv in ms ==>
        mv.source == sq && (mv.target == t || mv.target == t + Forward(s.turn)) && File(mv.target) == File(sq) &&
        (s.board[mv.target].None? || WhiteDoubleStep(s, mv)) &&
        PawnForward(s.turn, sq, mv.target) && (mv.promotion.Some? ==> IsBackrank(mv.target) && mv.target == t) &&
        (mv.target == t ==> mv.promotion.Some?)
  {
    PawnStepForward(s.turn, sq, t, Forward(s.turn));
    var single := if IsBackrank(t) then Promotions(sq, t) else [];
    var double :=
      if s.turn == White && Rank(sq) == 2 then [Move(sq, sq - 32, None)]
      else if s.turn == Black && Rank(sq) == 7 && s.board[sq + 32].None? then [Move(sq, sq + 32, None)]
      else [];
    assert Pushes(s, sq, t) == single + double;
    TargetListFacts(single, sq, t);
    if s.turn == White && Rank(sq) == 2 {
      Coordinates(sq - 32, 4, File(sq));
    } else if s.turn == Black && Rank(sq) == 7 {
      Coordinates(sq + 32, 3, File(sq));
    }
    GroupedConcat(single, double);
  }

  /** A white double step, whose target the generator does not look at. */
  predicate WhiteDoubleStep(s: State, mv: Move)
  {
    s.turn == White && mv.target == mv.source - 32
  }

  /** What every move of a pawn has in common: it starts on the pawn, goes
      forward, never lands on a piece of the mover (except by a white double
      step), and promotes only on a back rank, with all four promotions
      yielded together. */
  lemma PawnMovesFacts(s: State, sq: Square)
    requires PawnMoves(s, sq).Some?
    ensures var ms := PawnMoves(s, sq).value;
      PromotionsGrouped(ms) &&
      forall mv :: mv in ms ==>
        mv.source == sq && (!HoldsColor(s.board, mv.target, s.turn) || WhiteDoubleStep(s, mv)) &&
        PawnForward(s.turn, sq, mv.target) && (mv.promotion.Some? ==> IsBackrank(mv.target))
  {
    var t: Square := sq + Forward(s.turn);
    var offs := CaptureOffsets(s.turn);
    var pushes := if s.board[t].Some? then [] else Pushes(s, sq, t);
    if s.board[t].None? {
      PushesFacts(s, sq, t);
    }
    var c0, c1 := PawnCapture(s, sq, offs.0), PawnCapture(s, sq, offs.1);
    PawnCaptureFacts(s, sq, offs.0);
    PawnCaptureFacts(s, sq, offs.1);
    assert PawnMoves(s, sq).value == pushes + c0 + c1;
    GroupedConcat(pushes, c0);
    GroupedConcat(pushes + c0, c1);
  }

  /** As written, black's capture offsets are 16 and 15: a black pawn takes a
      white piece standing straight ahead of it. */
  lemma BlackCapturesAhead(s: State, sq: Square)
    requires s.turn == Black && Rank(sq) > 2
    requires HoldsColor(s.board, sq + 16, White)
    ensures PawnMoves(s, sq).Some? && Move(sq, sq + 16, None) in PawnMoves(s, sq).value
  {
    OffBoardIsNotSquare(sq + 16);
  }

  /** As written, black's straight-ahead capture offset also reaches the en
      passant branch: a black pawn steps one square forward onto an empty
      square of its own file whenever that file is the en passant file. */
  lemma BlackEnPassantAhead(s: State, sq: Square)
    requires s.turn == Black && Rank(sq) > 1
    requires s.board[sq + 16].None? && s.epFile == Some(FileLetter(sq + 16))
    ensures PawnMoves(s, sq).Some? && Move(sq, sq + 16, None) in PawnMoves(s, sq).value
  {
    OffBoardIsNotSquare(sq + 16);
  }

  /** As written, the en passant branch ignores the back rank: a white pawn
      on the seventh rank moves without promotion to an empty square of the
      eighth rank on the en passant file. */
  lemma EnPassantToBackrank(s: State, sq: Square)
    requires s.turn == White && Rank(sq) == 7 && File(sq) > 0
    requires s.board[sq - 17].None? && s.epFile == Some(FileLetter(sq - 17))
    ensures PawnMoves(s, sq).Some? && Move(sq, sq - 17, None) in PawnMoves(s, sq).value
    ensures IsBackrank(sq - 17)
  {
    OffBoardIsNotSquare(sq - 17);
  }

  /** As written, the double step of a white pawn is yielded whatever stands
      two squares ahead, a piece of either colour included. */
  lemma WhiteDoubleStepUnchecked(s: State, sq: Square)
    requires s.turn == White && Rank(sq) == 2 && s.board[sq - 16].None?
    ensures PawnMoves(s, sq).Some? && Move(sq, sq - 32, None) in PawnMoves(s, sq).value
  {
  }

  // -----------------------------------------------------------------------
  // The piece loop

  /** What every move of the piece loop satisfies: it starts on a piece of
      the side to move; a pawn goes forward and promotes only on a back rank;
      any other piece moves by the rules of chess. No move lands on a piece of
      the mover, except a white double step. */
  predicate MoveFact(s: State, mv: Move)
  {
    HoldsColor(s.board, mv.source, s.turn) &&
    (!HoldsColor(s.board, mv.target, s.turn) || WhiteDoubleStep(s, mv)) &&
    var p := s.board[mv.source].value;
    (p.kind == Pawn ==> PawnForward(s.turn, mv.source, mv.target) && (mv.promotion.Some? ==> IsBackrank(mv.target))) &&
    (p.kind != Pawn ==> PieceTarget(s.board, p, mv.source, mv))
  }

  /** A pawn of the side to move on its own last rank, where the loop leaves
      the model. */
  predicate LastRankPawn(s: State, sq: Square)
  {
    s.board[sq] == Some(Piece(s.turn, Pawn)) && Rank(sq) == (if s.turn == White then 8 else 1)
  }

  /** The piece loop leaves the model on a square exactly when it holds a
      pawn of the side to move on its last rank. */
  lemma SquareMovesStop(s: State, sq: Square)
    ensures SquareMoves(s, sq).None? <==> LastRankPawn(s, sq)
  {
    if s.board[sq] == Some(Piece(s.turn, Pawn)) {
      assert Rank(sq) == (if s.turn == White then 8 else 1) <==> !IsSquare(sq + Forward(s.turn)) by {
        Coordinates(sq, Row(sq), File(sq));
        if Row(sq) + (if s.turn == White then -1 else 1) in {0, 1, 2, 3, 4, 5, 6, 7} {
          Coordinates(sq + Forward(s.turn), Row(sq) + (if s.turn == White then -1 else 1), File(sq));
        }
      }
    }
  }

  lemma SquareMovesFacts(s: State, sq: Square)
    ensures SquareMoves(s, sq).None? <==> LastRankPawn(s, sq)
    ensures SquareMoves(s, sq).Some? ==> var ms := SquareMoves(s, sq).value;
      PromotionsGrouped(ms) && forall mv :: mv in ms ==> mv.source == sq && MoveFact(s, mv)
  {
    match s.board[sq]
    case None =>
    case Some(p) =>
      if p.color == s.turn {
        if p.kind == Pawn {
          if PawnMoves(s, sq).Some? {
            PawnMovesFacts(s, sq);
          }
        } else {
          forall mv | mv in SquareMoves(s, sq).value ensures PieceTarget(s.board, p, sq, mv) {
            PieceMovesSpec(s.board, p, sq, mv);
          }
        }
      }
  }

  /** The loop from its k-th square on yields only moves satisfying MoveFact,
      with promotions grouped; it stops early exactly when a later square
      holds a pawn of the side to move on its last rank. */
  lemma PiecesFromFacts(s: State, k: int)
    requires 0 <= k <= 64
    ensures var g := PiecesFrom(s, k);
      PromotionsGrouped(g.moves) && (forall mv :: mv in g.moves ==> MoveFact(s, mv)) &&
      (g.stop == Exhausted || g.stop == OutsideBoard) &&
      (g.stop == Exhausted <==> forall j :: k <= j < 64 ==> !LastRankPawn(s, SquareAt(j)))
  {
    PiecesFromMoves(s, k);
    PiecesFromStop(s, k);
  }

  lemma {:induction false} PiecesFromMoves(s: State, k: int)
    requires 0 <= k <= 64
    ensures PromotionsGrouped(PiecesFrom(s, k).moves)
    ensures forall mv :: mv in PiecesFrom(s, k).moves ==> MoveFact(s, mv)
    decreases 64 - k
  {
    if k < 64 && SquareMoves(s, SquareAt(k)).Some? {
      var ms := SquareMoves(s, SquareAt(k)).value;
      SquareMovesFacts(s, SquareAt(k));
      PiecesFromMoves(s, k + 1);
      assert PiecesFrom(s, k).moves == ms + PiecesFrom(s, k + 1).moves;
      GroupedConcat(ms, PiecesFrom(s, k + 1).moves);
    }
  }

  lemma {:induction false} PiecesFromStop(s: State, k: int)
    requires 0 <= k <= 64
    ensures PiecesFrom(s, k).stop == Exhausted || PiecesFrom(s, k).stop == OutsideBoard
    ensures PiecesFrom(s, k).stop == Exhausted <==> forall j :: k <= j < 64 ==> !LastRankPawn(s, SquareAt(j))
    decreases 64 - k
  {
    if k < 64 {
      SquareMovesStop(s, SquareAt(k));
      PiecesFromStop(s, k + 1);
      if SquareMoves(s, SquareAt(k)).None? {
        assert PiecesFrom(s, k).stop == OutsideBoard;
        assert LastRankPawn(s, SquareAt(k));
      } else {
        assert PiecesFrom(s, k).stop == PiecesFrom(s, k + 1).stop;
        assert !LastRankPawn(s, SquareAt(k));
      }
    }
  }

  /** When the loop runs to its end it yields every move by the rules of
      chess of every piece other than a pawn from the k-th square on. */
  lemma {:induction false} PiecesFromComplete(s: State, k: int, j: int, mv: Move)
    requires 0 <= k <= j < 64 && PiecesFrom(s, k).stop == Exhausted
    requires HoldsColor(s.board, SquareAt(j), s.turn) && s.board[SquareAt(j)].value.kind != Pawn
    requires PieceTarget(s.board, s.board[SquareAt(j)].value, SquareAt(j), mv)
    ensures mv in PiecesFrom(s, k).moves
    decreases j - k
  {
    if k == j {
      PieceMovesSpec(s.board, s.board[SquareAt(j)].value, SquareAt(j), mv);
    } else {
      PiecesFromComplete(s, k + 1, j, mv);
    }
  }

  // -----------------------------------------------------------------------
  // Castling and the whole generator

  /** The tests castling towards dir passes from the king square from: the
      cells between the king and its rook are empty, the king is not in
      check, and the square it crosses and the square it lands on are on the
      board and not attacked. */
  predicate CastleAllowed(s: State, from: Square, dir: int)
    requires dir == 1 || dir == -1
  {
    CellsEmpty(s.board, from, dir) && CrossingClear(s.board, s.turn, from, dir)
  }

  /** The cells between the king and its rook are empty: two to the right,
      three to the left. */
  predicate CellsEmpty(b: Board, from: Square, dir: int)
    requires dir == 1 || dir == -1
  {
    assert from == 16 * Row(from) + File(from);
    Cell(b, from + dir).None? && Cell(b, from + 2 * dir).None? &&
    (dir == -1 ==> Cell(b, from - 3).None?)
  }

  /** The attack tests of castling: the king is not in check, and the square
      it crosses and the square it lands on are on the board and not
      attacked. */
  predicate CrossingClear(b: Board, turn: Color, from: Square, dir: int)
    requires dir == 1 || dir == -1
  {
    !IsKingAttacked(b, turn) &&
    IsSquare(from + dir) && !IsAttacked(b, Opposite(turn), from + dir) &&
    IsSquare(from + 2 * dir) && !IsAttacked(b, Opposite(turn), from + 2 * dir)
  }

  /** Castling towards dir yields at most one move: the king found by
      get_king going two files, exactly when the right is held and the tests
      pass; holding the right with no king raises. */
  lemma CastleSpec(s: State, dir: int)
    requires dir == 1 || dir == -1
    ensures var g := if dir == 1 then KingSideCastle(s) else QueenSideCastle(s);
      var right := HasRight(s.castling, if dir == 1 then KingSideType(s.turn) else QueenSideType(s.turn));
      var king := GetKing(s.board, s.turn);
      |g.moves| <= 1 &&
      (g.stop == NoKing <==> right && king.None?) &&
      (g.moves != [] <==> right && king.Some? && CastleAllowed(s, king.value, dir)) &&
      (g.moves != [] ==>
        g.stop == Exhausted && g.moves[0].source == king.value &&
        g.moves[0].target == king.value + 2 * dir && g.moves[0].promotion.None?)
  {
    var king := GetKing(s.board, s.turn);
    if king.Some? {
      CrossingSpec(s.board, s.turn, king.value, dir);
    }
  }

  /** The attack tests of castling yield the king's move two files towards
      dir exactly when all pass, and never report a missing king. */
  lemma CrossingSpec(b: Board, turn: Color, from: Square, dir: int)
    requires dir == 1 || dir == -1
    ensures var g := Crossing(b, turn, from, dir);
      g.stop != NoKing && |g.moves| <= 1 &&
      (g.moves != [] <==> CrossingClear(b, turn, from, dir)) &&
      (g.moves != [] ==>
        g.stop == Exhausted && g.moves[0].source == from && g.moves[0].target == from + 2 * dir &&
        g.moves[0].promotion.None?)
  {
    var t1, t2 := from + dir, from + 2 * dir;
    if !IsKingAttacked(b, turn) {
      CrossFromStep(b, turn, from, dir, 1, t1, IsSquare(t1) && IsAttacked(b, Opposite(turn), t1));
      CrossFromStep(b, turn, from, dir, 2, t2, IsSquare(t2) && IsAttacked(b, Opposite(turn), t2));
    }
  }

  /** A castling move: the king found by get_king going two files towards a
      side whose right is held and whose tests pass. */
  predicate CastleMove(s: State, mv: Move)
  {
    GetKing(s.board, s.turn) == Some(mv.source) && mv.promotion.None? &&
    ((mv.target == mv.source + 2 && HasRight(s.castling, KingSideType(s.turn)) && CastleAllowed(s, mv.source, 1)) ||
     (mv.target == mv.source - 2 && HasRight(s.castling, QueenSideType(s.turn)) && CastleAllowed(s, mv.source, -1)))
  }

  /** Every pseudo-legal move starts on a piece of the side to move and is
      either a move of that piece by the loop's rules or a castling move; the
      promotions come in groups of four. */
  lemma PseudoLegalSpec(s: State)
    ensures var g := PseudoLegal(s);
      PromotionsGrouped(g.moves) &&
      (forall mv :: mv in g.moves ==> (MoveFact(s, mv) || CastleMove(s, mv)) && HoldsColor(s.board, mv.source, s.turn)) &&
      (g.stop == Exhausted || g.stop == OutsideBoard || g.stop == NoKing)
  {
    var g0, gk, gq := PiecesFrom(s, 0), KingSideCastle(s), QueenSideCastle(s);
    PiecesFromFacts(s, 0);
    CastleMoves(s, 1);
    CastleMoves(s, -1);
    var g1 := Then(g0, gk);
    GroupedConcat(g0.moves, gk.moves);
    GroupedConcat(g1.moves, gq.moves);
    assert forall mv :: mv in g1.moves ==> mv in g0.moves || mv in gk.moves;
    assert forall mv :: mv in PseudoLegal(s).moves ==> mv in g1.moves || mv in gq.moves;
  }

  /** The moves of one castling side are castling moves, and castling does
      not promote. */
  lemma CastleMoves(s: State, dir: int)
    requires dir == 1 || dir == -1
    ensures var g := if dir == 1 then KingSideCastle(s) else QueenSideCastle(s);
      PromotionsGrouped(g.moves) &&
      (forall mv :: mv in g.moves ==> CastleMove(s, mv) && HoldsColor(s.board, mv.source, s.turn)) &&
      (g.stop == Exhausted || g.stop == OutsideBoard || g.stop == NoKing)
  {
    CastleSpec(s, dir);
  }

  /** Unless a pawn of the side to move stands on its last rank, every move
      by the rules of chess of every other piece of the side to move is
      pseudo-legal. */
  lemma PseudoLegalComplete(s: State, sq: Square, mv: Move)
    requires forall j :: 0 <= j < 64 ==> !LastRankPawn(s, SquareAt(j))
    requires HoldsColor(s.board, sq, s.turn) && s.board[sq].value.kind != Pawn
    requires PieceTarget(s.board, s.board[sq].value, sq, mv)
    ensures mv in PseudoLegal(s).moves
  {
    PiecesFromFacts(s, 0);
    PiecesFromComplete(s, 0, SquareIndex(sq), mv);
  }

  // -----------------------------------------------------------------------
  // Legal moves

  /** Every move the filter keeps is one of ms that make_move applies and
      after which the mover's king is not attacked. */
  lemma {:induction false} LegalFromSound(c: State, turn: Color, ms: seq<Move>, stop: Stop, mv: Move)
    ensures mv in LegalFrom(c, turn, ms, stop).moves ==>
      mv in ms && ApplyMove(c, mv).Ok? && !IsKingAttacked(AfterMove(c, mv).board, turn)
    decreases |ms|
  {
    if ms != [] {
      LegalFromSound(c, turn, ms[1..], stop, mv);
    }
  }

  /** make_move applies every move of ms on c. */
  predicate AllApply(c: State, ms: seq<Move>)
  {
    forall i :: 0 <= i < |ms| ==> ApplyMove(c, ms[i]).Ok?
  }

  /** make_move raises e on c for some move of ms. */
  predicate FailsWith(c: State, ms: seq<Move>, e: MoveError)
  {
    exists i :: 0 <= i < |ms| && ApplyMove(c, ms[i]) == Err(e)
  }

  /** How the filter ends: with the first error make_move raises on a move
      of ms, or like the generator it filters. */
  function FilterStop(c: State, ms: seq<Move>, stop: Stop): Stop
    decreases |ms|
  {
    if ms == [] then stop
    else match ApplyMove(c, ms[0])
      case Err(e) => MoveFailed(e)
      case Ok(_) => FilterStop(c, ms[1..], stop)
  }

  /** The filter ends as FilterStop says; the king test only decides which
      moves it keeps. */
  lemma {:induction false} LegalFromEnds(c: State, turn: Color, ms: seq<Move>, stop: Stop)
    ensures LegalFrom(c, turn, ms, stop).stop == FilterStop(c, ms, stop)
    decreases |ms|
  {
    if ms != [] {
      match ApplyMove(c, ms[0])
      case Err(e) =>
        assert FilterStop(c, ms, stop) == MoveFailed(e);
      case Ok(t) =>
        LegalFromEnds(c, turn, ms[1..], stop);
        assert FilterStop(c, ms, stop) == FilterStop(c, ms[1..], stop);
        var rest := LegalFrom(c, turn, ms[1..], stop);
        assert LegalFrom(c, turn, ms, stop) ==
          if IsKingAttacked(t.board, turn) then rest else Gen([ms[0]] + rest.moves, rest.stop);
    }
  }

  /** FilterStop keeps the generator's ending exactly when make_move applies
      every move, and otherwise reports the error of one of them. */
  lemma {:induction false} FilterStopSpec(c: State, ms: seq<Move>, stop: Stop)
    requires !stop.MoveFailed?
    ensures FilterStop(c, ms, stop) == stop <==> AllApply(c, ms)
    ensures FilterStop(c, ms, stop) != stop ==>
      FilterStop(c, ms, stop).MoveFailed? && FailsWith(c, ms, FilterStop(c, ms, stop).error)
    decreases |ms|
  {
    if ms != [] {
      match ApplyMove(c, ms[0])
      case Err(e) =>
        assert !AllApply(c, ms);
        assert FailsWith(c, ms, e);
      case Ok(t) =>
        FilterStopSpec(c, ms[1..], stop);
        AllApplyStep(c, ms);
        assert FilterStop(c, ms, stop) == FilterStop(c, ms[1..], stop);
        if FilterStop(c, ms[1..], stop) != stop {
          FailsWithStep(c, ms, FilterStop(c, ms[1..], stop).error);
        }
    }
  }

  /** All moves of a non-empty list apply exactly when the first does and
      all the others do. */
  lemma AllApplyStep(c: State, ms: seq<Move>)
    requires ms != []
    ensures AllApply(c, ms) <==> ApplyMove(c, ms[0]).Ok? && AllApply(c, ms[1..])
  {
    if ApplyMove(c, ms[0]).Ok? && AllApply(c, ms[1..]) {
      forall i | 0 <= i < |ms| ensures ApplyMove(c, ms[i]).Ok? {
        if i > 0 { assert ms[i] == ms[1..][i - 1]; }
      }
    }
    if AllApply(c, ms) {
      forall i | 0 <= i < |ms| - 1 ensures ApplyMove(c, ms[1..][i]).Ok? {
        assert ms[1..][i] == ms[i + 1];
      }
    }
  }

  /** An error raised on a move of the tail is raised on a move of the list. */
  lemma FailsWithStep(c: State, ms: seq<Move>, e: MoveError)
    requires ms != [] && FailsWith(c, ms[1..], e)
    ensures FailsWith(c, ms, e)
  {
    var i :| 0 <= i < |ms[1..]| && ApplyMove(c, ms[1..][i]) == Err(e);
    assert ms[1..][i] == ms[i + 1];
  }

  /** The filter ends like the generator it filters exactly when make_move
      applies every move; otherwise it ends with the error of one move. */
  lemma LegalFromStop(c: State, turn: Color, ms: seq<Move>, stop: Stop)
    requires !stop.MoveFailed?
    ensures LegalFrom(c, turn, ms, stop).stop == stop <==> AllApply(c, ms)
    ensures LegalFrom(c, turn, ms, stop).stop != stop ==>
      LegalFrom(c, turn, ms, stop).stop.MoveFailed? && FailsWith(c, ms, LegalFrom(c, turn, ms, stop).stop.error)
  {
    LegalFromEnds(c, turn, ms, stop);
    FilterStopSpec(c, ms, stop);
  }

  /** When make_move applies every move, the filter keeps every move after
      which the mover's king is not attacked. */
  lemma {:induction false} LegalFromComplete(c: State, turn: Color, ms: seq<Move>, stop: Stop, mv: Move)
    requires AllApply(c, ms)
    requires mv in ms && !IsKingAttacked(AfterMove(c, mv).board, turn)
    ensures mv in LegalFrom(c, turn, ms, stop).moves
    decreases |ms|
  {
    AllApplyStep(c, ms);
    var t := ApplyMove(c, ms[0]).value;
    var rest := LegalFrom(c, turn, ms[1..], stop);
    assert LegalFrom(c, turn, ms, stop).moves ==
      if IsKingAttacked(t.board, turn) then rest.moves else [ms[0]] + rest.moves;
    if mv != ms[0] {
      assert mv in ms[1..];
      LegalFromComplete(c, turn, ms[1..], stop, mv);
    } else {
      assert AfterMove(c, mv) == t;
    }
  }

  /** make_move raises on the copy only for a black pawn reaching rank 1 by
      the en passant branch: the pseudo-legal moves all start on a piece of
      the side to move and go elsewhere. */
  lemma PseudoLegalApplies(s: State, c: State, mv: Move)
    requires SameButCastling(c, s) && mv in PseudoLegal(s).moves
    ensures ApplyMove(c, mv).Err? ==>
      ApplyMove(c, mv).error == IndexOutOfRange && s.turn == Black && Rank(mv.target) == 1
  {
    PseudoLegalSpec(s);
    ApplyMoveErrors(c, mv);
    ApplyMoveErrors(s, mv);
    ApplyMoveIgnoresCastling(s, c.castling, mv);
    assert s.(castling := c.castling) == c;
  }

  /** A copy that differs only in its castling rights agrees with the
      position on every pseudo-legal move: make_move applies it on both or
      on neither, leaves the same board, and fails only with IndexError. */
  lemma CopyAgrees(s: State, c: State)
    requires SameButCastling(c, s)
    ensures var p := PseudoLegal(s);
      forall i :: 0 <= i < |p.moves| ==>
        ApplyMove(c, p.moves[i]).Ok? == ApplyMove(s, p.moves[i]).Ok? &&
        AfterMove(c, p.moves[i]).board == AfterMove(s, p.moves[i]).board &&
        (ApplyMove(c, p.moves[i]).Err? ==> ApplyMove(c, p.moves[i]).error == IndexOutOfRange)
  {
    var p := PseudoLegal(s);
    assert c == s.(castling := c.castling);
    forall i | 0 <= i < |p.moves|
      ensures ApplyMove(c, p.moves[i]).Ok? == ApplyMove(s, p.moves[i]).Ok?
      ensures AfterMove(c, p.moves[i]).board == AfterMove(s, p.moves[i]).board
      ensures ApplyMove(c, p.moves[i]).Err? ==> ApplyMove(c, p.moves[i]).error == IndexOutOfRange
    {
      ApplyMoveIgnoresCastling(s, c.castling, p.moves[i]);
      PseudoLegalApplies(s, c, p.moves[i]);
    }
  }

  /** With pseudo-legal moves to try, get_legal_moves() filters them on the
      copy loaded from the position's FEN. */
  lemma LegalFiltersCopy(s: State)
    requires Loadable(s) && PseudoLegal(s).moves != []
    ensures Legal(s) == LegalFrom(Reloaded(s), s.turn, PseudoLegal(s).moves, PseudoLegal(s).stop)
    ensures SameButCastling(Reloaded(s), s)
  {
    ReloadFen(s);
  }

  /** The filter over moves ms, run on a copy c that agrees with s on each
      of them and fails only with IndexError. */
  lemma FilterSpec(s: State, c: State, ms: seq<Move>, stop: Stop, mv: Move)
    requires !stop.MoveFailed?
    requires forall i :: 0 <= i < |ms| ==>
      ApplyMove(c, ms[i]).Ok? == ApplyMove(s, ms[i]).Ok? &&
      AfterMove(c, ms[i]).board == AfterMove(s, ms[i]).board &&
      (ApplyMove(c, ms[i]).Err? ==> ApplyMove(c, ms[i]).error == IndexOutOfRange)
    ensures var g := LegalFrom(c, s.turn, ms, stop);
      (mv in g.moves ==> mv in ms && ApplyMove(s, mv).Ok? && !IsKingAttacked(AfterMove(s, mv).board, s.turn)) &&
      (g.stop == stop <==> AllApply(s, ms)) &&
      (g.stop == stop && mv in ms && !IsKingAttacked(AfterMove(s, mv).board, s.turn) ==> mv in g.moves) &&
      (g.stop != stop ==> g.stop == MoveFailed(IndexOutOfRange))
  {
    LegalFromSound(c, s.turn, ms, stop, mv);
    LegalFromStop(c, s.turn, ms, stop);
    assert AllApply(c, ms) <==> AllApply(s, ms);
    if mv in ms {
      var i :| 0 <= i < |ms| && ms[i] == mv;
      if AllApply(c, ms) && !IsKingAttacked(AfterMove(s, mv).board, s.turn) {
        LegalFromComplete(c, s.turn, ms, stop, mv);
      }
    }
    var g := LegalFrom(c, s.turn, ms, stop);
    if g.stop != stop {
      var i :| 0 <= i < |ms| && ApplyMove(c, ms[i]) == Err(g.stop.error);
    }
  }

  /** get_legal_moves() on a position that loads back from its FEN: every
      legal move is a pseudo-legal move after which, made on this position,
      the mover's king is not attacked. The generator ends like the
      pseudo-legal one exactly when make_move applies every pseudo-legal
      move, and then it yields every such move; otherwise it ends with the
      IndexError of a black pawn reaching rank 1 by the en passant branch. */
  lemma LegalSpec(s: State, mv: Move)
    requires Loadable(s)
    ensures var g, p := Legal(s), PseudoLegal(s);
      (mv in g.moves ==> mv in p.moves && ApplyMove(s, mv).Ok? && !IsKingAttacked(AfterMove(s, mv).board, s.turn)) &&
      (g.stop == p.stop <==> AllApply(s, p.moves)) &&
      (g.stop == p.stop && mv in p.moves && !IsKingAttacked(AfterMove(s, mv).board, s.turn) ==> mv in g.moves) &&
      (g.stop != p.stop ==> g.stop == MoveFailed(IndexOutOfRange))
  {
    var p := PseudoLegal(s);
    if p.moves != [] {
      PseudoLegalSpec(s);
      LegalFiltersCopy(s);
      CopyAgrees(s, Reloaded(s));
      FilterSpec(s, Reloaded(s), p.moves, p.stop, mv);
    }
  }
}
