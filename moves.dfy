/** make_move: moving the piece with two `set` calls, toggling the turn, the
    en-passant removal and file, promotion, the rook of a castling move and
    the two counters, with Python's list indexing for the raw cell writes. */
module Moves {
  import opened ChessTypes
  import opened Geometry
  import opened BoardState

  /** The exceptions make_move can raise: AttributeError when no piece stands
      on the target after the move (the source was empty, or was the target
      itself), IndexError when the en-passant removal after a black pawn move
      reaches past the end of the board list. */
  datatype MoveError = EmptySource | IndexOutOfRange

  /** The first three steps of make_move: `set(target, get(source))`,
      `set(source, None)` and toggle_turn. An error raised later leaves the
      position in this state. */
  function Relocated(s: State, m: Move): State
  {
    var s1 := SetPiece(s, m.target, s.board[m.source]);
    var s2 := SetPiece(s1, m.source, None);
    s2.(turn := Opposite(s2.turn))
  }

  /** `get(sq).get_type() == kind`, for a cell known to hold a piece. */
  predicate HoldsKind(b: Board, sq: Square, kind: Kind)
  {
    b[sq].Some? && b[sq].value.kind == kind
  }

  /** The cell the en-passant removal clears: `target - 16` when black is to
      move after the move (white moved), `target + 16` otherwise. That is the
      cell one rank beyond the target in the mover's direction, not the cell
      of the pawn it passed, so a genuine en-passant capture leaves the taken
      pawn standing. */
  function EpVictim(m: Move, turnAfter: Color): int
  {
    if turnAfter == Black then m.target - 16 else m.target + 16
  }

  /** The rook of a castling move, as the pair (rook_target, rook_source):
      (target + 1, target - 2) when the king went two files left,
      (target - 1, target + 1) otherwise. */
  function RookCells(m: Move): (cells: (int, int))
    ensures -2 <= cells.0 <= 120 && -2 <= cells.1 <= 120
  {
    if File(m.target) - File(m.source) == -2 then (m.target + 1, m.target - 2)
    else (m.target - 1, m.target + 1)
  }

  /** A king stands on the target two files away from the source. */
  predicate RookMoves(b: Board, m: Move)
  {
    HoldsKind(b, m.target, King) && Abs(File(m.target) - File(m.source)) == 2
  }

  /** The castling step: when a king landed two files away from its source,
      `_board[rook_target] = _board[rook_source]; _board[rook_source] = None`. */
  function Castled(b: Board, m: Move): Board
  {
    if RookMoves(b, m) then
      var (rt, rs) := RookCells(m);
      WriteCell(WriteCell(b, rt, Cell(b, rs)), rs, None)
    else b
  }

  /** The promotion step: `set(target, Piece(color, promotion))`. */
  function Promoted(s: State, m: Move, color: Color): State
  {
    if m.promotion.Some? then SetPiece(s, m.target, Some(Piece(color, m.promotion.value))) else s
  }

  /** The pawn block of make_move, for a pawn on the target: after a change
      of file onto an empty square, the cell one rank beyond the target is cleared
      (IndexError past the end of the list); the en-passant file becomes the
      target's file after a move of two ranks and None otherwise. Any other
      piece only clears the en-passant file. */
  function PawnStep(r: State, m: Move, capture: Option<Piece>): Result<State, MoveError>
    requires r.board[m.target].Some?
  {
    if r.board[m.target].value.kind == Pawn then
      var removal := File(m.target) != File(m.source) && capture.None?;
      var victim := EpVictim(m, r.turn);
      if removal && victim >= 128 then Err(IndexOutOfRange)
      else
        var b := if removal then WriteCell(r.board, victim, None) else r.board;
        var ep := if Abs(Rank(m.target) - Rank(m.source)) == 2 then Some(FileLetter(m.target)) else None;
        Ok(r.(board := b, epFile := ep))
    else Ok(r.(epFile := None))
  }

  /** The two counters: the half-move clock restarts after a pawn landed or
      a capture and counts up otherwise; the move number counts up when white
      is to move next. */
  function Counters(r: State, m: Move, captured: bool): State
  {
    var half := if HoldsKind(r.board, m.target, Pawn) || captured then 0 else r.halfMoves + 1;
    var number := if r.turn == White then r.moveNumber + 1 else r.moveNumber;
    r.(halfMoves := half, moveNumber := number)
  }

  /** make_move(m): the position afterwards, or the exception raised. */
  function ApplyMove(s: State, m: Move): Result<State, MoveError>
  {
    var capture := s.board[m.target];
    var r := Relocated(s, m);
    if r.board[m.target].None? then Err(EmptySource)
    else
      var moved := r.board[m.target].value;
      match PawnStep(r, m, capture)
      case Err(e) => Err(e)
      case Ok(r1) => Ok(Finish(r1, m, moved, capture))
  }

  /** The steps of make_move after the pawn block: promotion, the rook of a
      castling move and the counters. */
  function Finish(r1: State, m: Move, moved: Piece, capture: Option<Piece>): State
  {
    var r2 := Promoted(r1, m, moved.color);
    var r3 := r2.(board := Castled(r2.board, m));
    var captured := capture.Some? || (moved.kind == Pawn && File(m.target) != File(m.source));
    Counters(r3, m, captured)
  }

  /** The state an error leaves behind: make_move's partial update. */
  function AfterMove(s: State, m: Move): State
  {
    match ApplyMove(s, m)
    case Ok(t) => t
    case Err(_) => Relocated(s, m)
  }

  // -----------------------------------------------------------------------
  // What make_move does

  /** The relocation empties the source, puts the source's piece on the
      target (nothing, when the two coincide), toggles the turn, leaves every
      other cell and counter alone and only ever drops castling rights. */
  lemma RelocatedEffect(s: State, m: Move)
    ensures var r := Relocated(s, m);
      r.board[m.source] == None &&
      r.board[m.target] == (if m.source == m.target then None else s.board[m.source]) &&
      (forall i :: 0 <= i < 128 && i != m.source && i != m.target ==> r.board[i] == s.board[i]) &&
      r.turn == Opposite(s.turn) && r.epFile == s.epFile &&
      r.halfMoves == s.halfMoves && r.moveNumber == s.moveNumber &&
      (forall t :: HasRight(r.castling, t) ==> HasRight(s.castling, t)) &&
      RightsBacked(r) && (Loadable(s) ==> Loadable(r))
  {
    var s1 := SetPiece(s, m.target, s.board[m.source]);
    SetPieceEffect(s, m.target, s.board[m.source]);
    SetPieceEffect(s1, m.source, None);
  }

  /** A pawn leaving its file for an empty square: the case in which
      make_move clears the cell one rank beyond the target. */
  predicate EnPassantShape(s: State, m: Move)
  {
    m.source != m.target && s.board[m.source].Some? && s.board[m.source].value.kind == Pawn &&
    File(m.target) != File(m.source) && s.board[m.target].None?
  }

  /** make_move fails with AttributeError exactly when no piece comes to
      stand on the target, and with IndexError exactly for a black pawn
      reaching an empty square of rank 1 on another file. */
  lemma ApplyMoveErrors(s: State, m: Move)
    ensures ApplyMove(s, m) == Err(EmptySource) <==> s.board[m.source].None? || m.source == m.target
    ensures ApplyMove(s, m) == Err(IndexOutOfRange) <==>
      EnPassantShape(s, m) && s.turn == Black && Rank(m.target) == 1
  {
    var r := Relocated(s, m);
    RelocatedTarget(s, m);
    ApplyMoveErrorsOf(s, m);
    if r.board[m.target].Some? {
      PawnStepError(r, m, s.board[m.target]);
    }
    VictimPastEnd(m, r.turn);
  }

  /** After the relocation the target holds the source's piece (nothing when
      the two coincide), and the other side is to move. */
  lemma RelocatedTarget(s: State, m: Move)
    ensures Relocated(s, m).board[m.target] == (if m.source == m.target then None else s.board[m.source])
    ensures Relocated(s, m).board[m.source] == None
    ensures var r := Relocated(s, m);
      r.turn == Opposite(s.turn) && r.epFile == s.epFile && r.halfMoves == s.halfMoves && r.moveNumber == s.moveNumber
  {
  }

  /** A successful make_move is the relocation of a piece to another square,
      a pawn block that does not raise, and the remaining steps. */
  lemma ApplyMoveOk(s: State, m: Move)
    requires ApplyMove(s, m).Ok?
    ensures m.source != m.target && s.board[m.source].Some?
    ensures Relocated(s, m).board[m.target] == s.board[m.source]
    ensures PawnStep(Relocated(s, m), m, s.board[m.target]).Ok?
    ensures ApplyMove(s, m).value ==
      Finish(PawnStep(Relocated(s, m), m, s.board[m.target]).value, m, s.board[m.source].value, s.board[m.target])
  {
    RelocatedTarget(s, m);
  }

  /** The pawn block keeps the source and target cells, the turn and the
      counters, and sets the en-passant file. */
  lemma PawnStepKeeps(r: State, m: Move, capture: Option<Piece>)
    requires r.board[m.target].Some? && PawnStep(r, m, capture).Ok?
    ensures var r1 := PawnStep(r, m, capture).value;
      r1.board[m.target] == r.board[m.target] && r1.board[m.source] == r.board[m.source] &&
      r1.turn == r.turn && r1.halfMoves == r.halfMoves && r1.moveNumber == r.moveNumber &&
      r1.epFile == (if r.board[m.target].value.kind == Pawn && Abs(Rank(m.target) - Rank(m.source)) == 2
                    then Some(FileLetter(m.target)) else None)
  {
    if r.board[m.target].value.kind == Pawn && File(m.target) != File(m.source) && capture.None? {
      VictimApart(m, r.turn);
    }
  }

  /** The remaining steps land the moved piece, or its promotion, on the
      target, leave the source alone, keep the turn and the en-passant file,
      and update the counters. */
  lemma FinishEffect(r1: State, m: Move, moved: Piece, capture: Option<Piece>)
    requires m.source != m.target
    ensures var t := Finish(r1, m, moved, capture);
      t.board[m.target] == (if m.promotion.Some? then Some(Piece(moved.color, m.promotion.value)) else r1.board[m.target]) &&
      t.board[m.source] == r1.board[m.source] &&
      t.turn == r1.turn && t.epFile == r1.epFile &&
      t.moveNumber == (if r1.turn == White then r1.moveNumber + 1 else r1.moveNumber) &&
      t.halfMoves == (if HoldsKind(t.board, m.target, Pawn) ||
                         capture.Some? || (moved.kind == Pawn && File(m.target) != File(m.source))
                      then 0 else r1.halfMoves + 1)
  {
    var r2 := Promoted(r1, m, moved.color);
    CastledKeeps(r2.board, m);
  }

  /** The relocation writes only the source and the target. */
  lemma RelocatedCell(s: State, m: Move, k: int)
    requires 0 <= k < 128 && k != m.source && k != m.target
    ensures Relocated(s, m).board[k] == s.board[k]
  {
  }

  /** The pawn block writes only the cell one rank beyond the target, and only for a
      pawn leaving its file for an empty square. */
  lemma PawnStepCell(r: State, m: Move, capture: Option<Piece>, k: int)
    requires r.board[m.target].Some? && PawnStep(r, m, capture).Ok? && 0 <= k < 128
    requires r.board[m.target].value.kind == Pawn && File(m.target) != File(m.source) && capture.None? ==>
      k != Wrap(EpVictim(m, r.turn))
    ensures PawnStep(r, m, capture).value.board[k] == r.board[k]
  {
  }

  /** The cell one rank beyond the target is none of the rook cells. */
  lemma VictimOffRookCells(m: Move, turn: Color)
    requires EpVictim(m, turn) < 128
    ensures -128 <= EpVictim(m, turn)
    ensures Wrap(EpVictim(m, turn)) != Wrap(RookCells(m).0) && Wrap(EpVictim(m, turn)) != Wrap(RookCells(m).1)
  {
  }

  /** The remaining steps write only the target and, for a king landing two
      files away, the rook cells. */
  lemma FinishCell(r1: State, m: Move, moved: Piece, capture: Option<Piece>, k: int)
    requires 0 <= k < 128 && k != m.target
    requires Abs(File(m.target) - File(m.source)) == 2 ==> k != Wrap(RookCells(m).0) && k != Wrap(RookCells(m).1)
    ensures Finish(r1, m, moved, capture).board[k] == r1.board[k]
  {
  }

  /** For a king landing two files away, the remaining steps move the rook
      source cell's contents to the rook target cell and empty the rook
      source. */
  lemma FinishRook(r1: State, m: Move, moved: Piece, capture: Option<Piece>)
    requires m.source != m.target && r1.board[m.target] == Some(moved)
    requires Landed(moved, m).kind == King && Abs(File(m.target) - File(m.source)) == 2
    ensures var t := Finish(r1, m, moved, capture);
      Cell(t.board, RookCells(m).0) == Cell(r1.board, RookCells(m).1) && Cell(t.board, RookCells(m).1) == None
  {
    var r2 := Promoted(r1, m, moved.color);
    assert RookMoves(r2.board, m);
    RookCellsApart(m);
  }

  /** The castling step keeps the king's source and target cells. */
  lemma CastledKeeps(b: Board, m: Move)
    ensures Castled(b, m)[m.target] == b[m.target] && Castled(b, m)[m.source] == b[m.source]
  {
    if RookMoves(b, m) {
      RookCellsApart(m);
    }
  }

  /** make_move raises AttributeError when the relocation leaves the target
      empty, and otherwise raises what the pawn block raises. */
  lemma ApplyMoveErrorsOf(s: State, m: Move)
    ensures ApplyMove(s, m) == Err(EmptySource) <==> Relocated(s, m).board[m.target].None?
    ensures ApplyMove(s, m) == Err(IndexOutOfRange) <==>
      Relocated(s, m).board[m.target].Some? && PawnStep(Relocated(s, m), m, s.board[m.target]) == Err(IndexOutOfRange)
  {
    var r := Relocated(s, m);
    if r.board[m.target].Some? {
      PawnStepError(r, m, s.board[m.target]);
    }
  }

  /** The pawn block raises only IndexError, exactly when a pawn left its
      file for an empty square and the cell one rank beyond lies past the list. */
  lemma PawnStepError(r: State, m: Move, capture: Option<Piece>)
    requires r.board[m.target].Some?
    ensures PawnStep(r, m, capture).Err? ==> PawnStep(r, m, capture).error == IndexOutOfRange
    ensures PawnStep(r, m, capture).Err? <==>
      r.board[m.target].value.kind == Pawn && File(m.target) != File(m.source) && capture.None? &&
      EpVictim(m, r.turn) >= 128
  {
  }

  /** The cell one rank beyond the target lies past the list only when white is to
      move after the move and the target is on rank 1. */
  lemma VictimPastEnd(m: Move, turn: Color)
    ensures EpVictim(m, turn) >= 128 <==> turn == White && Rank(m.target) == 1
  {
  }

  /** The pawn block writes at most the cell one rank beyond the target, which it
      empties, sets the en-passant file, and changes nothing else. */
  lemma PawnStepEffect(r: State, m: Move, capture: Option<Piece>)
    requires r.board[m.target].Some? && PawnStep(r, m, capture).Ok?
    ensures var r1, p := PawnStep(r, m, capture).value, r.board[m.target].value;
      var removal := p.kind == Pawn && File(m.target) != File(m.source) && capture.None?;
      (removal ==> Cell(r1.board, EpVictim(m, r.turn)) == None) &&
      (forall i :: 0 <= i < 128 && !(removal && i == Wrap(EpVictim(m, r.turn))) ==> r1.board[i] == r.board[i]) &&
      r1.board[m.target] == r.board[m.target] &&
      r1.epFile == (if p.kind == Pawn && Abs(Rank(m.target) - Rank(m.source)) == 2
                    then Some(FileLetter(m.target)) else None) &&
      r1.turn == r.turn && r1.castling == r.castling &&
      r1.halfMoves == r.halfMoves && r1.moveNumber == r.moveNumber
  {
  }

  /** The cell one rank beyond a target on another file is neither the source nor the
      target. */
  lemma VictimApart(m: Move, turn: Color)
    requires File(m.target) != File(m.source) && EpVictim(m, turn) < 128
    ensures -128 <= EpVictim(m, turn) && Wrap(EpVictim(m, turn)) != m.source && Wrap(EpVictim(m, turn)) != m.target
  {
  }

  /** Promotion writes only the target, in the mover's colour. */
  lemma PromotedEffect(r: State, m: Move, color: Color)
    ensures var r2 := Promoted(r, m, color);
      r2.board[m.target] == (if m.promotion.Some? then Some(Piece(color, m.promotion.value)) else r.board[m.target]) &&
      (forall i :: 0 <= i < 128 && i != m.target ==> r2.board[i] == r.board[i]) &&
      r2.turn == r.turn && r2.epFile == r.epFile &&
      r2.halfMoves == r.halfMoves && r2.moveNumber == r.moveNumber &&
      (forall t :: HasRight(r2.castling, t) ==> HasRight(r.castling, t)) &&
      (Loadable(r) ==> Loadable(r2))
  {
    if m.promotion.Some? {
      SetPieceEffect(r, m.target, Some(Piece(color, m.promotion.value)));
    }
  }

  /** The rook cells of a castling move are neither the source nor the
      target of the king. */
  lemma RookCellsApart(m: Move)
    requires Abs(File(m.target) - File(m.source)) == 2
    ensures var (rt, rs) := RookCells(m);
      -128 <= rt < 128 && -128 <= rs < 128 &&
      Wrap(rt) != m.target && Wrap(rt) != m.source && Wrap(rs) != m.target && Wrap(rs) != m.source &&
      Wrap(rt) != Wrap(rs)
  {
  }

  /** The castling step moves the contents of the rook source cell to the rook
      target cell, empties the rook source and writes nothing else. */
  lemma CastledEffect(b: Board, m: Move)
    ensures var c := Castled(b, m);
      (RookMoves(b, m) ==>
         Cell(c, RookCells(m).0) == Cell(b, RookCells(m).1) && Cell(c, RookCells(m).1) == None) &&
      (forall i :: 0 <= i < 128 && !(RookMoves(b, m) && (i == Wrap(RookCells(m).0) || i == Wrap(RookCells(m).1)))
         ==> c[i] == b[i]) &&
      c[m.target] == b[m.target] && c[m.source] == b[m.source]
  {
    if RookMoves(b, m) {
      RookCellsApart(m);
    }
  }
  /** The piece that lands on the target: the moved piece, or a piece of the
      promotion type in the mover's colour. */
  function Landed(p: Piece, m: Move): Piece
  {
    if m.promotion.Some? then Piece(p.color, m.promotion.value) else p
  }

  /** A king (after any promotion) that lands two files away: make_move moves
      a rook as well. */
  predicate CastlingShape(s: State, m: Move)
  {
    m.source != m.target && s.board[m.source].Some? &&
    Landed(s.board[m.source].value, m).kind == King && Abs(File(m.target) - File(m.source)) == 2
  }

  /** The list position Python writes for an index in -128..127. */
  function Wrap(i: int): int { if i < 0 then i + 128 else i }

  /** The cells make_move writes besides the source and the target. */
  predicate Touched(s: State, m: Move, i: int)
  {
    (EnPassantShape(s, m) && i == Wrap(EpVictim(m, Opposite(s.turn)))) ||
    (CastlingShape(s, m) && (i == Wrap(RookCells(m).0) || i == Wrap(RookCells(m).1)))
  }

  /** A successful make_move moved a piece: it empties the source and lands
      the moved piece, or a piece of the promotion type in the mover's colour,
      on the target. */
  lemma ApplyMoveSquares(s: State, m: Move)
    requires ApplyMove(s, m).Ok?
    ensures m.source != m.target && s.board[m.source].Some?
    ensures var t := ApplyMove(s, m).value;
      t.board[m.source] == None && t.board[m.target] == Some(Landed(s.board[m.source].value, m))
  {
    ApplyMoveOk(s, m);
    var r := Relocated(s, m);
    RelocatedTarget(s, m);
    PawnStepKeeps(r, m, s.board[m.target]);
    FinishEffect(PawnStep(r, m, s.board[m.target]).value, m, s.board[m.source].value, s.board[m.target]);
  }

  /** make_move toggles the turn and counts a move after black's turn. */
  lemma ApplyMoveTurn(s: State, m: Move)
    requires ApplyMove(s, m).Ok?
    ensures var t := ApplyMove(s, m).value;
      t.turn == Opposite(s.turn) &&
      t.moveNumber == (if s.turn == Black then s.moveNumber + 1 else s.moveNumber)
  {
    ApplyMoveOk(s, m);
    var r := Relocated(s, m);
    RelocatedTarget(s, m);
    PawnStepKeeps(r, m, s.board[m.target]);
    FinishEffect(PawnStep(r, m, s.board[m.target]).value, m, s.board[m.source].value, s.board[m.target]);
  }

  /** The half-move clock restarts after a pawn landed on the target (a
      promoted piece is no pawn) or after a capture, en passant included, and
      counts up otherwise. */
  lemma ApplyMoveHalfMoves(s: State, m: Move)
    requires ApplyMove(s, m).Ok?
    ensures m.source != m.target && s.board[m.source].Some?
    ensures var t := ApplyMove(s, m).value;
      t.halfMoves == (if Landed(s.board[m.source].value, m).kind == Pawn || s.board[m.target].Some? ||
                         EnPassantShape(s, m)
                      then 0 else s.halfMoves + 1)
  {
    ApplyMoveOk(s, m);
    var r := Relocated(s, m);
    RelocatedTarget(s, m);
    PawnStepKeeps(r, m, s.board[m.target]);
    FinishEffect(PawnStep(r, m, s.board[m.target]).value, m, s.board[m.source].value, s.board[m.target]);
  }

  /** The en-passant file is the target's file exactly after a pawn moved two
      ranks, and None otherwise. */
  lemma ApplyMoveEpFile(s: State, m: Move)
    requires ApplyMove(s, m).Ok?
    ensures m.source != m.target && s.board[m.source].Some?
    ensures var t := ApplyMove(s, m).value;
      t.epFile == (if s.board[m.source].value.kind == Pawn && Abs(Rank(m.target) - Rank(m.source)) == 2
                   then Some(FileLetter(m.target)) else None)
  {
    ApplyMoveOk(s, m);
    var r := Relocated(s, m);
    RelocatedTarget(s, m);
    PawnStepKeeps(r, m, s.board[m.target]);
    FinishEffect(PawnStep(r, m, s.board[m.target]).value, m, s.board[m.source].value, s.board[m.target]);
  }

  /** The en-passant removal empties the cell one rank beyond the target (Python's
      wrap-around applies to a negative index). */
  lemma ApplyMoveEnPassant(s: State, m: Move)
    requires ApplyMove(s, m).Ok? && EnPassantShape(s, m)
    ensures Cell(ApplyMove(s, m).value.board, EpVictim(m, Opposite(s.turn))) == None
  {
    ApplyMoveOk(s, m);
    var r := Relocated(s, m);
    RelocatedTarget(s, m);
    var r1 := PawnStep(r, m, s.board[m.target]).value;
    VictimApart(m, r.turn);
    VictimOffRookCells(m, r.turn);
    FinishCell(r1, m, s.board[m.source].value, s.board[m.target], Wrap(EpVictim(m, r.turn)));
  }

  /** The castling step moves the rook source cell's contents to the rook
      target cell and empties the rook source. */
  lemma ApplyMoveRook(s: State, m: Move)
    requires ApplyMove(s, m).Ok? && CastlingShape(s, m)
    ensures var t := ApplyMove(s, m).value;
      Cell(t.board, RookCells(m).0) == Cell(s.board, RookCells(m).1) && Cell(t.board, RookCells(m).1) == None
  {
    ApplyMoveOk(s, m);
    var r := Relocated(s, m);
    RelocatedTarget(s, m);
    var capture := s.board[m.target];
    var r1 := PawnStep(r, m, capture).value;
    PawnStepKeeps(r, m, capture);
    RookCellsApart(m);
    var rs := Wrap(RookCells(m).1);
    if r.board[m.target].value.kind == Pawn && File(m.target) != File(m.source) && capture.None? {
      VictimOffRookCells(m, r.turn);
    }
    PawnStepCell(r, m, capture, rs);
    RelocatedCell(s, m, rs);
    FinishRook(r1, m, s.board[m.source].value, capture);
  }

  lemma RookStepDone(before: Board, b: Board, after: Board, m: Move)
    requires RookMoves(b, m) && after == Castled(b, m)
    requires Cell(b, RookCells(m).1) == Cell(before, RookCells(m).1)
    ensures Cell(after, RookCells(m).0) == Cell(before, RookCells(m).1) && Cell(after, RookCells(m).1) == None
  {
    CastledEffect(b, m);
  }

  /** Besides the source and the target, make_move changes only the cell
      one rank beyond an en-passant target and the two rook cells of a castling move. */
  lemma ApplyMoveFrame(s: State, m: Move)
    requires ApplyMove(s, m).Ok?
    ensures var t := ApplyMove(s, m).value;
      forall i :: 0 <= i < 128 && i != m.source && i != m.target && !Touched(s, m, i) ==> t.board[i] == s.board[i]
  {
    ApplyMoveErrors(s, m);
    RelocatedEffect(s, m);
    var capture := s.board[m.target];
    var r := Relocated(s, m);
    var moved := r.board[m.target].value;
    PawnStepEffect(r, m, capture);
    var r1 := PawnStep(r, m, capture).value;
    if EnPassantShape(s, m) {
      VictimApart(m, r.turn);
    }
    PromotedEffect(r1, m, moved.color);
    var r2 := Promoted(r1, m, moved.color);
    CastledEffect(r2.board, m);
    assert RookMoves(r2.board, m) == CastlingShape(s, m);
    if CastlingShape(s, m) {
      RookCellsApart(m);
    }
  }

  /** make_move keeps the position loadable (off-board cells empty, the
      castling string canonical, a file letter for en passant, counters in
      range) and never adds a castling right. */
  lemma ApplyMoveLoadable(s: State, m: Move)
    requires ApplyMove(s, m).Ok?
    ensures var t := ApplyMove(s, m).value;
      (Loadable(s) ==> Loadable(t)) &&
      (forall x :: HasRight(t.castling, x) ==> HasRight(s.castling, x))
  {
    ApplyMoveErrors(s, m);
    RelocatedEffect(s, m);
    var capture := s.board[m.target];
    var r := Relocated(s, m);
    var moved := r.board[m.target].value;
    PawnStepEffect(r, m, capture);
    var r1 := PawnStep(r, m, capture).value;
    assert PawnStep(r, m, capture) == Ok(r1);
    PromotedEffect(r1, m, moved.color);
    var r2 := Promoted(r1, m, moved.color);
    var t := ApplyMove(s, m).value;
    assert t.board == Castled(r2.board, m) && t.castling == r2.castling && t.epFile == r2.epFile;
    if Loadable(s) {
      assert Loadable(r1);
      CastledKeepsOffBoard(r2.board, m);
    }
  }

  /** The castling step writes the rook target, a square, and clears the
      rook source, so cells off the board stay empty. */
  lemma CastledKeepsOffBoard(b: Board, m: Move)
    requires OffBoardEmpty(b)
    ensures OffBoardEmpty(Castled(b, m))
  {
    if RookMoves(b, m) {
      var (rt, rs) := RookCells(m);
      RookTargetOnBoard(m);
      var b1 := WriteCell(b, rt, Cell(b, rs));
      var b2 := WriteCell(b1, rs, None);
      assert Castled(b, m) == b2;
      forall i | 0 <= i < 128 && !IsSquare(i) ensures b2[i] == None {
        if i != Wrap(rs) {
          assert b2[i] == b1[i];
          assert i != Wrap(rt);
        }
      }
    }
  }

  /** The rook of a castling move lands on a square beside the king. */
  lemma RookTargetOnBoard(m: Move)
    requires Abs(File(m.target) - File(m.source)) == 2
    ensures 0 <= RookCells(m).0 < 128 && IsSquare(RookCells(m).0)
  {
    if File(m.target) - File(m.source) == -2 {
      Coordinates(m.target + 1, Row(m.target), File(m.target) + 1);
    } else {
      Coordinates(m.target - 1, Row(m.target), File(m.target) - 1);
    }
  }

  /** The en-passant removal follows the side to move after the move, not
      the pawn's direction: after white's e2-e4 a black pawn on f3 that takes
      "en passant" on e2 clears e1, so the white king disappears while the
      castling right it backed stays in the string. */
  lemma EnPassantClearsKing()
    ensures var b := EmptyBoard()[E1 := Some(Piece(White, King))][H1 := Some(Piece(White, Rook))]
                                 [85 := Some(Piece(Black, Pawn))];
      var s := State(b, Black, "K", Some('e'), 0, 1);
      var m := Move(85, 100, None);
      Wf(s) && ApplyMove(s, m).Ok? &&
      ApplyMove(s, m).value.board[E1] == None && HasRight(ApplyMove(s, m).value.castling, WhiteKingSide) &&
      !RightsBacked(ApplyMove(s, m).value)
  {
    var s := EpKingPosition();
    var m := Move(85, 100, None);
    EpKingPositionWf();
    assert EnPassantShape(s, m);
    ApplyMoveErrors(s, m);
    ApplyMoveEnPassant(s, m);
    assert EpVictim(m, White) == E1;
    EpKingRelocatedRight();
    ApplyMoveCastling(s, m);
  }

  /** After a white pawn's en-passant-shaped move onto the eighth rank the
      removal index `target - 16` is negative, and Python's list write clears
      the cell of the same file on the first rank. */
  lemma WhiteEnPassantWraps(s: State, m: Move)
    requires s.turn == White && EnPassantShape(s, m) && Rank(m.target) == 8
    ensures ApplyMove(s, m).Ok?
    ensures EpVictim(m, Opposite(s.turn)) < 0 && Wrap(EpVictim(m, Opposite(s.turn))) == m.target + 112
    ensures IsSquare(m.target + 112) && Rank(m.target + 112) == 1 && File(m.target + 112) == File(m.target)
    ensures ApplyMove(s, m).value.board[m.target + 112] == None
  {
    ApplyMoveErrors(s, m);
    ApplyMoveEnPassant(s, m);
    Coordinates(m.target + 112, 7, File(m.target));
  }

  /** The cell on the mover's side of an en-passant target, where the pawn
      taken en passant stands, is left as it was: make_move clears the cell
      one rank beyond the target instead, so the taken pawn stays. */
  lemma EnPassantLeavesPawn(s: State, m: Move)
    requires EnPassantShape(s, m)
    requires Rank(m.target) != (if s.turn == White then 1 else 8)
    ensures ApplyMove(s, m).Ok? <==> s.turn == White || Rank(m.target) != 1
    ensures var passed := if s.turn == White then m.target + 16 else m.target - 16;
      ApplyMove(s, m).Ok? ==> ApplyMove(s, m).value.board[passed] == s.board[passed]
  {
    ApplyMoveErrors(s, m);
    if ApplyMove(s, m).Ok? {
      ApplyMoveFrame(s, m);
      PassedApart(m, s.turn);
    }
  }

  /** The passed cell lies on the target's file one rank back, so it is
      neither the source, the target, the removal cell nor a rook cell. */
  lemma PassedApart(m: Move, turn: Color)
    requires File(m.target) != File(m.source)
    requires Rank(m.target) != (if turn == White then 1 else 8)
    ensures var passed := if turn == White then m.target + 16 else m.target - 16;
      0 <= passed < 128 && passed != m.source && passed != m.target &&
      passed != Wrap(EpVictim(m, Opposite(turn))) &&
      passed != Wrap(RookCells(m).0) && passed != Wrap(RookCells(m).1)
  {
    var passed := if turn == White then m.target + 16 else m.target - 16;
    Coordinates(passed, Row(m.target) + (if turn == White then 1 else -1), File(m.target));
  }

  /** The position of the example above: white king e1, white rook h1,
      black pawn f3, black to move, right "K", en passant on the e-file. */
  function EpKingPosition(): State
  {
    State(EmptyBoard()[E1 := Some(Piece(White, King))][H1 := Some(Piece(White, Rook))][85 := Some(Piece(Black, Pawn))],
          Black, "K", Some('e'), 0, 1)
  }

  lemma EpKingPositionWf()
    ensures Wf(EpKingPosition())
  {
    assert HasRight("K", WhiteKingSide) && !HasRight("K", WhiteQueenSide);
    assert !HasRight("K", BlackKingSide) && !HasRight("K", BlackQueenSide);
    assert Canonical("K");
  }

  lemma EpKingRelocatedRight()
    ensures HasRight(Relocated(EpKingPosition(), Move(85, 100, None)).castling, WhiteKingSide)
  {
    var s := EpKingPosition();
    var m := Move(85, 100, None);
    assert HasRight(s.castling, WhiteKingSide);
    var s1 := SetPiece(s, m.target, s.board[m.source]);
    SetPieceEffect(s, m.target, s.board[m.source]);
    assert HasRight(s1.castling, WhiteKingSide);
    SetPieceEffect(s1, m.source, None);
  }

  /** Without a promotion, make_move keeps the castling string the
      relocation left. */
  lemma ApplyMoveCastling(s: State, m: Move)
    requires ApplyMove(s, m).Ok? && m.promotion.None?
    ensures ApplyMove(s, m).value.castling == Relocated(s, m).castling
  {
    ApplyMoveOk(s, m);
  }

  /** Two states that differ at most in their castling strings. */
  predicate SameButCastling(a: State, b: State)
  {
    a.board == b.board && a.turn == b.turn && a.epFile == b.epFile &&
    a.halfMoves == b.halfMoves && a.moveNumber == b.moveNumber
  }

  lemma RelocatedSame(s: State, s': State, m: Move)
    requires SameButCastling(s', s)
    ensures SameButCastling(Relocated(s', m), Relocated(s, m))
  {
  }

  lemma PawnStepSame(r: State, r': State, m: Move, capture: Option<Piece>)
    requires SameButCastling(r', r) && r.board[m.target].Some?
    ensures PawnStep(r', m, capture).Ok? == PawnStep(r, m, capture).Ok?
    ensures PawnStep(r, m, capture).Err? ==> PawnStep(r', m, capture).error == PawnStep(r, m, capture).error
    ensures PawnStep(r, m, capture).Ok? ==> SameButCastling(PawnStep(r', m, capture).value, PawnStep(r, m, capture).value)
  {
  }

  lemma FinishSame(r1: State, r1': State, m: Move, moved: Piece, capture: Option<Piece>)
    requires SameButCastling(r1', r1)
    ensures SameButCastling(Finish(r1', m, moved, capture), Finish(r1, m, moved, capture))
  {
    assert SameButCastling(Promoted(r1', m, moved.color), Promoted(r1, m, moved.color));
  }

  /** The castling string never decides what make_move does to the board,
      the other fields or whether it raises. */
  lemma ApplyMoveIgnoresCastling(s: State, c: string, m: Move)
    ensures var s' := s.(castling := c);
      ApplyMove(s', m).Ok? == ApplyMove(s, m).Ok? &&
      (ApplyMove(s, m).Err? ==> ApplyMove(s', m).error == ApplyMove(s, m).error) &&
      (ApplyMove(s, m).Ok? ==> SameButCastling(ApplyMove(s', m).value, ApplyMove(s, m).value))
  {
    var s' := s.(castling := c);
    var r, r' := Relocated(s, m), Relocated(s', m);
    var capture := s.board[m.target];
    RelocatedSame(s, s', m);
    assert r'.board[m.target] == r.board[m.target];
    if r.board[m.target].Some? {
      var moved := r.board[m.target].value;
      PawnStepSame(r, r', m, capture);
      if PawnStep(r, m, capture).Ok? {
        FinishSame(PawnStep(r, m, capture).value, PawnStep(r', m, capture).value, m, moved, capture);
      }
    }
  }
}
