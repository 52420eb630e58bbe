/** Classification of a position: is_check, is_checkmate, is_stalemate,
    is_insufficient_material and is_game_over. The last three probe the
    legal-move generator for a first move, so they can raise whatever the
    generator raises; their answers are Results over the generator's Stop. */
module Classify {
  import opened ChessTypes
  import opened BoardState
  import opened Attacks
  import opened Moves
  import opened MoveGen

  /** is_check(): the side to move has a king and it is attacked. */
  predicate IsCheck(s: State)
  {
    IsKingAttacked(s.board, s.turn)
  }

  /** `get_legal_moves().next()` raising StopIteration: Ok(true) when the
      generator ends without a move, Ok(false) when it yields a first move,
      and the exception when it raises before yielding. */
  function NoLegalMove(s: State): (r: Result<bool, Stop>)
    ensures r == Ok(false) <==> Legal(s).moves != []
    ensures r == Ok(true) <==> Legal(s).moves == [] && Legal(s).stop == Exhausted
  {
    var g := Legal(s);
    if g.moves != [] then Ok(false)
    else if g.stop == Exhausted then Ok(true)
    else Err(g.stop)
  }

  /** is_checkmate(): not in check is no mate; in check, a mate exactly
      when there is no legal move. */
  function IsCheckmate(s: State): (r: Result<bool, Stop>)
    ensures r == Ok(true) ==> IsCheck(s)
    ensures !IsCheck(s) ==> r == Ok(false)
  {
    if !IsCheck(s) then Ok(false) else NoLegalMove(s)
  }

  /** is_stalemate(): in check is no stalemate; otherwise a stalemate
      exactly when there is no legal move. */
  function IsStalemate(s: State): (r: Result<bool, Stop>)
    ensures r == Ok(true) ==> !IsCheck(s)
    ensures IsCheck(s) ==> r == Ok(false)
  {
    if IsCheck(s) then Ok(false) else NoLegalMove(s)
  }

  /** Every bishop on a square of the board stands on the same shade: what
      the loop of is_insufficient_material over Square.get_all() checks. */
  predicate OneShade(b: Board)
  {
    forall sq1: Square, sq2: Square ::
      HoldsKind(b, sq1, Bishop) && HoldsKind(b, sq2, Bishop) ==> IsLight(sq1) == IsLight(sq2)
  }

  /** is_insufficient_material(): two pieces in all; three pieces with
      exactly one bishop or one knight among them; or as many pieces as two
      plus the bishops, with a bishop on each side and all bishops on one
      shade. */
  function InsufficientMaterial(b: Board): bool
  {
    var total := Total(b, Both);
    if total == 2 then true
    else if total == 3 then Count(b, Both, Bishop) == 1 || Count(b, Both, Knight) == 1
    else if total == 2 + Count(b, Both, Bishop) then
      Count(b, OnlyWhite, Bishop) != 0 && Count(b, OnlyBlack, Bishop) != 0 && OneShade(b)
    else false
  }

  /** is_game_over(): checkmate, or else stalemate, or else insufficient
      material, with Python's short-circuit `or`. */
  function IsGameOver(s: State): Result<bool, Stop>
  {
    match IsCheckmate(s)
    case Err(e) => Err(e)
    case Ok(mate) =>
      if mate then Ok(true)
      else match IsStalemate(s)
        case Err(e) => Err(e)
        case Ok(stale) => if stale then Ok(true) else Ok(InsufficientMaterial(s.board))
  }

  // -----------------------------------------------------------------------
  // What the answers mean

  /** The side to move has no way out: the pseudo-legal generator runs to
      its end, make_move applies every pseudo-legal move, and each of them
      leaves the mover's king attacked. */
  predicate NoEscape(s: State)
  {
    var p := PseudoLegal(s);
    p.stop == Exhausted && AllApply(s, p.moves) &&
    forall i :: 0 <= i < |p.moves| ==> IsKingAttacked(AfterMove(s, p.moves[i]).board, s.turn)
  }

  /** The stop of the legal-move generator, for a position that loads back
      from its FEN: the pseudo-legal generator's own stop when make_move
      applies every pseudo-legal move, the IndexError of make_move otherwise. */
  lemma LegalStop(s: State)
    requires Loadable(s)
    ensures Legal(s).stop == PseudoLegal(s).stop <==> AllApply(s, PseudoLegal(s).moves)
    ensures Legal(s).stop in {Exhausted, OutsideBoard, NoKing, MoveFailed(IndexOutOfRange)}
    ensures Legal(s).stop == Exhausted ==> PseudoLegal(s).stop == Exhausted
  {
    PseudoLegalSpec(s);
    LegalSpec(s, Move(0, 0, None));
  }

  /** make_move applies mv and leaves the mover's king unattacked. */
  predicate Escapes(s: State, mv: Move)
  {
    ApplyMove(s, mv).Ok? && !IsKingAttacked(AfterMove(s, mv).board, s.turn)
  }

  /** No escape leaves no legal move, and the generator then runs to its end. */
  lemma NoEscapeNoMove(s: State)
    requires Loadable(s) && NoEscape(s)
    ensures Legal(s).moves == [] && Legal(s).stop == Exhausted
  {
    var g, p := Legal(s), PseudoLegal(s);
    LegalStop(s);
    if g.moves != [] {
      LegalMoveEscapes(s, g.moves[0]);
      assert false;
    }
  }

  /** A generator that runs to its end without a legal move means no escape. */
  lemma NoMoveNoEscape(s: State)
    requires Loadable(s) && Legal(s).moves == [] && Legal(s).stop == Exhausted
    ensures NoEscape(s)
  {
    var p := PseudoLegal(s);
    LegalStop(s);
    forall i | 0 <= i < |p.moves|
      ensures IsKingAttacked(AfterMove(s, p.moves[i]).board, s.turn)
    {
      LegalSpec(s, p.moves[i]);
    }
  }

  /** A legal move is a pseudo-legal move that leaves the king safe. */
  lemma LegalMoveEscapes(s: State, mv: Move)
    requires Loadable(s) && mv in Legal(s).moves
    ensures exists i :: 0 <= i < |PseudoLegal(s).moves| && Escapes(s, PseudoLegal(s).moves[i]) && PseudoLegal(s).moves[i] == mv
  {
    var p := PseudoLegal(s);
    LegalSpec(s, mv);
    var i :| 0 <= i < |p.moves| && p.moves[i] == mv;
    assert Escapes(s, p.moves[i]);
  }

  /** For a position that loads back from its FEN, the legal-move probe
      finds no move exactly when there is no escape; when it finds one, some
      pseudo-legal move leaves the king safe; it raises only the
      pseudo-legal generator's own stop or the IndexError of make_move. */
  lemma NoLegalMoveSpec(s: State)
    requires Loadable(s)
    ensures NoLegalMove(s) == Ok(true) <==> NoEscape(s)
    ensures NoLegalMove(s) == Ok(false) ==>
      exists i :: 0 <= i < |PseudoLegal(s).moves| && Escapes(s, PseudoLegal(s).moves[i])
    ensures NoLegalMove(s).Err? ==>
      NoLegalMove(s).error in {OutsideBoard, NoKing, MoveFailed(IndexOutOfRange)}
  {
    LegalStop(s);
    if NoEscape(s) { NoEscapeNoMove(s); }
    if NoLegalMove(s) == Ok(true) { NoMoveNoEscape(s); }
    if NoLegalMove(s) == Ok(false) { LegalMoveEscapes(s, Legal(s).moves[0]); }
  }

  /** Checkmate: in check with no escape (for a position that loads back). */
  lemma CheckmateSpec(s: State)
    requires Loadable(s)
    ensures IsCheckmate(s) == Ok(true) <==> IsCheck(s) && NoEscape(s)
  {
    NoLegalMoveSpec(s);
  }

  /** Stalemate: not in check and no escape. */
  lemma StalemateSpec(s: State)
    requires Loadable(s)
    ensures IsStalemate(s) == Ok(true) <==> !IsCheck(s) && NoEscape(s)
  {
    NoLegalMoveSpec(s);
  }

  /** is_game_over raises exactly when the one legal-move probe it makes
      raises; otherwise the game is over exactly when the side to move has
      no escape or the material is insufficient. */
  lemma GameOverSpec(s: State)
    requires Loadable(s)
    ensures IsGameOver(s).Err? <==> NoLegalMove(s).Err?
    ensures IsGameOver(s).Ok? ==> (IsGameOver(s).value <==> NoEscape(s) || InsufficientMaterial(s.board))
  {
    GameOverCases(s);
    NoLegalMoveSpec(s);
  }

  /** is_game_over asks is_checkmate and then is_stalemate; whichever of the
      two is asked, the one legal-move probe decides, so the answer is that
      probe's error, or "no legal move" or insufficient material. */
  lemma GameOverCases(s: State)
    ensures IsGameOver(s) ==
      match NoLegalMove(s)
      case Err(e) => Err(e)
      case Ok(none) => Ok(none || InsufficientMaterial(s.board))
  {
    if IsCheck(s) {
      assert IsCheckmate(s) == NoLegalMove(s);
    } else {
      assert IsStalemate(s) == NoLegalMove(s);
    }
  }

  /** With exactly two kings on the board (one per side, as the source
      assumes), the material is insufficient exactly for king against king,
      king and one minor piece against king, and kings with bishops only, a
      bishop on each side and all bishops on one shade. */
  lemma InsufficientMaterialSpec(b: Board)
    requires Count(b, Both, King) == 2
    ensures var others := Count(b, Both, Pawn) + Count(b, Both, Knight) + Count(b, Both, Bishop) +
                          Count(b, Both, Rook) + Count(b, Both, Queen);
      InsufficientMaterial(b) <==>
        others == 0 ||
        (others == 1 && (Count(b, Both, Bishop) == 1 || Count(b, Both, Knight) == 1)) ||
        (others == Count(b, Both, Bishop) && Count(b, OnlyWhite, Bishop) > 0 &&
         Count(b, OnlyBlack, Bishop) > 0 && OneShade(b))
  {
    CountSplit(b, Bishop);
  }

  /** With the two kings on the board, a pawn always leaves enough
      material to mate. */
  lemma PawnKeepsMaterial(b: Board)
    requires Count(b, Both, King) == 2 && Count(b, Both, Pawn) >= 1
    ensures !InsufficientMaterial(b)
  {
    InsufficientMaterialSpec(b);
  }
}
