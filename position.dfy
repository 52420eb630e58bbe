/** The Position class: the six fields of a position, updated in place, with
    each method proved to do what the value-level model of the same
    operation does. */
module Positions {
  import opened ChessTypes
  import opened Geometry
  import opened BoardState
  import opened Text
  import opened Attacks
  import opened Moves
  import opened Fen
  import opened MoveGen
  import opened Classify
  import opened San

  /** What set_castling_right(t, status) appends for type u: its letter
      when u is t and status holds, or when u is another type held in c. */
  function Part(c: string, t: CastlingType, status: bool, u: CastlingType): string
  {
    if (u == t && status) || (u != t && HasRight(c, u)) then [TypeLetter(u)] else ""
  }

  /** The castling string set_castling_right(t, status) has built after the
      first k types of ["K", "Q", "k", "q"]. */
  function Built(c: string, t: CastlingType, status: bool, k: int): string
    requires 0 <= k <= 4
  {
    if k == 0 then "" else Built(c, t, status, k - 1) + Part(c, t, status, CastlingOrder(k - 1))
  }

  /** The whole loop builds the string with right t set to status. */
  lemma BuiltAll(c: string, t: CastlingType, status: bool)
    ensures Built(c, t, status, 4) == WithRight(c, t, status)
  {
    var p0, p1 := Part(c, t, status, WhiteKingSide), Part(c, t, status, WhiteQueenSide);
    var p2, p3 := Part(c, t, status, BlackKingSide), Part(c, t, status, BlackQueenSide);
    assert Built(c, t, status, 1) == p0;
    assert Built(c, t, status, 2) == p0 + p1;
    assert Built(c, t, status, 3) == p0 + p1 + p2;
    assert Built(c, t, status, 4) == p0 + p1 + p2 + p3;
  }

  /** The first r rows of a placement, each followed by '/': what get_fen
      has written when r rows are done and more follow. */
  function Slashed(rows: seq<string>, r: int): string
    requires 0 <= r <= |rows|
  {
    if r == 0 then "" else Slashed(rows, r - 1) + rows[r - 1] + "/"
  }

  lemma {:induction false} SlashedTail(rows: seq<string>, r: int)
    requires 1 <= r <= |rows|
    ensures Slashed(rows, r) == rows[0] + "/" + Slashed(rows[1..], r - 1)
  {
    if r > 1 {
      SlashedTail(rows, r - 1);
      assert rows[1..][r - 2] == rows[r - 1];
    }
  }

  /** Writing the rows one after the other, a slash after each but the last,
      is `"/".join(rows)`. */
  lemma {:induction false} JoinSlashed(rows: seq<string>)
    requires |rows| >= 1
    ensures JoinWith(rows, '/') == Slashed(rows, |rows| - 1) + rows[|rows| - 1]
  {
    if |rows| > 1 {
      JoinSlashed(rows[1..]);
      SlashedTail(rows, |rows| - 1);
    }
  }

  /** One cell of get_fen's inner loop: an empty cell is counted; a piece
      writes the pending count, then its symbol. */
  lemma RowTextStep(b: Board, row: int, x: int, empty: nat)
    requires 0 <= row < 8 && 0 <= x < 8
    ensures b[16 * row + x].None? ==> RowText(b, row, x, empty) == RowText(b, row, x + 1, empty + 1)
    ensures b[16 * row + x].Some? ==>
      RowText(b, row, x, empty) ==
        (if empty > 0 then NatStr(empty) else "") + [Symbol(b[16 * row + x].value)] + RowText(b, row, x + 1, 0)
    ensures RowText(b, row, 8, empty) == if empty > 0 then NatStr(empty) else ""
  {
  }

  lemma Regroup(a: string, b: string, c: string, d: string)
    ensures (a + b + c) + d == a + (b + c + d)
  {
  }

  /** Moves ms yielded before a generator that goes on as g. */
  function Prefixed(ms: seq<Move>, g: Gen): (r: Gen)
    ensures r.stop == g.stop && |r.moves| == |ms| + |g.moves|
  {
    Gen(ms + g.moves, g.stop)
  }

  /** Yielding m and then running g is yielding ms + [m] before g. */
  lemma PrefixedStep(ms: seq<Move>, m: Move, g: Gen)
    ensures Prefixed(ms, Prefixed([m], g)) == Prefixed(ms + [m], g)
  {
    assert ms + ([m] + g.moves) == (ms + [m]) + g.moves;
  }

  lemma Regroup3<T>(a: seq<T>, b: seq<T>, c: seq<T>)
    ensures a + (b + c) == (a + b) + c
  {
  }

  /** The walks from the i-th offset on are that walk and the ones after it. */
  lemma OffsetMovesStep(b: Board, turn: Color, sq: Square, k: Kind, offs: seq<int>, i: int)
    requires 0 <= i < |offs|
    requires forall j :: 0 <= j < |offs| ==> -33 <= offs[j] <= 33 && (Single(k) || IsDirection(offs[j]))
    ensures OffsetMoves(b, turn, sq, k, offs[i..]) ==
      Slide(b, turn, sq, offs[i], sq, Single(k)) + OffsetMoves(b, turn, sq, k, offs[i + 1..])
  {
    assert offs[i..][1..] == offs[i + 1..];
  }

  /** Appending the i-th walk to what the first i walks yielded keeps the
      loop's account of the whole. */
  lemma OffsetMovesAppend(b: Board, turn: Color, sq: Square, k: Kind, offs: seq<int>, i: int, ms: seq<Move>, w: seq<Move>)
    requires 0 <= i < |offs|
    requires forall j :: 0 <= j < |offs| ==> -33 <= offs[j] <= 33 && (Single(k) || IsDirection(offs[j]))
    requires w == Slide(b, turn, sq, offs[i], sq, Single(k))
    ensures ms + OffsetMoves(b, turn, sq, k, offs[i..]) == (ms + w) + OffsetMoves(b, turn, sq, k, offs[i + 1..])
  {
    OffsetMovesStep(b, turn, sq, k, offs, i);
    Regroup3(ms, w, OffsetMoves(b, turn, sq, k, offs[i + 1..]));
  }

  /** The loop over the squares from the k-th on yields the moves of the
      k-th square and then those from the next square on. */
  lemma PiecesFromStep(s: State, k: int, ms: seq<Move>)
    requires 0 <= k < 64 && SquareMoves(s, SquareAt(k)) == Some(ms)
    ensures PiecesFrom(s, k) == Prefixed(ms, PiecesFrom(s, k + 1))
  {
  }

  /** The filter of get_legal_moves from the i-th move on: the move is
      made on the copy; it is kept when the king is then safe. */
  lemma LegalFromStep(c: State, turn: Color, ms: seq<Move>, stop: Stop, i: int)
    requires 0 <= i < |ms|
    ensures LegalFrom(c, turn, ms[i..], stop) ==
      match ApplyMove(c, ms[i])
      case Err(e) => Gen([], MoveFailed(e))
      case Ok(t) =>
        if IsKingAttacked(t.board, turn) then LegalFrom(c, turn, ms[i + 1..], stop)
        else Prefixed([ms[i]], LegalFrom(c, turn, ms[i + 1..], stop))
  {
    assert ms[i..][1..] == ms[i + 1..];
  }

  /** Looking at one more move of ms adds a rival when that move is one. */
  lemma RivalStep(b: Board, mv: Move, ms: seq<Move>, i: int)
    requires 0 <= i < |ms|
    ensures RankRival(b, mv, ms[..i + 1]) <==>
      RankRival(b, mv, ms[..i]) || (Rival(b, mv, ms[i]) && Rank(ms[i].source) == Rank(mv.source))
    ensures FileRival(b, mv, ms[..i + 1]) <==>
      FileRival(b, mv, ms[..i]) || (Rival(b, mv, ms[i]) && File(ms[i].source) == File(mv.source))
  {
    assert forall j :: 0 <= j < i ==> ms[..i + 1][j] == ms[..i][j];
    assert ms[..i + 1][i] == ms[i];
  }

  /** A rival among the first i moves is a rival among all of them. */
  lemma RivalsGrow(b: Board, mv: Move, ms: seq<Move>, i: int)
    requires 0 <= i <= |ms|
    ensures RankRival(b, mv, ms[..i]) ==> RankRival(b, mv, ms)
    ensures FileRival(b, mv, ms[..i]) ==> FileRival(b, mv, ms)
  {
    if RankRival(b, mv, ms[..i]) {
      var j :| 0 <= j < i && Rival(b, mv, ms[..i][j]) && Rank(ms[..i][j].source) == Rank(mv.source);
      assert ms[..i][j] == ms[j];
    }
    if FileRival(b, mv, ms[..i]) {
      var j :| 0 <= j < i && Rival(b, mv, ms[..i][j]) && File(ms[..i][j].source) == File(mv.source);
      assert ms[..i][j] == ms[j];
    }
  }

  /** What make_move does once the piece stands on its target and the turn
      has toggled: the pawn block, the promotion, the rook of a castling move
      and the counters. */
  function Finished(r: State, m: Move, capture: Option<Piece>): Result<State, MoveError>
    requires r.board[m.target].Some?
  {
    var moved := r.board[m.target].value;
    match PawnStep(r, m, capture)
    case Err(e) => Err(e)
    case Ok(r1) =>
      var r2 := Promoted(r1, m, moved.color);
      var r3 := r2.(board := Castled(r2.board, m));
      Ok(Counters(r3, m, capture.Some? || (moved.kind == Pawn && File(m.target) != File(m.source))))
  }

  /** make_move is the relocation followed by the rest of its steps. */
  lemma ApplyMoveFinished(s: State, m: Move)
    requires Relocated(s, m).board[m.target].Some?
    ensures ApplyMove(s, m) == Finished(Relocated(s, m), m, s.board[m.target])
  {
  }

  /** get_attackers' loop visits the squares of Square.get_all() in order. */
  lemma AttackersStep(b: Board, color: Color, square: Square, k: int)
    requires 0 <= k < 64
    ensures AttackersUpTo(b, color, square, k + 1) ==
      AttackersUpTo(b, color, square, k) + YieldedCopies(b, color, square, SquareAt(k))
  {
  }

  /** The copies of a square get_attackers yields, listed by count. */
  lemma CopiesShape(b: Board, color: Color, square: Square, source: Square)
    ensures var n := Yields(b, color, square, source);
      YieldedCopies(b, color, square, source) == if n == 0 then [] else if n == 1 then [source] else [source, source]
  {
  }

  /** set_fen's check of the ranks, in order: the first failed assertion, or
      None when every rank is accepted. */
  method CheckRanks(rows: seq<string>) returns (err: Option<FenError>)
    ensures err == CheckRows(rows)
  {
    var k := 0;
    while k < |rows|
      invariant 0 <= k <= |rows|
      invariant CheckRows(rows[k..]) == CheckRows(rows)
    {
      var row := rows[k];
      assert rows[k..][0] == row && rows[k..][1..] == rows[k + 1..];
      var sum := 0;
      var previousWasNumber := false;
      var j := 0;
      while j < |row|
        invariant 0 <= j <= |row|
        invariant ScanRow(row[j..], previousWasNumber, sum) == ScanRow(row, false, 0)
      {
        var ch := row[j];
        assert row[j..][0] == ch && row[j..][1..] == row[j + 1..];
        if !IsRankChar(ch) {
          return Some(BadCharacter);
        }
        if IsCount(ch) {
          if previousWasNumber {
            return Some(AdjacentDigits);
          }
          sum := sum + DigitValue(ch);
          previousWasNumber := true;
        } else {
          sum := sum + 1;
          previousWasNumber := false;
        }
        j := j + 1;
      }
      assert row[|row|..] == [];
      if sum != 8 {
        return Some(RankWidth);
      }
      k := k + 1;
    }
    assert rows[|rows|..] == [];
    return None;
  }

  class Position {
    var board: array<Option<Piece>>
    var turn: Color
    var castling: string
    var epFile: Option<char>
    var halfMoves: int
    var moveNumber: int

    /** The fields as one value. */
    function Snapshot(): (s: State)
      reads this, board
      requires board.Length == 128
      ensures s.board == board[..]
    {
      State(board[..], turn, castling, epFile, halfMoves, moveNumber)
    }

    /** What every method keeps: a 128-cell board and a state set_fen would
        accept back from get_fen. */
    predicate Valid()
      reads this, board
    {
      board.Length == 128 && Loadable(Snapshot())
    }

    /** Position(): an empty board, white to move, no rights, no en passant,
        clocks at 0 and 1. */
    constructor()
      ensures Valid() && Snapshot() == InitialState()
    {
      board := new Option<Piece>[128](_ => None);
      turn := White;
      castling := "";
      epFile := None;
      halfMoves := 0;
      moveNumber := 1;
      new;
      assert board[..] == EmptyBoard();
    }

    /** get(square). */
    method Get(sq: Square) returns (p: Option<Piece>)
      requires board.Length == 128
      ensures p == Snapshot().board[sq]
    {
      p := board[sq];
    }

    /** get_castling_right(type). */
    method GetCastlingRight(t: CastlingType) returns (r: bool)
      requires board.Length == 128
      ensures r == HasRight(castling, t)
    {
      r := TypeLetter(t) in castling;
    }

    /** get_theoretical_castling_right(type): the king on its home square and
        the rook of that side on its home square. */
    method GetTheoreticalCastlingRight(t: CastlingType) returns (r: bool)
      requires board.Length == 128
      ensures r == TheoreticalRight(Snapshot().board, t)
    {
      if t == WhiteKingSide || t == WhiteQueenSide {
        if board[E1] != Some(Piece(White, King)) {
          return false;
        }
        if t == WhiteKingSide {
          r := board[H1] == Some(Piece(White, Rook));
        } else {
          r := board[A1] == Some(Piece(White, Rook));
        }
      } else {
        if board[E8] != Some(Piece(Black, King)) {
          return false;
        }
        if t == BlackKingSide {
          r := board[H8] == Some(Piece(Black, Rook));
        } else {
          r := board[A8] == Some(Piece(Black, Rook));
        }
      }
    }

    /** set_castling_right(type, status): granting a right the pieces do not
        back fails the source's assertion; the string is rebuilt in K, Q, k,
        q order with right t set to status. */
    method SetCastlingRight(t: CastlingType, status: bool)
      requires Valid()
      requires status ==> TheoreticalRight(Snapshot().board, t)
      modifies this
      ensures Valid() && board == old(board)
      ensures Snapshot() == old(Snapshot()).(castling := WithRight(old(castling), t, status))
    {
      var built := RebuiltRights(t, status);
      BuiltAll(castling, t, status);
      castling := built;
    }

    /** The loop of set_castling_right over the four rights in K, Q, k, q
        order: right t is written when status is set, every other right when
        get_castling_right reports it. */
    method RebuiltRights(t: CastlingType, status: bool) returns (built: string)
      requires board.Length == 128
      ensures built == Built(castling, t, status, 4)
    {
      built := "";
      var k := 0;
      while k < 4
        invariant 0 <= k <= 4 && built == Built(castling, t, status, k)
      {
        var u := CastlingOrder(k);
        if u == t {
          if status {
            built := built + [TypeLetter(u)];
          }
        } else {
          var held := GetCastlingRight(u);
          if held {
            built := built + [TypeLetter(u)];
          }
        }
        k := k + 1;
      }
    }

    /** set(square, piece): write the cell, then drop every right whose king
        or rook is no longer at home. */
    method Set(sq: Square, p: Option<Piece>)
      requires Valid()
      modifies this, board
      ensures Valid() && board == old(board)
      ensures Snapshot() == SetPiece(old(Snapshot()), sq, p)
    {
      SetPieceEffect(old(Snapshot()), sq, p);
      board[sq] := p;
      assert board[..] == old(Snapshot()).board[sq := p];
      RederiveCastling();
    }

    /** The loop `for type in ["K", "Q", "k", "q"]: if not
        get_theoretical_castling_right(type): set_castling_right(type, False)`
        that set and set_fen run after changing the board. */
    method RederiveCastling()
      requires board.Length == 128 && OffBoardEmpty(board[..]) && Canonical(castling)
      requires EpFileOk(epFile) && halfMoves >= 0 && moveNumber >= 1
      modifies this
      ensures Valid() && board == old(board)
      ensures Snapshot() == old(Snapshot()).(castling := Rederive(old(board[..]), old(castling)))
    {
      ghost var s1 := Snapshot();
      var k := 0;
      while k < 4
        invariant 0 <= k <= 4 && board == old(board) && board.Length == 128
        invariant Snapshot() == s1.(castling := castling)
        invariant Canonical(castling)
        invariant RederiveFrom(s1.board, castling, k) == Rederive(s1.board, s1.castling)
      {
        var t := CastlingOrder(k);
        var theo := GetTheoreticalCastlingRight(t);
        if !theo {
          SetCastlingRight(t, false);
        }
        k := k + 1;
      }
    }

    /** clear(): a new empty board list and no castling rights. */
    method Clear()
      requires Valid()
      modifies this
      ensures Valid() && fresh(board)
      ensures Snapshot() == Cleared(old(Snapshot()))
    {
      board := new Option<Piece>[128](_ => None);
      castling := "";
      assert board[..] == EmptyBoard();
    }

    /** set_turn(turn). */
    method SetTurn(c: Color)
      requires Valid()
      modifies this
      ensures Valid() && board == old(board)
      ensures Snapshot() == old(Snapshot()).(turn := c)
    {
      turn := c;
    }

    /** toggle_turn(): the other side is to move. */
    method ToggleTurn()
      requires Valid()
      modifies this
      ensures Valid() && board == old(board)
      ensures Snapshot() == old(Snapshot()).(turn := Opposite(old(turn)))
    {
      SetTurn(Opposite(turn));
    }

    /** set_ep_file(file): a file letter or None, as the source asserts. */
    method SetEpFile(f: Option<char>)
      requires Valid() && EpFileOk(f)
      modifies this
      ensures Valid() && board == old(board)
      ensures Snapshot() == old(Snapshot()).(epFile := f)
    {
      epFile := f;
    }

    /** set_half_moves(n): a count of at least 0, as the source asserts. */
    method SetHalfMoves(n: int)
      requires Valid() && n >= 0
      modifies this
      ensures Valid() && board == old(board)
      ensures Snapshot() == old(Snapshot()).(halfMoves := n)
    {
      halfMoves := n;
    }

    /** set_move_number(n) only returns the current move number: it assigns
        nothing. */
    method SetMoveNumber(n: int) returns (r: int)
      requires board.Length == 128
      ensures r == moveNumber
    {
      r := moveNumber;
    }

    /** get_piece_counts(color): for every kind, how many pieces of that kind
        and an admitted colour stand in the 128 cells. */
    method GetPieceCounts(f: ColorFilter) returns (counts: map<Kind, nat>)
      requires board.Length == 128
      ensures forall k: Kind :: k in counts && counts[k] == Count(Snapshot().board, f, k)
    {
      ghost var b := Snapshot().board;
      counts := map[Pawn := 0, Bishop := 0, Knight := 0, Rook := 0, King := 0, Queen := 0];
      forall k: Kind
        ensures k in counts && counts[k] == CountUpTo(b, f, k, 0)
      {
        match k
        case Pawn =>
        case Knight =>
        case Bishop =>
        case Rook =>
        case Queen =>
        case King =>
      }
      var i := 0;
      while i < 128
        invariant 0 <= i <= 128
        invariant forall k: Kind :: k in counts && counts[k] == CountUpTo(b, f, k, i)
      {
        var p := board[i];
        if p.Some? && Admits(f, p.value.color) {
          counts := counts[p.value.kind := counts[p.value.kind] + 1];
        }
        i := i + 1;
      }
    }

    /** get_king(color): the first square of Square.get_all() holding the
        king of that colour, or None. */
    method GetKing(c: Color) returns (r: Option<Square>)
      requires board.Length == 128
      ensures r == BoardState.GetKing(Snapshot().board, c)
    {
      ghost var b := Snapshot().board;
      var k := 0;
      while k < 64
        invariant 0 <= k <= 64
        invariant KingFrom(b, c, k) == KingFrom(b, c, 0)
      {
        var sq := SquareAt(k);
        var p := board[sq];
        KingFromStep(b, c, k);
        if p.Some? && p.value.color == c && p.value.kind == King {
          assert IsKingOf(b, sq, c);
          GetKingFrom(b, c);
          return Some(sq);
        }
        k := k + 1;
      }
      KingFromStep(b, c, 64);
      GetKingFrom(b, c);
      return None;
    }

    /** One pass of get_fen's inner loop, over rank y + 1 (y = 7 is rank 8):
        a run of empty cells becomes its length, a piece its symbol. */
    method RankText(y: int) returns (text: string)
      requires board.Length == 128 && 0 <= y < 8
      ensures text == Rows(Snapshot().board)[7 - y]
    {
      ghost var b := Snapshot().board;
      ghost var row := 7 - y;
      ghost var goal := Rows(b)[row];
      var empty: nat := 0;
      text := "";
      var x := 0;
      while x < 8
        invariant 0 <= x <= 8
        invariant text + RowText(b, row, x, empty) == goal
      {
        // Square(x, y).get_0x88_index()
        var i := x + 16 * (7 - y);
        assert board[i] == b[16 * row + x];
        RowTextStep(b, row, x, empty);
        ghost var t0 := text;
        if board[i].None? {
          empty := empty + 1;
        } else {
          ghost var pending := if empty > 0 then NatStr(empty) else "";
          ghost var sym := [Symbol(board[i].value)];
          if empty > 0 {
            text := text + NatStr(empty);
            empty := 0;
          }
          text := text + [Symbol(board[i].value)];
          assert text == t0 + pending + sym;
          Regroup(t0, pending, sym, RowText(b, row, x + 1, 0));
        }
        x := x + 1;
      }
      RowTextStep(b, row, 7, empty);
      if empty > 0 {
        text := text + NatStr(empty);
      }
    }

    /** The board part of get_fen: the ranks from 8 down to 1, separated by
        '/'. */
    method PlacementText() returns (fen: string)
      requires board.Length == 128
      ensures fen == Placement(Snapshot().board)
    {
      ghost var rows := Rows(Snapshot().board);
      fen := "";
      var y := 7;
      while y >= 0
        invariant -1 <= y <= 7 && |rows| == 8
        invariant y >= 0 ==> fen == Slashed(rows, 7 - y)
        invariant y < 0 ==> fen == Slashed(rows, 7) + rows[7]
      {
        var text := RankText(y);
        assert text == rows[7 - y];
        fen := fen + text;
        // The source tests `not (x == 7 and y == 0)`, and x is 7 after its loop.
        if y != 0 {
          fen := fen + "/";
          assert fen == Slashed(rows, 7 - y + 1);
        }
        y := y - 1;
      }
      JoinSlashed(rows);
    }

    /** get_fen(): the placement, then the other five fields, joined by
        spaces. */
    method GetFen() returns (r: string)
      requires board.Length == 128
      ensures r == Fen.Fen(Snapshot())
    {
      ghost var st := Snapshot();
      var fen := PlacementText();
      var castlingFlag := "-";
      if castling != "" {
        castlingFlag := castling;
      }
      var epFlag := "-";
      if epFile.Some? {
        epFlag := [epFile.value];
        if turn == White {
          epFlag := epFlag + "6";
        } else {
          epFlag := epFlag + "3";
        }
      }
      ghost var fields := [fen, [ColorChar(turn)], castlingFlag, epFlag, IntStr(halfMoves), IntStr(moveNumber)];
      assert fields[2] == CastlingField(st.castling) && fields[3] == EpField(st.epFile, st.turn);
      assert fields == Fields(st);
      r := JoinSpaces([fen, [ColorChar(turn)], castlingFlag, epFlag, IntStr(halfMoves), IntStr(moveNumber)]);
    }

    /** set_fen(fen): every assertion is checked before any field changes;
        on the first that fails the position is left as it was and the error
        is returned, otherwise the fields are set as ParseFen describes. */
    method SetFen(fen: string) returns (err: Option<FenError>)
      requires Valid()
      modifies this
      ensures Valid()
      ensures match ParseFen(fen)
        case Ok(s) => err.None? && Snapshot() == s && fresh(board)
        case Err(e) => err == Some(e) && board == old(board) && Snapshot() == old(Snapshot())
    {
      var tokens := SplitWs(fen);
      if |tokens| != 6 {
        return Some(FieldCount);
      }
      var rows := SplitOn(tokens[0], '/');
      if |rows| != 8 {
        return Some(RankCount);
      }
      err := CheckRanks(rows);
      if err.Some? {
        return;
      }
      if tokens[1] != "w" && tokens[1] != "b" {
        return Some(BadTurn);
      }
      if !CastlingPattern(tokens[2]) {
        return Some(BadCastling);
      }
      if !EpPattern(tokens[3]) {
        return Some(BadEnPassant);
      }
      var half := ParseInt(tokens[4]);
      if half.None? {
        return Some(BadNumber);
      }
      if half.value < 0 {
        return Some(NegativeHalfMoves);
      }
      var number := ParseInt(tokens[5]);
      if number.None? {
        return Some(BadNumber);
      }
      if number.value < 1 {
        return Some(MoveNumberTooSmall);
      }
      Load(tokens, half.value, number.value);
    }

    /** The part of set_fen after its assertions: the counters, the
        en-passant file and the castling string, then the pieces written by
        the fill loop into a new list, the turn, and the castling update. */
    method Load(tokens: seq<string>, half: int, number: int)
      requires |tokens| == 6 && |SplitOn(tokens[0], '/')| == 8 && CheckRows(SplitOn(tokens[0], '/')).None?
      requires CastlingPattern(tokens[2]) && EpPattern(tokens[3]) && half >= 0 && number >= 1
      modifies this
      ensures Valid() && fresh(board)
      ensures Snapshot() == LoadFields(tokens, half, number)
    {
      halfMoves := half;
      moveNumber := number;
      if tokens[3] == "-" {
        epFile := None;
      } else {
        epFile := Some(tokens[3][0]);
      }
      CastlingPatternCanonical(tokens[2]);
      RightsStringCanonical(false, false, false, false);
      if tokens[2] == "-" {
        castling := "";
      } else {
        castling := tokens[2];
      }
      FillChecked(tokens[0], SplitOn(tokens[0], '/'));
      FillBoard(tokens[0]);
      turn := if tokens[1] == "w" then White else Black;
      RederiveCastling();
    }

    /** set_fen's fill loop: a new list of 128 empty cells, then a running
        index i that '/' moves on by 8, a digit by its value, and any other
        character by one after writing its piece at i. */
    method FillBoard(placement: string)
      requires Fill(placement, 0, EmptyBoard()).Some?
      modifies this
      ensures fresh(board) && board.Length == 128
      ensures board[..] == Fill(placement, 0, EmptyBoard()).value
      ensures turn == old(turn) && castling == old(castling) && epFile == old(epFile)
      ensures halfMoves == old(halfMoves) && moveNumber == old(moveNumber)
    {
      ghost var filled := Fill(placement, 0, EmptyBoard()).value;
      board := new Option<Piece>[128](_ => None);
      assert board[..] == EmptyBoard();
      var i: nat := 0;
      var j := 0;
      while j < |placement|
        invariant 0 <= j <= |placement| && board.Length == 128 && fresh(board)
        invariant turn == old(turn) && castling == old(castling) && epFile == old(epFile)
        invariant halfMoves == old(halfMoves) && moveNumber == old(moveNumber)
        invariant Fill(placement[j..], i, board[..]) == Some(filled)
      {
        var symbol := placement[j];
        assert placement[j..][0] == symbol && placement[j..][1..] == placement[j + 1..];
        if symbol == '/' {
          i := i + 8;
        } else if IsCount(symbol) {
          i := i + DigitValue(symbol);
        } else {
          ghost var before := board[..];
          board[i] := FromSymbol(symbol);
          assert board[..] == before[i := FromSymbol(symbol)];
          i := i + 1;
        }
        j := j + 1;
      }
      assert placement[|placement|..] == [];
    }

    /** The promotion step of make_move: set(target, Piece(color of the
        piece on the target, promotion)) when the move promotes. */
    method Promote(mv: Move)
      requires Valid() && board[mv.target].Some?
      modifies this, board
      ensures Valid() && board == old(board)
      ensures Snapshot() == Promoted(old(Snapshot()), mv, old(board[mv.target]).value.color)
    {
      if mv.promotion.Some? {
        var p := Get(mv.target);
        Set(mv.target, Some(Piece(p.value.color, mv.promotion.value)));
      }
    }

    /** The counters of make_move: the half-move clock restarts when a pawn
        stands on the target or something was captured and counts up
        otherwise; the move number counts up when white is to move. */
    method UpdateCounters(mv: Move, captured: bool)
      requires Valid() && board[mv.target].Some?
      modifies this
      ensures Valid() && board == old(board)
      ensures Snapshot() == Counters(old(Snapshot()), mv, captured)
    {
      var last := Get(mv.target);
      if last.value.kind == Pawn {
        halfMoves := 0;
      } else if captured {
        halfMoves := 0;
      } else {
        halfMoves := halfMoves + 1;
      }
      if turn == White {
        moveNumber := moveNumber + 1;
      }
    }

    /** The pawn block of make_move, run once the moved piece stands on the
        target: a pawn that changed file onto an empty square clears the cell
        one rank beyond the target (Python's IndexError past the end of the list); a
        pawn sets the en-passant file after a two-rank move and clears it
        otherwise; any other piece clears it. `captured` is the truth value
        of the source's `capture` afterwards. */
    method PawnBlock(mv: Move, capture: Option<Piece>) returns (err: Option<MoveError>, captured: bool)
      requires Valid() && board[mv.target].Some?
      modifies this, board
      ensures board == old(board)
      ensures err.None? ==> captured == (capture.Some? || (old(board[mv.target]).value.kind == Pawn && File(mv.target) != File(mv.source)))
      ensures match PawnStep(old(Snapshot()), mv, capture)
        case Ok(r1) => err.None? && Valid() && Snapshot() == r1
        case Err(e) => err == Some(e) && Snapshot() == old(Snapshot())
    {
      captured := capture.Some?;
      var moved := Get(mv.target);
      if moved.value.kind == Pawn {
        if File(mv.target) != File(mv.source) && capture.None? {
          var victim;
          if turn == Black {
            victim := mv.target - 16;
          } else {
            victim := mv.target + 16;
          }
          if victim >= 128 {
            return Some(IndexOutOfRange), captured;
          }
          ghost var before := board[..];
          // A negative list index counts from the end of the list.
          board[Wrap(victim)] := None;
          assert board[..] == WriteCell(before, victim, None);
          captured := true;
        }
        if Abs(Rank(mv.target) - Rank(mv.source)) == 2 {
          epFile := Some(FileLetter(mv.target));
        } else {
          epFile := None;
        }
      } else {
        epFile := None;
      }
      err := None;
    }

    /** The castling block of make_move: a king on the target two files away
        from the source moves the rook cell beside it, with Python's list
        indexing for both raw writes. */
    method CastleRook(mv: Move)
      requires Valid() && board[mv.target].Some?
      modifies board
      ensures Valid()
      ensures board[..] == Castled(old(board[..]), mv)
    {
      ghost var b0 := board[..];
      CastledKeepsOffBoard(b0, mv);
      var k := Get(mv.target);
      if k.value.kind == King {
        var steps := File(mv.target) - File(mv.source);
        if Abs(steps) == 2 {
          RookCellsApart(mv);
          var rookTarget, rookSource;
          if steps == -2 {
            rookTarget := mv.target + 1;
            rookSource := mv.target - 2;
          } else {
            rookTarget := mv.target - 1;
            rookSource := mv.target + 1;
          }
          assert (rookTarget, rookSource) == RookCells(mv);
          // A negative list index counts from the end of the list.
          board[Wrap(rookTarget)] := board[Wrap(rookSource)];
          ghost var b1 := board[..];
          assert b1 == WriteCell(b0, rookTarget, Cell(b0, rookSource));
          board[Wrap(rookSource)] := None;
          assert board[..] == WriteCell(b1, rookSource, None);
        }
      }
    }

    /** make_move(move): the piece moves with two set calls and the turn
        toggles; then the pawn block, the promotion, the rook of a castling
        move and the two counters follow. The result is the error raised, if
        any; the position is then left as the model's partial update. */
    method MakeMove(mv: Move) returns (err: Option<MoveError>)
      requires Valid()
      modifies this, board
      ensures Valid() && board == old(board)
      ensures Snapshot() == AfterMove(old(Snapshot()), mv)
      ensures match ApplyMove(old(Snapshot()), mv)
        case Ok(_) => err.None?
        case Err(e) => err == Some(e)
    {
      ghost var s0 := Snapshot();
      var capture := Get(mv.target);
      var piece := Get(mv.source);
      Set(mv.target, piece);
      Set(mv.source, None);
      ToggleTurn();
      assert Snapshot() == Relocated(s0, mv);
      RelocatedEffect(s0, mv);
      var landed := Get(mv.target);
      if landed.None? {
        // get_type() on None raises AttributeError.
        return Some(EmptySource);
      }
      ApplyMoveFinished(s0, mv);
      err := FinishMove(mv, capture);
    }

    /** The steps of make_move after the turn has toggled, with `capture` the
        piece the target held before the move. */
    method FinishMove(mv: Move, capture: Option<Piece>) returns (err: Option<MoveError>)
      requires Valid() && board[mv.target].Some?
      modifies this, board
      ensures Valid() && board == old(board)
      ensures match Finished(old(Snapshot()), mv, capture)
        case Ok(t) => err.None? && Snapshot() == t
        case Err(e) => err == Some(e) && Snapshot() == old(Snapshot())
    {
      ghost var r := Snapshot();
      var landed := Get(mv.target);
      var captured;
      err, captured := PawnBlock(mv, capture);
      if err.Some? {
        return;
      }
      PawnStepEffect(r, mv, capture);
      ghost var r1 := Snapshot();
      assert PawnStep(r, mv, capture) == Ok(r1);
      Promote(mv);
      PromotedEffect(r1, mv, landed.value.color);
      ghost var r2 := Snapshot();
      CastleRook(mv);
      CastledEffect(r2.board, mv);
      UpdateCounters(mv, captured);
    }

    /** The blocker walk of get_attackers: j starts one step of `offset` from
        source and moves by `offset` until it reaches square; the walk is
        blocked by the first occupied cell on the way. A zero offset leaves j
        on source itself, which holds the attacker. */
    method WalkFrom(source: Square, square: Square, offset: int) returns (blocked: bool)
      requires board.Length == 128 && board[source].Some? && source != square
      requires offset == if Aligned(source, square) then Step(source, square) else 0
      ensures blocked == !WalkClear(Snapshot().board, source, square, offset)
    {
      ghost var b := Snapshot().board;
      ghost var m := 1;
      if offset != 0 {
        WalkStart(source, square);
      }
      var j := source + offset;
      blocked := false;
      while j != square
        invariant offset == 0 ==> j == source && !blocked
        invariant offset != 0 ==> 1 <= m <= Dist(source, square) && j == RayCell(source, square, m) && !blocked
        invariant offset != 0 ==> WalkBlocked(b, source, square, m) == WalkBlocked(b, source, square, 1)
        decreases if offset == 0 then 0 else Dist(source, square) - m
      {
        if offset != 0 {
          WalkBlockedOn(b, source, square, m);
        }
        if board[j].Some? {
          blocked := true;
          break;
        }
        j := j + offset;
        m := m + 1;
      }
      if offset != 0 && !blocked {
        WalkBlockedEnd(b, source, square, m);
      }
    }

    /** The body of get_attackers' loop for one source square: what it
        yields, in order. A piece of that colour whose bit is set in ATTACKS
        is yielded once if it is a pawn and the sign of the difference fits
        its colour; a knight or king once; and any piece but a pawn once
        more when the walk along RAYS is not blocked. */
    method SourceAttacks(color: Color, square: Square, source: Square) returns (copies: seq<Square>)
      requires board.Length == 128
      ensures copies == YieldedCopies(Snapshot().board, color, square, source)
    {
      CopiesShape(Snapshot().board, color, square, source);
      copies := [];
      var piece := board[source];
      if piece.None? || piece.value.color != color {
        return;
      }
      var difference := source - square;
      // ATTACKS[difference + 119]
      var attacks := AttackEntry(source, square);
      if !BitSet(attacks, piece.value.kind) {
        return;
      }
      if piece.value.kind == Pawn {
        if difference > 0 {
          if piece.value.color == White {
            copies := [source];
          }
        } else {
          if piece.value.color == Black {
            copies := [source];
          }
        }
        return;
      }
      if piece.value.kind == Knight || piece.value.kind == King {
        copies := [source];
      }
      // RAYS[difference + 119]
      var offset := RayEntry(source, square);
      var blocked := WalkFrom(source, square, offset);
      if !blocked {
        copies := copies + [source];
      }
    }

    /** get_attackers(color, square), as the list of squares it yields, the
        sources taken in the order of Square.get_all(). */
    method GetAttackers(color: Color, square: Square) returns (r: seq<Square>)
      requires board.Length == 128
      ensures r == Attackers(Snapshot().board, color, square)
    {
      ghost var b := Snapshot().board;
      r := [];
      var k := 0;
      while k < 64
        invariant 0 <= k <= 64 && r == AttackersUpTo(b, color, square, k)
      {
        var copies := SourceAttacks(color, square, SquareAt(k));
        AttackersStep(b, color, square, k);
        r := r + copies;
        k := k + 1;
      }
    }

    /** is_attacked(color, square): get_attackers yields at least once. */
    method IsAttacked(color: Color, square: Square) returns (r: bool)
      requires board.Length == 128
      ensures r == Attacks.IsAttacked(Snapshot().board, color, square)
    {
      var attackers := GetAttackers(color, square);
      r := |attackers| > 0;
    }

    /** is_king_attacked(color): the king found by get_king is attacked by
        the other colour; False when there is none. */
    method IsKingAttacked(color: Color) returns (r: bool)
      requires board.Length == 128
      ensures r == Attacks.IsKingAttacked(Snapshot().board, color)
    {
      var square := GetKing(color);
      if square.Some? {
        r := IsAttacked(Opposite(color), square.value);
      } else {
        r := false;
      }
    }

    /** is_check(): the king of the side to move is attacked. */
    method IsCheck() returns (r: bool)
      requires board.Length == 128
      ensures r == Classify.IsCheck(Snapshot())
    {
      r := IsKingAttacked(turn);
    }

    // ---------------------------------------------------------------------
    // get_pseudo_legal_moves, one piece of the generator at a time

    /** The inner `while True` of get_pseudo_legal_moves for one offset: step
        from sq until the edge, an own piece (not taken) or an enemy piece
        (taken); knights and kings stop after one step. */
    method Walk(sq: Square, off: int, single: bool) returns (ms: seq<Move>)
      requires board.Length == 128
      requires -33 <= off <= 33 && (single || IsDirection(off))
      ensures ms == Slide(Snapshot().board, turn, sq, off, sq, single)
    {
      ghost var b := Snapshot().board;
      ms := [];
      var cur: Square := sq;
      while true
        invariant ms + Slide(b, turn, sq, off, cur, single) == Slide(b, turn, sq, off, sq, single)
        decreases Room(cur, off)
      {
        var ti := cur + off;
        if OffBoard(ti) {
          assert ms + [] == ms;
          return;
        }
        OffBoardIsNotSquare(ti);
        var t: Square := ti;
        SlideStep(b, turn, sq, off, cur, single, t);
        if board[t].None? {
          ms := ms + [Move(sq, t, None)];
          if single {
            return;
          }
          cur := t;
        } else {
          if board[t].value.color != turn {
            ms := ms + [Move(sq, t, None)];
          }
          return;
        }
      }
    }

    /** The loop over PIECE_OFFSETS[kind] for a piece other than a pawn. */
    method PieceMoves(sq: Square, k: Kind) returns (ms: seq<Move>)
      requires board.Length == 128
      ensures ms == OffsetMoves(Snapshot().board, turn, sq, k, PieceOffsets(k))
    {
      ms := OffsetsMoves(sq, k, PieceOffsets(k));
    }

    /** The walks for the offsets offs, one after the other. */
    method OffsetsMoves(sq: Square, k: Kind, offs: seq<int>) returns (ms: seq<Move>)
      requires board.Length == 128
      requires forall i :: 0 <= i < |offs| ==> -33 <= offs[i] <= 33 && (Single(k) || IsDirection(offs[i]))
      ensures ms == OffsetMoves(Snapshot().board, turn, sq, k, offs)
    {
      ghost var b := Snapshot().board;
      ms := [];
      var i := 0;
      while i < |offs|
        invariant 0 <= i <= |offs|
        invariant ms + OffsetMoves(b, turn, sq, k, offs[i..]) == OffsetMoves(b, turn, sq, k, offs)
      {
        var w := Walk(sq, offs[i], Single(k));
        OffsetMovesAppend(b, turn, sq, k, offs, i, ms, w);
        ms := ms + w;
        i := i + 1;
      }
      assert offs[i..] == [];
      assert ms + [] == ms;
    }

    /** One pass of the pawn's capture loop, for the offset
        PAWN_OFFSETS[turn][j]. */
    method PawnCaptureMoves(sq: Square, off: int) returns (ms: seq<Move>)
      requires board.Length == 128 && -17 <= off <= 16
      ensures ms == PawnCapture(Snapshot(), sq, off)
    {
      var ti := sq + off;
      if OffBoard(ti) {
        return [];
      }
      OffBoardIsNotSquare(ti);
      var t: Square := ti;
      var q := board[t];
      if q.Some? && q.value.color != turn {
        if IsBackrank(t) {
          ms := Promotions(sq, t);
        } else {
          ms := [Move(sq, t, None)];
        }
      } else if q.None? && epFile == Some(FileLetter(t)) {
        ms := [Move(sq, t, None)];
      } else {
        ms := [];
      }
    }

    /** The moves of a pawn of the side to move on sq: the single push with
        its promotions, the double push, then the two captures. None when the
        square ahead is off the board. */
    method PawnMovesAt(sq: Square) returns (r: Option<seq<Move>>)
      requires board.Length == 128
      ensures r == PawnMoves(Snapshot(), sq)
    {
      var ahead := sq + Forward(turn);
      if !IsSquare(ahead) {
        return None;
      }
      var t: Square := ahead;
      var ms: seq<Move> := [];
      if board[t].None? {
        if IsBackrank(t) {
          ms := Promotions(sq, t);
        }
        // `A or B and C` groups as `A or (B and C)`
        if turn == White && Rank(sq) == 2 {
          ms := ms + [Move(sq, sq - 32, None)];
        } else if turn == Black && Rank(sq) == 7 && board[sq + 32].None? {
          ms := ms + [Move(sq, sq + 32, None)];
        }
      }
      assert ms == (if board[t].Some? then [] else Pushes(Snapshot(), sq, t));
      var offs := CaptureOffsets(turn);
      var c2 := PawnCaptureMoves(sq, offs.0);
      var c3 := PawnCaptureMoves(sq, offs.1);
      r := Some(ms + c2 + c3);
    }

    /** The body of the loop over Square.get_all() for the square sq. */
    method SquareMovesAt(sq: Square) returns (r: Option<seq<Move>>)
      requires board.Length == 128
      ensures r == SquareMoves(Snapshot(), sq)
    {
      var piece := board[sq];
      if piece.None? || piece.value.color != turn {
        return Some([]);
      }
      if piece.value.kind == Pawn {
        r := PawnMovesAt(sq);
      } else {
        var ms := PieceMoves(sq, piece.value.kind);
        r := Some(ms);
      }
    }

    /** The loop over Square.get_all(). */
    method AllPieceMoves() returns (g: Gen)
      requires board.Length == 128
      ensures g == PiecesFrom(Snapshot(), 0)
    {
      ghost var s := Snapshot();
      var moves: seq<Move> := [];
      var k := 0;
      while k < 64
        invariant 0 <= k <= 64
        invariant Prefixed(moves, PiecesFrom(s, k)) == PiecesFrom(s, 0)
      {
        var r := SquareMovesAt(SquareAt(k));
        if r.None? {
          assert moves + [] == moves;
          return Gen(moves, OutsideBoard);
        }
        PiecesFromStep(s, k, r.value);
        Regroup3(moves, r.value, PiecesFrom(s, k + 1).moves);
        moves := moves + r.value;
        k := k + 1;
      }
      assert moves + [] == moves;
      g := Gen(moves, Exhausted);
    }

    /** The tests of castling that follow the empty cells: not in check,
        then the squares the king crosses and lands on. */
    method CastlingPath(from: Square, dir: int) returns (g: Gen)
      requires board.Length == 128 && (dir == 1 || dir == -1)
      ensures g == Crossing(Snapshot().board, turn, from, dir)
    {
      var check := IsCheck();
      if check {
        return Gen([], Exhausted);
      }
      g := CrossedSquares(from, dir, 1);
    }

    /** The n-th square towards dir is not attacked by the opponent, and
        neither is the next one when n is 1. */
    method CrossedSquares(from: Square, dir: int, n: int) returns (g: Gen)
      requires board.Length == 128 && (dir == 1 || dir == -1) && (n == 1 || n == 2)
      ensures g == CrossFrom(Snapshot().board, turn, from, dir, n)
      decreases 2 - n
    {
      var t := if n == 1 then from + dir else from + 2 * dir;
      if !IsSquare(t) {
        CrossFromStep(Snapshot().board, turn, from, dir, n, t, false);
        return Gen([], OutsideBoard);
      }
      var attacked := IsAttacked(Opposite(turn), t);
      CrossFromStep(Snapshot().board, turn, from, dir, n, t, attacked);
      if attacked {
        g := Gen([], Exhausted);
      } else if n == 2 {
        g := Gen([Move(from, t, None)], Exhausted);
      } else {
        g := CrossedSquares(from, dir, 2);
      }
    }

    /** King-side castling in get_pseudo_legal_moves. */
    method KingSideMoves() returns (g: Gen)
      requires board.Length == 128
      ensures g == KingSideCastle(Snapshot())
    {
      var right := GetCastlingRight(KingSideType(turn));
      if !right {
        return Gen([], Exhausted);
      }
      var king := GetKing(turn);
      if king.None? {
        return Gen([], NoKing);
      }
      var from: int := king.value;
      assert from + 2 < 128 by { assert from == 16 * Row(from) + File(from); }
      if board[from + 1].Some? || board[from + 2].Some? {
        return Gen([], Exhausted);
      }
      g := CastlingPath(king.value, 1);
    }

    /** Queen-side castling in get_pseudo_legal_moves; the cells left of a
        king on the a-file wrap round to the end of the list. */
    method QueenSideMoves() returns (g: Gen)
      requires board.Length == 128
      ensures g == QueenSideCastle(Snapshot())
    {
      var right := GetCastlingRight(QueenSideType(turn));
      if !right {
        return Gen([], Exhausted);
      }
      var king := GetKing(turn);
      if king.None? {
        return Gen([], NoKing);
      }
      var from: int := king.value;
      if board[Wrap(from - 1)].Some? || board[Wrap(from - 2)].Some? || board[Wrap(from - 3)].Some? {
        return Gen([], Exhausted);
      }
      g := CastlingPath(king.value, -1);
    }

    /** get_pseudo_legal_moves(): the moves of the pieces, then king-side and
        queen-side castling, each part run only when the one before it ran to
        its end. */
    method GetPseudoLegalMoves() returns (g: Gen)
      requires board.Length == 128
      ensures g == PseudoLegal(Snapshot())
    {
      g := AllPieceMoves();
      if g.stop != Exhausted {
        return;
      }
      var kingSide := KingSideMoves();
      g := Then(g, kingSide);
      if g.stop != Exhausted {
        return;
      }
      var queenSide := QueenSideMoves();
      g := Then(g, queenSide);
    }

    // ---------------------------------------------------------------------
    // Copies, get_legal_moves and the questions asked of it

    /** from_fen(fen): a new position loaded by set_fen, or the error set_fen
        raises. */
    static method FromFen(fen: string) returns (r: Result<Position, FenError>)
      ensures match ParseFen(fen)
        case Ok(s) => r.Ok? && fresh(r.value) && fresh(r.value.board) && r.value.Valid() && r.value.Snapshot() == s
        case Err(e) => r == Err(e)
    {
      var position := new Position();
      var err := position.SetFen(fen);
      if err.Some? {
        return Err(err.value);
      }
      r := Ok(position);
    }

    /** copy(): from_fen(get_fen()); it loads, and it holds the same position
        with the unbacked castling rights dropped. */
    method Copy() returns (c: Position)
      requires Valid()
      ensures fresh(c) && fresh(c.board) && c.Valid() && c.Snapshot() == Reloaded(Snapshot())
    {
      var fen := GetFen();
      ReloadFen(Snapshot());
      var r := FromFen(fen);
      c := r.value;
    }

    /** get_legal_moves(): each pseudo-legal move is made on a fresh copy
        and kept when the mover's king is then not attacked. */
    method GetLegalMoves() returns (g: Gen)
      requires Valid()
      ensures g == MoveGen.Legal(Snapshot())
    {
      var pseudo := GetPseudoLegalMoves();
      if pseudo.moves == [] {
        return Gen([], pseudo.stop);
      }
      LegalFiltersCopy(Snapshot());
      g := KeepLegal(pseudo);
    }

    /** The loop of get_legal_moves over the pseudo-legal moves. */
    method KeepLegal(pseudo: Gen) returns (g: Gen)
      requires Valid()
      ensures g == LegalFrom(Reloaded(Snapshot()), turn, pseudo.moves, pseudo.stop)
    {
      ghost var s := Snapshot();
      ghost var c := Reloaded(s);
      var moves: seq<Move> := [];
      var i := 0;
      while i < |pseudo.moves|
        invariant 0 <= i <= |pseudo.moves|
        invariant Valid() && Snapshot() == s
        invariant Prefixed(moves, LegalFrom(c, s.turn, pseudo.moves[i..], pseudo.stop)) == LegalFrom(c, s.turn, pseudo.moves, pseudo.stop)
      {
        var move := pseudo.moves[i];
        LegalFromStep(c, s.turn, pseudo.moves, pseudo.stop, i);
        var err, attacked := TryMove(move);
        if err.Some? {
          assert moves + [] == moves;
          return Gen(moves, MoveFailed(err.value));
        }
        if !attacked {
          PrefixedStep(moves, move, LegalFrom(c, s.turn, pseudo.moves[i + 1..], pseudo.stop));
          moves := moves + [move];
        }
        i := i + 1;
      }
      assert pseudo.moves[i..] == [];
      assert moves + [] == moves;
      g := Gen(moves, pseudo.stop);
    }

    /** The body of get_legal_moves' loop for one move: make it on a copy
        and ask whether the mover's king is then attacked. */
    method TryMove(move: Move) returns (err: Option<MoveError>, attacked: bool)
      requires Valid()
      ensures match ApplyMove(Reloaded(Snapshot()), move)
        case Err(e) => err == Some(e)
        case Ok(t) => err.None? && attacked == Attacks.IsKingAttacked(t.board, turn)
    {
      var potential := Copy();
      err := potential.MakeMove(move);
      if err.None? {
        attacked := potential.IsKingAttacked(turn);
      } else {
        attacked := false;
      }
    }

    /** `get_legal_moves().next()` inside `try ... except StopIteration`:
        Ok(false) on a first legal move, Ok(true) when there is none, and
        what the generator raises otherwise. */
    method ProbeLegalMoves() returns (r: Result<bool, Stop>)
      requires Valid()
      ensures r == NoLegalMove(Snapshot())
    {
      var legal := GetLegalMoves();
      if legal.moves != [] {
        r := Ok(false);
      } else if legal.stop == Exhausted {
        r := Ok(true);
      } else {
        r := Err(legal.stop);
      }
    }

    /** is_checkmate(). */
    method IsCheckmate() returns (r: Result<bool, Stop>)
      requires Valid()
      ensures r == Classify.IsCheckmate(Snapshot())
    {
      var check := IsCheck();
      if !check {
        return Ok(false);
      }
      r := ProbeLegalMoves();
    }

    /** is_stalemate(). */
    method IsStalemate() returns (r: Result<bool, Stop>)
      requires Valid()
      ensures r == Classify.IsStalemate(Snapshot())
    {
      var check := IsCheck();
      if check {
        return Ok(false);
      }
      r := ProbeLegalMoves();
    }

    /** The loop of is_insufficient_material over Square.get_all(): the
        shade of the first bishop is remembered and any bishop on the other
        shade answers False. */
    method BishopsOnOneShade() returns (r: bool)
      requires board.Length == 128
      ensures r == OneShade(Snapshot().board)
    {
      ghost var b := Snapshot().board;
      var color: Option<bool> := None;
      var k := 0;
      while k < 64
        invariant 0 <= k <= 64
        invariant forall j :: 0 <= j < k && HoldsKind(b, SquareAt(j), Bishop) ==> color == Some(IsLight(SquareAt(j)))
        invariant color.Some? ==> exists j :: 0 <= j < k && HoldsKind(b, SquareAt(j), Bishop) && color == Some(IsLight(SquareAt(j)))
      {
        var square := SquareAt(k);
        if board[square].Some? && board[square].value.kind == Bishop {
          if color.Some? && color.value != IsLight(square) {
            return false;
          }
          color := Some(IsLight(square));
        }
        k := k + 1;
      }
      forall sq1: Square, sq2: Square | HoldsKind(b, sq1, Bishop) && HoldsKind(b, sq2, Bishop)
        ensures IsLight(sq1) == IsLight(sq2)
      {
        var j1, j2 := SquareIndex(sq1), SquareIndex(sq2);
        assert color == Some(IsLight(SquareAt(j1))) == Some(IsLight(SquareAt(j2)));
      }
      r := true;
    }

    /** is_insufficient_material(). */
    method IsInsufficientMaterial() returns (r: bool)
      requires board.Length == 128
      ensures r == InsufficientMaterial(Snapshot().board)
    {
      var counts := GetPieceCounts(Both);
      var total := counts[Pawn] + counts[Knight] + counts[Bishop] + counts[Rook] + counts[Queen] + counts[King];
      if total == 2 {
        return true;
      } else if total == 3 {
        if counts[Bishop] == 1 || counts[Knight] == 1 {
          return true;
        }
      } else if total == 2 + counts[Bishop] {
        var white := GetPieceCounts(OnlyWhite);
        var black := GetPieceCounts(OnlyBlack);
        if white[Bishop] != 0 && black[Bishop] != 0 {
          r := BishopsOnOneShade();
          return;
        }
      }
      return false;
    }

    /** is_game_over(): checkmate or stalemate or insufficient material,
        each asked only when the one before answered False. */
    method IsGameOver() returns (r: Result<bool, Stop>)
      requires Valid()
      ensures r == Classify.IsGameOver(Snapshot())
    {
      var mate := IsCheckmate();
      if mate.Err? {
        return Err(mate.error);
      } else if mate.value {
        return Ok(true);
      }
      var stale := IsStalemate();
      if stale.Err? {
        return Err(stale.error);
      } else if stale.value {
        return Ok(true);
      }
      var insufficient := IsInsufficientMaterial();
      r := Ok(insufficient);
    }

    // ---------------------------------------------------------------------
    // Move information

    /** _get_disambiguator(mv). */
    method GetDisambiguator(mv: Move) returns (r: Result<string, Stop>)
      requires Valid()
      ensures r == Disambiguator(Snapshot(), mv)
    {
      var legal := GetLegalMoves();
      r := DisambiguateAmong(mv, legal);
    }

    /** The loop of _get_disambiguator over the legal moves: it sets a flag
        for a rival on the same rank and one for a rival on the same file,
        and stops once both are set. */
    method DisambiguateAmong(mv: Move, legal: Gen) returns (r: Result<string, Stop>)
      requires board.Length == 128
      ensures r == Disambiguation(Snapshot().board, mv, legal)
    {
      ghost var b := Snapshot().board;
      var sameRank, sameFile := false, false;
      var piece := board[mv.source];
      var i := 0;
      while i < |legal.moves| && !(sameRank && sameFile)
        invariant 0 <= i <= |legal.moves|
        invariant sameRank == RankRival(b, mv, legal.moves[..i])
        invariant sameFile == FileRival(b, mv, legal.moves[..i])
      {
        var m := legal.moves[i];
        RivalStep(b, mv, legal.moves, i);
        var ambiguous := board[m.source];
        if piece == ambiguous && mv.source != m.source && mv.target == m.target {
          if Rank(mv.source) == Rank(m.source) {
            sameRank := true;
          }
          if File(mv.source) == File(m.source) {
            sameFile := true;
          }
        }
        i := i + 1;
      }
      RivalsGrow(b, mv, legal.moves, i);
      if sameRank && sameFile {
        return Ok(Name(mv.source));
      }
      assert legal.moves[..i] == legal.moves;
      if legal.stop != Exhausted {
        r := Err(legal.stop);
      } else if sameFile {
        r := Ok([RankDigit(mv.source)]);
      } else if sameRank {
        r := Ok([FileLetter(mv.source)]);
      } else {
        r := Ok([]);
      }
    }

    /** get_move_info(mv): the legality assertion, the move made on a copy,
        then the information read off both positions. */
    method GetMoveInfo(mv: Move) returns (r: Result<MoveInfo, InfoError>)
      requires Valid()
      ensures r == San.GetMoveInfo(Snapshot(), mv)
    {
      ghost var s := Snapshot();
      var legal := GetLegalMoves();
      if mv !in legal.moves {
        return Err(if legal.stop == Exhausted then NotLegal else Raised(legal.stop));
      }
      ReloadFen(s);
      var resulting := Copy();
      var err := resulting.MakeMove(mv);
      if err.Some? {
        return Err(Raised(MoveFailed(err.value)));
      }
      r := DescribeMove(mv, resulting);
    }

    /** The part of get_move_info after the move was made on the copy
        `resulting`. */
    method DescribeMove(mv: Move, resulting: Position) returns (r: Result<MoveInfo, InfoError>)
      requires Valid() && resulting.Valid()
      ensures r == Describe(Snapshot().board, mv, resulting.Snapshot(),
        Classify.IsCheckmate(resulting.Snapshot()), Disambiguator(Snapshot(), mv))
    {
      var capture := board[mv.target];
      var piece := board[mv.source];
      if piece.None? {
        // piece.get_type() on None
        return Err(Raised(MoveFailed(EmptySource)));
      }
      var enPassant := false;
      if piece.value.kind == Pawn {
        if File(mv.target) != File(mv.source) && capture.None? {
          enPassant := true;
          capture := Some(Piece(resulting.turn, Pawn));
        }
      }
      var kingSide := piece.value.kind == King && File(mv.target) - File(mv.source) == 2;
      var queenSide := piece.value.kind == King && File(mv.target) - File(mv.source) == -2;
      var check := resulting.IsCheck();
      var mate := resulting.IsCheckmate();
      if mate.Err? {
        return Err(Raised(mate.error));
      }
      r := WriteSan(MoveInfo(mv, piece.value, capture, "", enPassant, kingSide, queenSide, check, mate.value));
    }

    /** The SAN get_move_info builds for the information `info`. */
    method WriteSan(info: MoveInfo) returns (r: Result<MoveInfo, InfoError>)
      requires Valid()
      ensures r == Written(info, Disambiguator(Snapshot(), info.move))
    {
      var san: string;
      if info.isKingSideCastle {
        san := "o-o";
      } else if info.isQueenSideCastle {
        san := "o-o-o";
      } else {
        var d := GetDisambiguator(info.move);
        if d.Err? {
          return Err(Raised(d.error));
        }
        san := SanText(info.piece, d.value, info.captured.Some?, info.move);
      }
      var marks := MarksText(info.isCheckmate, info.isCheck, info.isEnPassant);
      r := Ok(info.(san := san + marks));
    }

    /** The SAN of a move that is not castling, before the check marks, as
        get_move_info appends it. */
    method SanText(piece: Piece, d: string, capture: bool, mv: Move) returns (san: string)
      ensures san == SanBody(piece, d, capture, mv)
    {
      san := "";
      if piece.kind != Pawn {
        san := san + [Upper(KindLetter(piece.kind))];
      }
      san := san + d;
      if capture {
        if piece.kind == Pawn {
          Regroup3(san, [FileLetter(mv.source)], "x");
          san := san + [FileLetter(mv.source)];
        }
        san := san + "x";
      }
      san := san + Name(mv.target);
      if mv.promotion.Some? {
        Regroup3(san, "=", [Upper(KindLetter(mv.promotion.value))]);
        san := san + "=" + [Upper(KindLetter(mv.promotion.value))];
      }
    }

    /** The check mark and the en-passant note get_move_info appends. */
    method MarksText(mate: bool, check: bool, ep: bool) returns (marks: string)
      ensures marks == Marks(mate, check, ep)
    {
      marks := "";
      if mate {
        marks := marks + "#";
      } else if check {
        marks := marks + "+";
      }
      if ep {
        marks := marks + " (e.p.)";
      }
    }

    // ---------------------------------------------------------------------
    // The default position and equality

    /** reset(): set_fen of the standard starting FEN. */
    method Reset()
      requires Valid()
      modifies this
      ensures Valid() && fresh(board) && Snapshot() == StartState()
    {
      StartFenLoads();
      var err := SetFen(StartFen);
    }

    /** get_default(): a new position, reset. */
    static method GetDefault() returns (p: Position)
      ensures fresh(p) && fresh(p.board) && p.Valid() && p.Snapshot() == StartState()
    {
      p := new Position();
      p.Reset();
    }

    /** __eq__(other): the two FENs are equal, which happens exactly when
        the two positions are. */
    method Equals(other: Position) returns (r: bool)
      requires Valid() && other.Valid()
      ensures r == (Snapshot() == other.Snapshot())
    {
      var mine := GetFen();
      var theirs := other.GetFen();
      FenInjective(Snapshot(), other.Snapshot());
      r := mine == theirs;
    }
  }
}
