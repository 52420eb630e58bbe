/** The FEN codec of the position: get_fen writes the six fields (placement,
    side to move, castling, en passant, half-move clock, move number) and
    set_fen validates a FEN text and loads it. */
module Fen {
  import opened ChessTypes
  import opened BoardState
  import opened Text

  // ---------------------------------------------------------------------
  // Writing (get_fen)

  /** get_fen's inner loop over one row of cells (row 0 is rank 8), from file
      x on, with `empty` empty cells counted but not yet written. */
  function RowText(b: Board, row: int, x: int, empty: nat): string
    requires 0 <= row < 8 && 0 <= x <= 8
    decreases 8 - x
  {
    var pending := if empty > 0 then NatStr(empty) else "";
    if x == 8 then pending
    else match b[16 * row + x]
      case None => RowText(b, row, x + 1, empty + 1)
      case Some(p) => pending + [Symbol(p)] + RowText(b, row, x + 1, 0)
  }

  /** The text of the eight rows, rank 8 first. */
  function Rows(b: Board): (r: seq<string>)
    ensures |r| == 8
    ensures forall row :: 0 <= row < 8 ==> r[row] == RowText(b, row, 0, 0)
  {
    seq(8, row requires 0 <= row < 8 => RowText(b, row, 0, 0))
  }

  /** The placement field: the rows joined by '/'. */
  function Placement(b: Board): string
  {
    JoinWith(Rows(b), '/')
  }

  function CastlingField(c: string): string
  {
    if c == "" then "-" else c
  }

  /** The en-passant field: the file followed by 6 when white is to move
      (black has just pushed) and by 3 when black is to move. */
  function EpField(ep: Option<char>, turn: Color): string
  {
    match ep
    case None => "-"
    case Some(f) => [f, if turn == White then '6' else '3']
  }

  function Fields(s: State): seq<string>
  {
    [Placement(s.board), [ColorChar(s.turn)], CastlingField(s.castling),
     EpField(s.epFile, s.turn), IntStr(s.halfMoves), IntStr(s.moveNumber)]
  }

  /** get_fen: the six fields joined by single spaces. */
  function Fen(s: State): string
  {
    JoinSpaces(Fields(s))
  }

  // ---------------------------------------------------------------------
  // Reading (set_fen)

  /** The assertion of set_fen that fails, in the order they are checked.
      BadNumber stands for the ValueError that int() raises. */
  datatype FenError =
    | FieldCount | RankCount | BadCharacter | AdjacentDigits | RankWidth
    | BadTurn | BadCastling | BadEnPassant | BadNumber
    | NegativeHalfMoves | MoveNumberTooSmall

  predicate IsCount(c: char) { '1' <= c <= '8' }

  /** The characters a rank may hold: "12345678pnbrkqPNBRKQ". */
  predicate IsRankChar(c: char) { IsCount(c) || IsPieceLetter(c) }

  /** set_fen's scan of one rank: each character must be a digit 1-8 or a
      piece letter, two digits may not follow each other, and the running
      sum counts a digit by its value and a letter as one. */
  function ScanRow(row: string, prevDigit: bool, sum: int): Result<int, FenError>
    decreases |row|
  {
    if row == [] then Ok(sum)
    else if !IsRankChar(row[0]) then Err(BadCharacter)
    else if IsCount(row[0]) then
      if prevDigit then Err(AdjacentDigits) else ScanRow(row[1..], true, sum + DigitValue(row[0]))
    else ScanRow(row[1..], false, sum + 1)
  }

  /** The first error in one rank, or None when it is accepted. */
  function CheckRow(row: string): Option<FenError>
  {
    match ScanRow(row, false, 0)
    case Err(e) => Some(e)
    case Ok(w) => if w == 8 then None else Some(RankWidth)
  }

  /** The first error among the ranks, checked in order. */
  function CheckRows(rows: seq<string>): Option<FenError>
  {
    if rows == [] then None
    else if CheckRow(rows[0]).Some? then CheckRow(rows[0])
    else CheckRows(rows[1..])
  }

  /** Drop c from the front of t when it is there: the regex `c?`. */
  function DropOptional(t: string, c: char): string
  {
    if |t| > 0 && t[0] == c then t[1..] else t
  }

  /** t matches the regex made of the given letters each followed by `?`. */
  predicate OptionalRun(t: string, letters: string)
    decreases |letters|
  {
    if letters == [] then t == [] else OptionalRun(DropOptional(t, letters[0]), letters[1..])
  }

  /** The castling field pattern `^(KQ?k?q?|Qk?q?|kq?|q|-)$`. */
  predicate CastlingPattern(t: string)
  {
    t == "-" ||
    (|t| > 0 &&
      ((t[0] == 'K' && OptionalRun(t[1..], "Qkq")) ||
       (t[0] == 'Q' && OptionalRun(t[1..], "kq")) ||
       (t[0] == 'k' && OptionalRun(t[1..], "q")) ||
       (t[0] == 'q' && t[1..] == [])))
  }

  /** The en-passant field pattern `^(-|[a-h][36])$`. */
  predicate EpPattern(t: string)
  {
    t == "-" || (|t| == 2 && 'a' <= t[0] <= 'h' && (t[1] == '3' || t[1] == '6'))
  }

  /** How far the fill loop's running index moves over p. */
  function Advance(p: string): nat
  {
    if p == [] then 0
    else (if p[0] == '/' then 8 else if IsCount(p[0]) then DigitValue(p[0]) else 1) + Advance(p[1..])
  }

  /** set_fen's fill loop from running index i: '/' moves on 8 cells, a digit
      that many, and any other character writes its piece at i and moves on
      one cell. None stands for the IndexError of a write beyond the list. */
  function Fill(p: string, i: nat, b: Board): Option<Board>
    decreases |p|
  {
    if p == [] then Some(b)
    else if p[0] == '/' then Fill(p[1..], i + 8, b)
    else if IsCount(p[0]) then Fill(p[1..], i + DigitValue(p[0]), b)
    else if i < 128 then Fill(p[1..], i + 1, b[i := FromSymbol(p[0])])
    else None
  }

  /** set_fen(fen), which either raises before changing anything or sets
      every field. */
  function ParseFen(fen: string): (r: Result<State, FenError>)
    ensures r.Ok? ==> Wf(r.value)
  {
    var tokens := SplitWs(fen);
    if |tokens| != 6 then Err(FieldCount)
    else
      var rows := SplitOn(tokens[0], '/');
      if |rows| != 8 then Err(RankCount)
      else if CheckRows(rows).Some? then Err(CheckRows(rows).value)
      else if tokens[1] != "w" && tokens[1] != "b" then Err(BadTurn)
      else if !CastlingPattern(tokens[2]) then Err(BadCastling)
      else if !EpPattern(tokens[3]) then Err(BadEnPassant)
      else match ParseInt(tokens[4])
        case None => Err(BadNumber)
        case Some(half) =>
          if half < 0 then Err(NegativeHalfMoves)
          else match ParseInt(tokens[5])
            case None => Err(BadNumber)
            case Some(number) =>
              if number < 1 then Err(MoveNumberTooSmall)
              else Ok(LoadFields(tokens, half, number))
  }

  /** What set_fen sets once every assertion has passed: the counters, the
      en-passant file, the castling string, the pieces placed by the fill
      loop, the turn, and then the castling rights the pieces do not back
      dropped. */
  function LoadFields(tokens: seq<string>, half: int, number: int): (s: State)
    requires |tokens| == 6 && |SplitOn(tokens[0], '/')| == 8 && CheckRows(SplitOn(tokens[0], '/')).None?
    requires CastlingPattern(tokens[2]) && EpPattern(tokens[3]) && half >= 0 && number >= 1
    ensures Wf(s)
  {
    FillChecked(tokens[0], SplitOn(tokens[0], '/'));
    var b := Fill(tokens[0], 0, EmptyBoard()).value;
    var ep := if tokens[3] == "-" then None else Some(tokens[3][0]);
    var castling := if tokens[2] == "-" then "" else tokens[2];
    CastlingPatternCanonical(tokens[2]);
    RederiveRights(b, castling);
    State(b, if tokens[1] == "w" then White else Black, Rederive(b, castling), ep, half, number)
  }

  /** The state a get_fen / set_fen round trip produces: everything kept but
      the rights that the pieces do not back. */
  function Reloaded(s: State): State
  {
    s.(castling := Rederive(s.board, s.castling))
  }

  // ---------------------------------------------------------------------
  // The rank check against a direct definition

  /** The number of cells a rank's text covers. */
  function Width(row: string): nat
  {
    if row == [] then 0 else (if IsCount(row[0]) then DigitValue(row[0]) else 1) + Width(row[1..])
  }

  predicate NoAdjacentCounts(row: string)
  {
    forall k :: 0 <= k < |row| - 1 ==> !(IsCount(row[k]) && IsCount(row[k + 1]))
  }

  predicate AllRankChars(row: string)
  {
    forall k :: 0 <= k < |row| ==> IsRankChar(row[k])
  }

  /** A rank set_fen accepts: allowed characters only, no two digits in a
      row, eight cells in all. */
  predicate RankOk(row: string)
  {
    AllRankChars(row) && NoAdjacentCounts(row) && Width(row) == 8
  }

  lemma {:induction false} ScanRowSpec(row: string, prev: bool, sum: int)
    ensures ScanRow(row, prev, sum).Ok? <==>
      AllRankChars(row) && NoAdjacentCounts(row) && !(prev && |row| > 0 && IsCount(row[0]))
    ensures ScanRow(row, prev, sum).Ok? ==> ScanRow(row, prev, sum).value == sum + Width(row)
    decreases |row|
  {
    if row != [] {
      var c := row[0];
      var tail := row[1..];
      ScanRowSpec(tail, IsCount(c), sum + (if IsCount(c) then DigitValue(c) else 1));
      assert forall k :: 0 <= k < |tail| ==> tail[k] == row[k + 1];
      if AllRankChars(tail) && NoAdjacentCounts(tail) && IsRankChar(c) &&
        !(IsCount(c) && |tail| > 0 && IsCount(tail[0])) {
        assert AllRankChars(row);
        assert NoAdjacentCounts(row) by {
          forall k | 0 <= k < |row| - 1 ensures !(IsCount(row[k]) && IsCount(row[k + 1])) {
            if k > 0 { assert row[k] == tail[k - 1] && row[k + 1] == tail[k]; }
          }
        }
      }
      if AllRankChars(row) && NoAdjacentCounts(row) {
        assert AllRankChars(tail);
        assert NoAdjacentCounts(tail) by {
          forall k | 0 <= k < |tail| - 1 ensures !(IsCount(tail[k]) && IsCount(tail[k + 1])) {
            assert tail[k] == row[k + 1] && tail[k + 1] == row[k + 2];
          }
        }
      }
    }
  }

  /** A rank passes set_fen's check exactly when it is well formed. */
  lemma CheckRowSpec(row: string)
    ensures CheckRow(row).None? <==> RankOk(row)
  {
    ScanRowSpec(row, false, 0);
  }

  lemma {:induction false} CheckRowsSpec(rows: seq<string>)
    ensures CheckRows(rows).None? <==> forall k :: 0 <= k < |rows| ==> RankOk(rows[k])
  {
    if rows != [] {
      CheckRowSpec(rows[0]);
      CheckRowsSpec(rows[1..]);
      assert forall k :: 1 <= k < |rows| ==> rows[k] == rows[1..][k - 1];
    }
  }

  lemma PatternIsCanonical(t: string)
    requires CastlingPattern(t) && t != "-"
    ensures t != "" && Canonical(t)
  {
    var u := t[1..];
    assert t == [t[0]] + u;
    if t[0] == 'K' {
      WhiteKingCanonical(u);
    } else if t[0] == 'Q' {
      WhiteQueenCanonical(u);
    } else if t[0] == 'k' {
      var bq := |u| > 0 && u[0] == 'q';
      assert DropOptional(u, 'q') == [];
      assert u == (if bq then "q" else "");
      assert t == RightsString(false, false, true, bq);
      RightsStringCanonical(false, false, true, bq);
    } else {
      assert t == RightsString(false, false, false, true);
      RightsStringCanonical(false, false, false, true);
    }
  }

  /** The black part of a castling field: `k?q?`. */
  lemma BlackRun(v: string)
    requires OptionalRun(v, "kq")
    ensures v == RightsString(false, false, v == "k" || v == "kq", v == "q" || v == "kq")
  {
    var v1 := DropOptional(v, 'k');
    assert OptionalRun(v1, "q");
    assert DropOptional(v1, 'q') == [];
    assert v == "" || v == "k" || v == "q" || v == "kq";
  }

  lemma RightsStringWhite(wk: bool, wq: bool, bk: bool, bq: bool)
    ensures RightsString(wk, wq, bk, bq) ==
      (if wk then "K" else "") + ((if wq then "Q" else "") + RightsString(false, false, bk, bq))
  {
  }

  /** A field `K` followed by `Q?k?q?` lists the rights in canonical order. */
  lemma WhiteKingCanonical(u: string)
    requires OptionalRun(u, "Qkq")
    ensures Canonical("K" + u)
  {
    var wq := |u| > 0 && u[0] == 'Q';
    var v := DropOptional(u, 'Q');
    assert OptionalRun(v, "kq");
    assert u == (if wq then "Q" else "") + v;
    BlackRun(v);
    var bk, bq := v == "k" || v == "kq", v == "q" || v == "kq";
    RightsStringWhite(true, wq, bk, bq);
    RightsStringCanonical(true, wq, bk, bq);
  }

  /** A field `Q` followed by `k?q?` lists the rights in canonical order. */
  lemma WhiteQueenCanonical(u: string)
    requires OptionalRun(u, "kq")
    ensures Canonical("Q" + u)
  {
    BlackRun(u);
    var bk, bq := u == "k" || u == "kq", u == "q" || u == "kq";
    RightsStringWhite(false, true, bk, bq);
    RightsStringCanonical(false, true, bk, bq);
  }

  lemma CanonicalIsPattern(t: string)
    requires t != "" && Canonical(t)
    ensures CastlingPattern(t)
  {
    var wk, wq, bk, bq := HasRight(t, WhiteKingSide), HasRight(t, WhiteQueenSide),
                          HasRight(t, BlackKingSide), HasRight(t, BlackQueenSide);
    assert t == RightsString(wk, wq, bk, bq);
    if wk {
      WhiteKingPattern(wq, bk, bq);
    } else if wq {
      WhiteQueenPattern(bk, bq);
    } else if bk {
      if bq { assert t == "kq"; } else { assert t == "k"; }
    } else {
      assert t == "q";
    }
  }

  lemma WhiteKingPattern(wq: bool, bk: bool, bq: bool)
    ensures CastlingPattern(RightsString(true, wq, bk, bq))
  {
    var t := RightsString(true, wq, bk, bq);
    if wq {
      if bk { if bq { assert t == "KQkq"; } else { assert t == "KQk"; } }
      else { if bq { assert t == "KQq"; } else { assert t == "KQ"; } }
    } else {
      if bk { if bq { assert t == "Kkq"; } else { assert t == "Kk"; } }
      else { if bq { assert t == "Kq"; } else { assert t == "K"; } }
    }
  }

  lemma WhiteQueenPattern(bk: bool, bq: bool)
    ensures CastlingPattern(RightsString(false, true, bk, bq))
  {
    var t := RightsString(false, true, bk, bq);
    if bk { if bq { assert t == "Qkq"; } else { assert t == "Qk"; } }
    else { if bq { assert t == "Qq"; } else { assert t == "Q"; } }
  }

  /** A castling field matches the pattern exactly when it is "-" or a
      non-empty castling string in canonical order. */
  lemma CastlingPatternCanonical(t: string)
    ensures CastlingPattern(t) <==> t == "-" || (t != "" && Canonical(t))
  {
    if CastlingPattern(t) && t != "-" {
      PatternIsCanonical(t);
    }
    if t != "" && t != "-" && Canonical(t) {
      CanonicalIsPattern(t);
    }
  }

  // ---------------------------------------------------------------------
  // The fill loop

  lemma {:induction false} FillConcat(p: string, q: string, i: nat, b: Board)
    ensures Fill(p + q, i, b) ==
      match Fill(p, i, b)
      case None => None
      case Some(b') => Fill(q, i + Advance(p), b')
    decreases |p|
  {
    if p == [] {
      assert p + q == q;
    } else {
      assert (p + q)[1..] == p[1..] + q;
      if p[0] == '/' {
        FillConcat(p[1..], q, i + 8, b);
      } else if IsCount(p[0]) {
        FillConcat(p[1..], q, i + DigitValue(p[0]), b);
      } else if i < 128 {
        FillConcat(p[1..], q, i + 1, b[i := FromSymbol(p[0])]);
      }
    }
  }

  /** b2 differs from b1 at most in cells lo..hi-1. */
  predicate SameOutside(b1: Board, b2: Board, lo: int, hi: int)
  {
    forall k :: 0 <= k < 128 && !(lo <= k < hi) ==> b1[k] == b2[k]
  }

  /** Filling one accepted rank from cell i = start + sum, where the rank's
      cells are start .. start + 7, writes only those cells. */
  lemma {:induction false} FillRank(row: string, start: nat, prev: bool, sum: nat, b: Board)
    requires start + 8 <= 128
    requires ScanRow(row, prev, sum).Ok? && ScanRow(row, prev, sum).value <= 8
    ensures Advance(row) == ScanRow(row, prev, sum).value - sum
    ensures Fill(row, start + sum, b).Some?
    ensures SameOutside(b, Fill(row, start + sum, b).value, start, start + 8)
    decreases |row|
  {
    if row != [] {
      var c := row[0];
      assert IsRankChar(c);
      assert c != '/';
      if IsCount(c) {
        var d := DigitValue(c);
        assert ScanRow(row, prev, sum) == ScanRow(row[1..], true, sum + d);
        assert Fill(row, start + sum, b) == Fill(row[1..], start + (sum + d), b);
        FillRank(row[1..], start, true, sum + d, b);
      } else {
        assert ScanRow(row, prev, sum) == ScanRow(row[1..], false, sum + 1);
        ScanRowAtLeast(row[1..], false, sum + 1);
        var i := start + sum;
        var b' := b[i := FromSymbol(c)];
        assert Fill(row, i, b) == Fill(row[1..], start + (sum + 1), b');
        FillRank(row[1..], start, false, sum + 1, b');
      }
    }
  }

  lemma {:induction false} ScanRowAtLeast(row: string, prev: bool, sum: int)
    requires ScanRow(row, prev, sum).Ok?
    ensures ScanRow(row, prev, sum).value >= sum
    decreases |row|
  {
    if row != [] {
      if IsCount(row[0]) {
        ScanRowAtLeast(row[1..], true, sum + DigitValue(row[0]));
      } else {
        ScanRowAtLeast(row[1..], false, sum + 1);
      }
    }
  }

  lemma FillAcceptedRank(row: string, r: int, b: Board)
    requires 0 <= r < 8 && RankOk(row)
    ensures Advance(row) == 8
    ensures Fill(row, 16 * r, b).Some?
    ensures SameBeforeAndOff(b, Fill(row, 16 * r, b).value, 16 * r)
  {
    CheckRowSpec(row);
    ScanRowSpec(row, false, 0);
    FillRank(row, 16 * r, false, 0, b);
    assert 16 * r + 0 == 16 * r;
  }

  lemma FillAfterRank(row: string, rest: string, i: nat, b: Board)
    requires Fill(row, i, b).Some? && Advance(row) == 8
    ensures Fill(row + ("/" + rest), i, b) == Fill(rest, i + 16, Fill(row, i, b).value)
  {
    FillConcat(row, "/" + rest, i, b);
    assert ("/" + rest)[1..] == rest;
  }

  /** Cells before lo and cells that are not squares agree. */
  predicate SameBeforeAndOff(b1: Board, b2: Board, lo: int)
  {
    forall k :: 0 <= k < 128 && (k < lo || !IsSquare(k)) ==> b1[k] == b2[k]
  }

  /** Filling accepted ranks r.. joined by '/' from row r's first cell writes
      only squares of rows r and below. */
  lemma {:induction false} FillRanks(rows: seq<string>, r: int, b: Board)
    requires |rows| == 8 && 0 <= r < 8
    requires forall k :: r <= k < 8 ==> RankOk(rows[k])
    ensures Fill(JoinWith(rows[r..], '/'), 16 * r, b).Some?
    ensures SameBeforeAndOff(b, Fill(JoinWith(rows[r..], '/'), 16 * r, b).value, 16 * r)
    decreases 8 - r
  {
    FillAcceptedRank(rows[r], r, b);
    var b1 := Fill(rows[r], 16 * r, b).value;
    if r == 7 {
      assert rows[r..] == [rows[r]];
    } else {
      var rest := JoinWith(rows[r + 1..], '/');
      assert rows[r..][1..] == rows[r + 1..];
      assert JoinWith(rows[r..], '/') == rows[r] + ("/" + rest);
      FillAfterRank(rows[r], rest, 16 * r, b);
      FillRanks(rows, r + 1, b1);
      var b2 := Fill(rest, 16 * (r + 1), b1).value;
      assert Fill(JoinWith(rows[r..], '/'), 16 * r, b) == Some(b2);
    }
  }

  /** After the checks pass, the fill loop never writes beyond the list. */
  lemma FillChecked(placement: string, rows: seq<string>)
    requires rows == SplitOn(placement, '/') && |rows| == 8 && CheckRows(rows).None?
    ensures Fill(placement, 0, EmptyBoard()).Some?
    ensures OffBoardEmpty(Fill(placement, 0, EmptyBoard()).value)
  {
    JoinSplit(placement, '/');
    CheckRowsSpec(rows);
    FillRanks(rows, 0, EmptyBoard());
    assert rows[0..] == rows;
  }

  // ---------------------------------------------------------------------
  // Reading back what get_fen wrote

  lemma PendingDigit(e: nat)
    requires 0 < e <= 8
    ensures NatStr(e) == [DigitChar(e)] && IsCount(DigitChar(e))
  {
  }

  lemma ScanCount(d: char, t: string, sum: int)
    requires IsCount(d)
    ensures IsRankChar(d)
    ensures ScanRow([d] + t, false, sum) == ScanRow(t, true, sum + DigitValue(d))
  {
    assert ([d] + t)[1..] == t;
  }

  lemma ScanLetter(c: char, t: string, prev: bool, sum: int, res: Result<int, FenError>)
    requires IsPieceLetter(c) && ScanRow(t, false, sum + 1) == res
    ensures IsRankChar(c) && !IsCount(c)
    ensures ScanRow([c] + t, prev, sum) == res
  {
    assert ([c] + t)[1..] == t;
  }

  lemma RankCharsConcat(s1: string, s2: string)
    requires AllRankChars(s1) && AllRankChars(s2)
    ensures AllRankChars(s1 + s2)
  {
    assert forall k :: |s1| <= k < |s1 + s2| ==> (s1 + s2)[k] == s2[k - |s1|];
  }

  /** Every rank get_fen writes passes set_fen's rank check with the
      expected width. */
  lemma {:induction false} RowTextScan(b: Board, r: int, x: int, e: nat, sum: int)
    requires 0 <= r < 8 && 0 <= x <= 8 && e <= x
    ensures ScanRow(RowText(b, r, x, e), false, sum) == Ok(sum + 8 - x + e)
    decreases 8 - x, 1
  {
    if x == 8 {
      RowTextScanEnd(b, r, e, sum);
    } else if b[16 * r + x].None? {
      RowTextSkip(b, r, x, e);
      RowTextScan(b, r, x + 1, e + 1, sum);
      assert sum + 8 - (x + 1) + (e + 1) == sum + 8 - x + e;
    } else {
      RowTextScanPiece(b, r, x, e, sum);
    }
  }

  lemma RowTextScanEnd(b: Board, r: int, e: nat, sum: int)
    requires 0 <= r < 8 && e <= 8
    ensures ScanRow(RowText(b, r, 8, e), false, sum) == Ok(sum + e)
  {
    ScanPending(e, [], sum, Ok(sum + e));
    assert RowText(b, r, 8, e) == (if e > 0 then NatStr(e) else "") + [];
  }

  lemma RowTextSkip(b: Board, r: int, x: int, e: nat)
    requires 0 <= r < 8 && 0 <= x < 8 && b[16 * r + x].None?
    ensures RowText(b, r, x, e) == RowText(b, r, x + 1, e + 1)
  {
  }

  /** Every character of a rank get_fen writes is a count or a piece letter. */
  lemma {:induction false} RowTextChars(b: Board, r: int, x: int, e: nat)
    requires 0 <= r < 8 && 0 <= x <= 8 && e <= x
    ensures AllRankChars(RowText(b, r, x, e))
    decreases 8 - x, 1
  {
    if x == 8 {
      if e > 0 {
        PendingDigit(e);
        assert RowText(b, r, x, e) == [DigitChar(e)];
      }
    } else if b[16 * r + x].None? {
      RowTextChars(b, r, x + 1, e + 1);
    } else {
      RowTextCharsPiece(b, r, x, e);
    }
  }

  /** The step of RowTextChars at a cell holding a piece. */
  lemma {:induction false} RowTextCharsPiece(b: Board, r: int, x: int, e: nat)
    requires 0 <= r < 8 && 0 <= x < 8 && e <= x && b[16 * r + x].Some?
    ensures AllRankChars(RowText(b, r, x, e))
    decreases 8 - x, 0
  {
    var sym := Symbol(b[16 * r + x].value);
    var rest := RowText(b, r, x + 1, 0);
    RowTextPiece(b, r, x, e);
    RowTextChars(b, r, x + 1, 0);
    RankCharsConcat([sym], rest);
    RankCharsPending(e, [sym] + rest);
  }

  /** A pending count of empty cells in front of a tail that begins with a
      letter scans as the count followed by the tail. */
  lemma ScanPending(e: nat, tail: string, sum: int, res: Result<int, FenError>)
    requires e <= 8 && ScanRow(tail, e > 0, sum + e) == res
    ensures ScanRow((if e > 0 then NatStr(e) else "") + tail, false, sum) == res
  {
    if e > 0 {
      PendingDigit(e);
      assert DigitValue(DigitChar(e)) == e;
      ScanCount(DigitChar(e), tail, sum);
    } else {
      assert "" + tail == tail;
    }
  }

  lemma RankCharsPending(e: nat, tail: string)
    requires e <= 8 && AllRankChars(tail)
    ensures AllRankChars((if e > 0 then NatStr(e) else "") + tail)
  {
    if e > 0 {
      PendingDigit(e);
      RankCharsConcat([DigitChar(e)], tail);
    } else {
      assert "" + tail == tail;
    }
  }

  /** The step of RowTextScan at a cell holding a piece. */
  lemma {:induction false} RowTextScanPiece(b: Board, r: int, x: int, e: nat, sum: int)
    requires 0 <= r < 8 && 0 <= x < 8 && e <= x && b[16 * r + x].Some?
    ensures ScanRow(RowText(b, r, x, e), false, sum) == Ok(sum + 8 - x + e)
    decreases 8 - x, 0
  {
    var sym := Symbol(b[16 * r + x].value);
    var rest := RowText(b, r, x + 1, 0);
    var res := Ok(sum + 8 - x + e);
    RowTextPiece(b, r, x, e);
    RowTextScan(b, r, x + 1, 0, sum + e + 1);
    assert ScanRow(rest, false, sum + e + 1) == res;
    ScanLetter(sym, rest, e > 0, sum + e, res);
    ScanPending(e, [sym] + rest, sum, res);
  }

  /** The board restricted to its first n cells; the rest empty. */
  function Upto(b: Board, n: int): Board
  {
    seq(128, k requires 0 <= k < 128 => if k < n then b[k] else None)
  }

  /** The cells a rank's text advances over: the eight cells of the rank,
      counted from the first cell not yet written. */
  lemma {:induction false} RowTextAdvance(b: Board, r: int, x: int, e: nat)
    requires 0 <= r < 8 && 0 <= x <= 8 && e <= x
    ensures Advance(RowText(b, r, x, e)) == 8 - x + e
    decreases 8 - x, 1
  {
    var t := RowText(b, r, x, e);
    if x == 8 {
      if e > 0 {
        PendingDigit(e);
        assert t == [DigitChar(e)];
      }
    } else if b[16 * r + x].None? {
      RowTextAdvance(b, r, x + 1, e + 1);
    } else {
      RowTextAdvancePiece(b, r, x, e);
    }
  }

  /** The step of RowTextAdvance at a cell holding a piece. */
  lemma {:induction false} RowTextAdvancePiece(b: Board, r: int, x: int, e: nat)
    requires 0 <= r < 8 && 0 <= x < 8 && e <= x && b[16 * r + x].Some?
    ensures Advance(RowText(b, r, x, e)) == 8 - x + e
    decreases 8 - x, 0
  {
    var p := b[16 * r + x].value;
    var rest := RowText(b, r, x + 1, 0);
    RowTextPiece(b, r, x, e);
    RowTextAdvance(b, r, x + 1, 0);
    AdvanceCons(Symbol(p), rest);
    if e > 0 {
      PendingDigit(e);
      AdvanceCons(DigitChar(e), [Symbol(p)] + rest);
    } else {
      assert "" + ([Symbol(p)] + rest) == [Symbol(p)] + rest;
    }
  }

  /** The fill loop's index moves over a piece letter by one and over a
      digit by its value. */
  lemma AdvanceCons(c: char, rest: string)
    requires IsPieceLetter(c) || IsCount(c)
    ensures Advance([c] + rest) == (if IsCount(c) then DigitValue(c) else 1) + Advance(rest)
  {
    assert ([c] + rest)[1..] == rest;
  }

  /** Filling the text of one rank written by get_fen, from the cell after the
      last one already written, writes exactly the pieces of that rank. */
  lemma {:induction false} RowTextFill(b: Board, r: int, x: int, e: nat, start: nat, i: int)
    requires 0 <= r < 8 && 0 <= x <= 8 && e <= x && i == 16 * r + x && start + e == i
    ensures Fill(RowText(b, r, x, e), start, Upto(b, i)) == Some(Upto(b, 16 * r + 8))
    decreases 8 - x, 1
  {
    if x == 8 {
      FillPending(e, [], start, Upto(b, i), Some(Upto(b, i)));
    } else if b[i].None? {
      UptoSkip(b, i);
      RowTextFill(b, r, x + 1, e + 1, start, i + 1);
    } else {
      RowTextFillPiece(b, r, x, e, start, i);
    }
  }

  /** The step of RowTextFill at a cell holding a piece. */
  lemma {:induction false} RowTextFillPiece(b: Board, r: int, x: int, e: nat, start: nat, i: int)
    requires 0 <= r < 8 && 0 <= x < 8 && e <= x && i == 16 * r + x && start + e == i && b[i].Some?
    ensures Fill(RowText(b, r, x, e), start, Upto(b, i)) == Some(Upto(b, 16 * r + 8))
    decreases 8 - x, 0
  {
    var p := b[i].value;
    var rest := RowText(b, r, x + 1, 0);
    var res := Some(Upto(b, 16 * r + 8));
    RowTextPiece(b, r, x, e);
    SymbolRoundTrip(p);
    UptoStep(b, i);
    RowTextFill(b, r, x + 1, 0, i + 1, i + 1);
    FillLetter(Symbol(p), rest, i, Upto(b, i), Upto(b, i + 1), res);
    FillPending(e, [Symbol(p)] + rest, start, Upto(b, i), res);
  }

  /** The count of empty cells written before a piece or at the end of a
      rank moves the fill loop's index on by that count. */
  lemma FillPending(e: nat, tail: string, start: nat, u: Board, res: Option<Board>)
    requires e <= 8 && Fill(tail, start + e, u) == res
    ensures Fill((if e > 0 then NatStr(e) else "") + tail, start, u) == res
  {
    if e > 0 {
      PendingDigit(e);
      FillDigit(DigitChar(e), tail, start, u, res);
    } else {
      assert "" + tail == tail;
    }
  }

  /** The text of a rank from a cell holding a piece: the pending count of
      empty cells, the piece's symbol, then the rest of the rank. */
  lemma RowTextPiece(b: Board, r: int, x: int, e: nat)
    requires 0 <= r < 8 && 0 <= x < 8 && b[16 * r + x].Some?
    ensures RowText(b, r, x, e) ==
      (if e > 0 then NatStr(e) else "") + ([Symbol(b[16 * r + x].value)] + RowText(b, r, x + 1, 0))
  {
  }

  lemma UptoSkip(b: Board, i: int)
    requires 0 <= i < 128 && b[i].None?
    ensures Upto(b, i) == Upto(b, i + 1)
  {
  }

  lemma UptoStep(b: Board, i: int)
    requires 0 <= i < 128 && b[i].Some?
    ensures Upto(b, i)[i := b[i]] == Upto(b, i + 1)
  {
  }

  /** The fill loop moves over a digit by its value. */
  lemma FillDigit(d: char, rest: string, i: nat, b: Board, res: Option<Board>)
    requires IsCount(d) && Fill(rest, i + DigitValue(d), b) == res
    ensures Fill([d] + rest, i, b) == res
  {
    assert ([d] + rest)[1..] == rest;
  }

  /** The fill loop writes a piece letter's piece and moves on one cell. */
  lemma FillLetter(c: char, rest: string, i: nat, b: Board, b': Board, res: Option<Board>)
    requires IsPieceLetter(c) && i < 128 && b' == b[i := FromSymbol(c)] && Fill(rest, i + 1, b') == res
    ensures Fill([c] + rest, i, b) == res
  {
    assert ([c] + rest)[1..] == rest;
  }

  lemma UptoRowEnd(b: Board, r: int)
    requires OffBoardEmpty(b) && 0 <= r < 8
    ensures Upto(b, 16 * r + 8) == (if r == 7 then b else Upto(b, 16 * (r + 1)))
  {
  }

  /** Filling the ranks r.. of get_fen's placement rebuilds the board. */
  lemma {:induction false} PlacementFill(b: Board, r: int)
    requires OffBoardEmpty(b) && 0 <= r < 8
    ensures Fill(JoinWith(Rows(b)[r..], '/'), 16 * r, Upto(b, 16 * r)) == Some(b)
    decreases 8 - r
  {
    if r == 7 {
      var rows := Rows(b);
      RankFill(b, r);
      UptoRowEnd(b, r);
      assert rows[r..] == [rows[r]];
    } else {
      PlacementFill(b, r + 1);
      PlacementFillStep(b, r);
    }
  }

  /** One rank in front of the ranks after it. */
  lemma PlacementFillStep(b: Board, r: int)
    requires OffBoardEmpty(b) && 0 <= r < 7
    requires Fill(JoinWith(Rows(b)[r + 1..], '/'), 16 * (r + 1), Upto(b, 16 * (r + 1))) == Some(b)
    ensures Fill(JoinWith(Rows(b)[r..], '/'), 16 * r, Upto(b, 16 * r)) == Some(b)
  {
    var rows := Rows(b);
    var i, j := 16 * r, 16 * (r + 1);
    var u0, u1 := Upto(b, i), Upto(b, j);
    var rest := JoinWith(rows[r + 1..], '/');
    RankFill(b, r);
    UptoRowEnd(b, r);
    assert Fill(rows[r], i, u0) == Some(u1);
    JoinFirst(rows[r..], '/');
    assert rows[r..][1..] == rows[r + 1..];
    assert JoinWith(rows[r..], '/') == rows[r] + ("/" + rest);
    FillAfterRank(rows[r], rest, i, u0);
    assert i + 16 == j;
  }

  /** Filling one rank of get_fen's placement from its first cell writes its
      pieces and advances eight cells. */
  lemma RankFill(b: Board, r: int)
    requires OffBoardEmpty(b) && 0 <= r < 8
    ensures Fill(Rows(b)[r], 16 * r, Upto(b, 16 * r)) == Some(Upto(b, 16 * r + 8))
    ensures Advance(Rows(b)[r]) == 8
  {
    RowTextFill(b, r, 0, 0, 16 * r, 16 * r);
    RowTextAdvance(b, r, 0, 0);
    UptoRowEnd(b, r);
  }

  lemma NoWsJoin(parts: seq<string>, sep: char)
    requires |parts| >= 1 && !IsWs(sep)
    requires forall k :: 0 <= k < |parts| ==> NoWs(parts[k])
    ensures NoWs(JoinWith(parts, sep))
    decreases |parts|
  {
    if |parts| > 1 {
      NoWsJoin(parts[1..], sep);
    }
  }

  lemma RankCharsNoWs(t: string)
    requires AllRankChars(t)
    ensures NoWs(t) && '/' !in t
  {
    assert forall k :: 0 <= k < |t| ==> t[k] != '/';
  }

  /** The placement get_fen writes splits into its eight ranks, passes the
      rank checks and fills back to the board. */
  lemma PlacementReads(b: Board)
    requires OffBoardEmpty(b)
    ensures Placement(b) != [] && NoWs(Placement(b))
    ensures SplitOn(Placement(b), '/') == Rows(b)
    ensures CheckRows(Rows(b)).None?
    ensures Fill(Placement(b), 0, EmptyBoard()) == Some(b)
  {
    var rows := Rows(b);
    forall k | 0 <= k < 8
      ensures RankOk(rows[k]) && NoWs(rows[k]) && '/' !in rows[k]
    {
      RowTextScan(b, k, 0, 0, 0);
      RowTextChars(b, k, 0, 0);
      CheckRowSpec(rows[k]);
      RankCharsNoWs(rows[k]);
    }
    NoWsJoin(rows, '/');
    SplitJoin(rows, '/');
    CheckRowsSpec(rows);
    PlacementFill(b, 0);
    assert rows[0..] == rows;
    assert Upto(b, 0) == EmptyBoard();
    assert Placement(b) == rows[0] + ['/'] + JoinWith(rows[1..], '/');
  }

  lemma RightsStringNoWs(wk: bool, wq: bool, bk: bool, bq: bool)
    ensures NoWs(RightsString(wk, wq, bk, bq)) && RightsString(wk, wq, bk, bq) != "-"
  {
    var c := RightsString(wk, wq, bk, bq);
    assert forall k :: 0 <= k < |c| ==> c[k] == 'K' || c[k] == 'Q' || c[k] == 'k' || c[k] == 'q';
    if |c| > 0 { assert c[0] != '-'; }
  }

  lemma CanonicalField(c: string)
    requires Canonical(c)
    ensures CastlingField(c) != [] && NoWs(CastlingField(c))
    ensures CastlingPattern(CastlingField(c))
    ensures (if CastlingField(c) == "-" then "" else CastlingField(c)) == c
  {
    RightsStringNoWs(HasRight(c, WhiteKingSide), HasRight(c, WhiteQueenSide),
                     HasRight(c, BlackKingSide), HasRight(c, BlackQueenSide));
    CastlingPatternCanonical(CastlingField(c));
  }

  lemma EpFieldNoWs(ep: Option<char>, turn: Color)
    requires EpFileOk(ep)
    ensures EpField(ep, turn) != [] && NoWs(EpField(ep, turn)) && EpPattern(EpField(ep, turn))
  {
  }

  /** get_fen splits into exactly its six fields. */
  lemma FenFields(s: State)
    requires Loadable(s)
    ensures SplitWs(Fen(s)) == Fields(s)
  {
    var f := Fields(s);
    forall k | 0 <= k < |f| ensures f[k] != [] && NoWs(f[k]) {
      FieldToken(s, k);
    }
    SplitJoinSpaces(f);
  }

  /** Each field get_fen writes is a non-empty run without whitespace. */
  lemma FieldToken(s: State, k: int)
    requires Loadable(s) && 0 <= k < 6
    ensures Fields(s)[k] != [] && NoWs(Fields(s)[k])
  {
    if k == 0 {
      PlacementToken(s.board);
    } else if k == 2 {
      CanonicalField(s.castling);
    } else if k == 3 {
      EpFieldNoWs(s.epFile, s.turn);
    }
  }

  lemma PlacementToken(b: Board)
    requires OffBoardEmpty(b)
    ensures Placement(b) != [] && NoWs(Placement(b))
  {
    PlacementReads(b);
  }

  /** set_fen accepts a text exactly when it has six fields, the first made
      of eight well-formed ranks, the turn is w or b, the castling and
      en-passant fields match their patterns, the half-move clock is a
      number of at least 0 and the move number one of at least 1. */
  lemma ParseFenAccepts(fen: string)
    ensures var tokens := SplitWs(fen);
      ParseFen(fen).Ok? <==>
        |tokens| == 6 && |SplitOn(tokens[0], '/')| == 8 &&
        (forall k :: 0 <= k < 8 ==> RankOk(SplitOn(tokens[0], '/')[k])) &&
        (tokens[1] == "w" || tokens[1] == "b") && CastlingPattern(tokens[2]) && EpPattern(tokens[3]) &&
        ParseInt(tokens[4]).Some? && ParseInt(tokens[4]).value >= 0 &&
        ParseInt(tokens[5]).Some? && ParseInt(tokens[5]).value >= 1
  {
    var tokens := SplitWs(fen);
    if |tokens| == 6 {
      CheckRowsSpec(SplitOn(tokens[0], '/'));
    }
  }

  /** set_fen(get_fen()) on a loadable state yields the same state with the
      castling rights the pieces do not back removed. */
  lemma ReloadFen(s: State)
    requires Loadable(s)
    ensures ParseFen(Fen(s)) == Ok(Reloaded(s))
  {
    FenFields(s);
    PlacementReads(s.board);
    CanonicalField(s.castling);
    EpFieldNoWs(s.epFile, s.turn);
    ParseIntStr(s.halfMoves);
    ParseIntStr(s.moveNumber);
    var tokens := SplitWs(Fen(s));
    assert tokens == Fields(s);
    assert SplitOn(tokens[0], '/') == Rows(s.board);
    assert tokens[1] == "w" || tokens[1] == "b";
    assert (tokens[1] == "w") == (s.turn == White);
    assert (if tokens[3] == "-" then None else Some(tokens[3][0])) == s.epFile;
    assert ParseInt(tokens[4]) == Some(s.halfMoves);
    assert ParseInt(tokens[5]) == Some(s.moveNumber);
    assert Fill(tokens[0], 0, EmptyBoard()) == Some(s.board);
  }

  /** For a well-formed state, set_fen(get_fen()) restores it exactly. */
  lemma FenRoundTrip(s: State)
    requires Wf(s)
    ensures ParseFen(Fen(s)) == Ok(s)
  {
    ReloadFen(s);
    RederiveKeepsBacked(s);
  }

  /** get_fen is injective on loadable states, so `__eq__` (which compares
      FENs) is equality of positions. */
  lemma FenInjective(s: State, t: State)
    requires Loadable(s) && Loadable(t)
    ensures Fen(s) == Fen(t) <==> s == t
  {
    if Fen(s) == Fen(t) {
      FenFields(s);
      FenFields(t);
      FieldsInjective(s, t);
    }
  }

  /** Loadable states with the same six fields are the same state. */
  lemma FieldsInjective(s: State, t: State)
    requires Loadable(s) && Loadable(t) && Fields(s) == Fields(t)
    ensures s == t
  {
    var fs, ft := Fields(s), Fields(t);
    assert fs[0] == ft[0] && fs[1] == ft[1] && fs[2] == ft[2] && fs[3] == ft[3];
    PlacementReads(s.board);
    PlacementReads(t.board);
    assert s.board == t.board;
    assert [ColorChar(s.turn)] == [ColorChar(t.turn)];
    CanonicalField(s.castling);
    CanonicalField(t.castling);
    EpFieldInjective(s.epFile, t.epFile, s.turn);
    IntStrInjective(s.halfMoves, t.halfMoves);
    IntStrInjective(s.moveNumber, t.moveNumber);
  }

  lemma EpFieldInjective(e: Option<char>, f: Option<char>, turn: Color)
    requires EpField(e, turn) == EpField(f, turn)
    ensures e == f
  {
    if e.Some? { assert EpField(e, turn)[0] == e.value; }
    if f.Some? { assert EpField(f, turn)[0] == f.value; }
  }

  /** The FEN of a copy equals the original's FEN exactly when every held
      castling right is backed by the pieces. */
  lemma CopyKeepsFen(s: State)
    requires Loadable(s)
    ensures Fen(Reloaded(s)) == Fen(s) <==> RightsBacked(s)
  {
    ReloadFen(s);
    var r := Reloaded(s);
    assert Wf(r);
    if RightsBacked(s) {
      RederiveKeepsBacked(s);
    }
    FenInjective(r, s);
  }

  /** A position loaded by set_fen has a stable FEN:
      from_fen(p.get_fen()).get_fen() == p.get_fen(). */
  lemma LoadedFenStable(fen: string)
    requires ParseFen(fen).Ok?
    ensures ParseFen(Fen(ParseFen(fen).value)) == ParseFen(fen)
  {
    FenRoundTrip(ParseFen(fen).value);
  }

  // ---------------------------------------------------------------------
  // The default position (reset, get_default)

  const StartFen := "rnbqkbnr/pppppppp/8/8/8/8/PPPPPPPP/RNBQKBNR w KQkq - 0 1"

  /** The pieces of the first and last rank, from the a-file to the h-file. */
  function BackRankKind(f: int): Kind
    requires 0 <= f < 8
  {
    [Rook, Knight, Bishop, Queen, King, Bishop, Knight, Rook][f]
  }

  function StartBoard(): Board
  {
    seq(128, i requires 0 <= i < 128 =>
      if i < 8 then Some(Piece(Black, BackRankKind(i)))
      else if 16 <= i < 24 then Some(Piece(Black, Pawn))
      else if 96 <= i < 104 then Some(Piece(White, Pawn))
      else if 112 <= i < 120 then Some(Piece(White, BackRankKind(i - 112)))
      else None)
  }

  /** The standard starting position with white to move and all four rights. */
  function StartState(): State
  {
    State(StartBoard(), White, "KQkq", None, 0, 1)
  }

  /** A row whose cells from file x on are empty is written as one digit. */
  lemma {:induction false} EmptyRowText(b: Board, r: int, x: int, e: nat)
    requires 0 <= r < 8 && 0 <= x <= 8 && 0 < e + 8 - x <= 8
    requires forall k :: 16 * r + x <= k < 16 * r + 8 ==> b[k].None?
    ensures RowText(b, r, x, e) == [DigitChar(e + 8 - x)]
    decreases 8 - x
  {
    if x < 8 {
      EmptyRowText(b, r, x + 1, e + 1);
    }
  }

  lemma StartRow0()
    ensures RowText(StartBoard(), 0, 0, 0) == "rnbqkbnr"
  {
    var b := StartBoard();
    assert RowText(b, 0, 8, 0) == "";
    assert RowText(b, 0, 7, 0) == "r";
    assert RowText(b, 0, 6, 0) == "nr";
    assert RowText(b, 0, 5, 0) == "bnr";
    assert RowText(b, 0, 4, 0) == "kbnr";
    assert RowText(b, 0, 3, 0) == "qkbnr";
    assert RowText(b, 0, 2, 0) == "bqkbnr";
    assert RowText(b, 0, 1, 0) == "nbqkbnr";
  }

  lemma StartRow1()
    ensures RowText(StartBoard(), 1, 0, 0) == "pppppppp"
  {
    var b := StartBoard();
    assert RowText(b, 1, 8, 0) == "";
    assert RowText(b, 1, 7, 0) == "p";
    assert RowText(b, 1, 6, 0) == "pp";
    assert RowText(b, 1, 5, 0) == "ppp";
    assert RowText(b, 1, 4, 0) == "pppp";
    assert RowText(b, 1, 3, 0) == "ppppp";
    assert RowText(b, 1, 2, 0) == "pppppp";
    assert RowText(b, 1, 1, 0) == "ppppppp";
  }

  lemma StartRow6()
    ensures RowText(StartBoard(), 6, 0, 0) == "PPPPPPPP"
  {
    var b := StartBoard();
    assert RowText(b, 6, 8, 0) == "";
    assert RowText(b, 6, 7, 0) == "P";
    assert RowText(b, 6, 6, 0) == "PP";
    assert RowText(b, 6, 5, 0) == "PPP";
    assert RowText(b, 6, 4, 0) == "PPPP";
    assert RowText(b, 6, 3, 0) == "PPPPP";
    assert RowText(b, 6, 2, 0) == "PPPPPP";
    assert RowText(b, 6, 1, 0) == "PPPPPPP";
  }

  lemma StartRow7()
    ensures RowText(StartBoard(), 7, 0, 0) == "RNBQKBNR"
  {
    var b := StartBoard();
    assert RowText(b, 7, 8, 0) == "";
    assert RowText(b, 7, 7, 0) == "R";
    assert RowText(b, 7, 6, 0) == "NR";
    assert RowText(b, 7, 5, 0) == "BNR";
    assert RowText(b, 7, 4, 0) == "KBNR";
    assert RowText(b, 7, 3, 0) == "QKBNR";
    assert RowText(b, 7, 2, 0) == "BQKBNR";
    assert RowText(b, 7, 1, 0) == "NBQKBNR";
  }

  lemma StartEmptyRow(r: int)
    requires 2 <= r <= 5
    ensures RowText(StartBoard(), r, 0, 0) == "8"
  {
    var b := StartBoard();
    assert forall k :: 16 * r <= k < 16 * r + 8 ==> b[k].None?;
    EmptyRowText(b, r, 0, 0);
  }

  /** One step of `"/".join`: the first piece, a slash, the rest joined. */
  /** The eight ranks of the starting placement, joined. */
  lemma StartJoin(rows: seq<string>)
    requires |rows| == 8 && rows[0] == "rnbqkbnr" && rows[1] == "pppppppp" && rows[2] == "8" && rows[3] == "8"
    requires rows[4] == "8" && rows[5] == "8" && rows[6] == "PPPPPPPP" && rows[7] == "RNBQKBNR"
    ensures JoinWith(rows, '/') == "rnbqkbnr/pppppppp/8/8/8/8/PPPPPPPP/RNBQKBNR"
  {
    StartJoinHead(rows);
    JoinPrefix(rows, 4, '/');
    assert JoinWith(rows[..5], '/') == "rnbqkbnr/pppppppp/8/8/8";
    JoinPrefix(rows, 5, '/');
    assert JoinWith(rows[..6], '/') == "rnbqkbnr/pppppppp/8/8/8/8";
    JoinPrefix(rows, 6, '/');
    assert JoinWith(rows[..7], '/') == "rnbqkbnr/pppppppp/8/8/8/8/PPPPPPPP";
    JoinPrefix(rows, 7, '/');
    assert rows[..8] == rows;
  }

  /** The first four ranks of the starting placement, joined. */
  lemma StartJoinHead(rows: seq<string>)
    requires |rows| == 8 && rows[0] == "rnbqkbnr" && rows[1] == "pppppppp" && rows[2] == "8" && rows[3] == "8"
    ensures JoinWith(rows[..4], '/') == "rnbqkbnr/pppppppp/8/8"
  {
    assert rows[..1] == [rows[0]];
    JoinPrefix(rows, 1, '/');
    assert JoinWith(rows[..2], '/') == "rnbqkbnr/pppppppp";
    JoinPrefix(rows, 2, '/');
    assert JoinWith(rows[..3], '/') == "rnbqkbnr/pppppppp/8";
    JoinPrefix(rows, 3, '/');
  }

  lemma StartPlacement()
    ensures Placement(StartBoard()) == "rnbqkbnr/pppppppp/8/8/8/8/PPPPPPPP/RNBQKBNR"
  {
    StartRow0();
    StartRow1();
    StartEmptyRow(2);
    StartEmptyRow(3);
    StartEmptyRow(4);
    StartEmptyRow(5);
    StartRow6();
    StartRow7();
    StartJoin(Rows(StartBoard()));
  }

  lemma StartStateWf()
    ensures Wf(StartState())
  {
    StartBoardOffEmpty();
    StartRightsBacked();
    assert RightsString(true, true, true, true) == "KQkq";
    RightsStringCanonical(true, true, true, true);
  }

  lemma StartBoardOffEmpty()
    ensures OffBoardEmpty(StartBoard())
  {
    var b := StartBoard();
    forall i | 0 <= i < 128 && !IsSquare(i) ensures b[i] == None {
    }
  }

  /** The kings and rooks of the starting position stand at home. */
  lemma StartRightsBacked()
    ensures forall t :: TheoreticalRight(StartBoard(), t)
  {
    var b := StartBoard();
    assert b[E1] == Some(Piece(White, King)) && b[H1] == Some(Piece(White, Rook)) && b[A1] == Some(Piece(White, Rook));
    assert b[E8] == Some(Piece(Black, King)) && b[H8] == Some(Piece(Black, Rook)) && b[A8] == Some(Piece(Black, Rook));
  }

  /** get_fen of the starting position is the FEN that reset() loads. */
  lemma StartFenText()
    ensures Fen(StartState()) == StartFen
  {
    StartPlacement();
    var f := Fields(StartState());
    assert f == ["rnbqkbnr/pppppppp/8/8/8/8/PPPPPPPP/RNBQKBNR", "w", "KQkq", "-", "0", "1"];
    StartFenJoined();
  }

  lemma StartFenJoined()
    ensures JoinSpaces(["rnbqkbnr/pppppppp/8/8/8/8/PPPPPPPP/RNBQKBNR", "w", "KQkq", "-", "0", "1"]) == StartFen
  {
    var tail := ["w", "KQkq", "-", "0", "1"];
    StartFenTail();
    JoinSpacesCons("rnbqkbnr/pppppppp/8/8/8/8/PPPPPPPP/RNBQKBNR", tail);
    assert ["rnbqkbnr/pppppppp/8/8/8/8/PPPPPPPP/RNBQKBNR"] + tail
      == ["rnbqkbnr/pppppppp/8/8/8/8/PPPPPPPP/RNBQKBNR", "w", "KQkq", "-", "0", "1"];
  }

  lemma StartFenTail()
    ensures JoinSpaces(["w", "KQkq", "-", "0", "1"]) == "w KQkq - 0 1"
  {
    JoinSpacesCons("0", ["1"]);
    assert ["0"] + ["1"] == ["0", "1"];
    JoinSpacesCons("-", ["0", "1"]);
    assert ["-"] + ["0", "1"] == ["-", "0", "1"];
    JoinSpacesCons("KQkq", ["-", "0", "1"]);
    assert ["KQkq"] + ["-", "0", "1"] == ["KQkq", "-", "0", "1"];
    JoinSpacesCons("w", ["KQkq", "-", "0", "1"]);
    assert ["w"] + ["KQkq", "-", "0", "1"] == ["w", "KQkq", "-", "0", "1"];
  }

  lemma StartFenLoads()
    ensures ParseFen(StartFen) == Ok(StartState())
  {
    StartFenText();
    StartStateWf();
    FenRoundTrip(StartState());
  }
}
