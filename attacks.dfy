/** Attack detection: the ATTACKS and RAYS tables of get_attackers, the
    attackers it yields for a square, is_attacked, and their agreement with
    the rules of chess. */
module Attacks {
  import opened ChessTypes
  import opened Geometry
  import opened BoardState

  /** ATTACKS, indexed by source - target + 119: which piece kinds can reach
      the target from the source on an empty board, one bit per kind. The
      flat list is held as its fifteen rows of sixteen entries (the last row
      has fifteen), so entry i is in row i / 16 at column i % 16. */
  const AttackRows: seq<seq<int>> := [
    [20, 0, 0, 0, 0, 0, 0, 24, 0, 0, 0, 0, 0, 0, 20, 0],
    [0, 20, 0, 0, 0, 0, 0, 24, 0, 0, 0, 0, 0, 20, 0, 0],
    [0, 0, 20, 0, 0, 0, 0, 24, 0, 0, 0, 0, 20, 0, 0, 0],
    [0, 0, 0, 20, 0, 0, 0, 24, 0, 0, 0, 20, 0, 0, 0, 0],
    [0, 0, 0, 0, 20, 0, 0, 24, 0, 0, 20, 0, 0, 0, 0, 0],
    [0, 0, 0, 0, 0, 20, 2, 24, 2, 20, 0, 0, 0, 0, 0, 0],
    [0, 0, 0, 0, 0, 2, 53, 56, 53, 2, 0, 0, 0, 0, 0, 0],
    [24, 24, 24, 24, 24, 24, 56, 0, 56, 24, 24, 24, 24, 24, 24, 0],
    [0, 0, 0, 0, 0, 2, 53, 56, 53, 2, 0, 0, 0, 0, 0, 0],
    [0, 0, 0, 0, 0, 20, 2, 24, 2, 20, 0, 0, 0, 0, 0, 0],
    [0, 0, 0, 0, 20, 0, 0, 24, 0, 0, 20, 0, 0, 0, 0, 0],
    [0, 0, 0, 20, 0, 0, 0, 24, 0, 0, 0, 20, 0, 0, 0, 0],
    [0, 0, 20, 0, 0, 0, 0, 24, 0, 0, 0, 0, 20, 0, 0, 0],
    [0, 20, 0, 0, 0, 0, 0, 24, 0, 0, 0, 0, 0, 20, 0, 0],
    [20, 0, 0, 0, 0, 0, 0, 24, 0, 0, 0, 0, 0, 0, 20]
  ]

  /** RAYS, indexed and held like ATTACKS: the 0x88 step from the source
      towards the target for the sliding geometries, 0 elsewhere. */
  const RayRows: seq<seq<int>> := [
    [17, 0, 0, 0, 0, 0, 0, 16, 0, 0, 0, 0, 0, 0, 15, 0],
    [0, 17, 0, 0, 0, 0, 0, 16, 0, 0, 0, 0, 0, 15, 0, 0],
    [0, 0, 17, 0, 0, 0, 0, 16, 0, 0, 0, 0, 15, 0, 0, 0],
    [0, 0, 0, 17, 0, 0, 0, 16, 0, 0, 0, 15, 0, 0, 0, 0],
    [0, 0, 0, 0, 17, 0, 0, 16, 0, 0, 15, 0, 0, 0, 0, 0],
    [0, 0, 0, 0, 0, 17, 0, 16, 0, 15, 0, 0, 0, 0, 0, 0],
    [0, 0, 0, 0, 0, 0, 17, 16, 15, 0, 0, 0, 0, 0, 0, 0],
    [1, 1, 1, 1, 1, 1, 1, 0, -1, -1, -1, -1, -1, -1, -1, 0],
    [0, 0, 0, 0, 0, 0, -15, -16, -17, 0, 0, 0, 0, 0, 0, 0],
    [0, 0, 0, 0, 0, -15, 0, -16, 0, -17, 0, 0, 0, 0, 0, 0],
    [0, 0, 0, 0, -15, 0, 0, -16, 0, 0, -17, 0, 0, 0, 0, 0],
    [0, 0, 0, -15, 0, 0, 0, -16, 0, 0, 0, -17, 0, 0, 0, 0],
    [0, 0, -15, 0, 0, 0, 0, -16, 0, 0, 0, 0, -17, 0, 0, 0],
    [0, -15, 0, 0, 0, 0, 0, -16, 0, 0, 0, 0, 0, -17, 0, 0],
    [-15, 0, 0, 0, 0, 0, 0, -16, 0, 0, 0, 0, 0, 0, -17]
  ]

  /** The entry the geometry predicts for row difference dr and file
      difference df: knight 2; diagonal 20, plus pawn and king bits (53) next
      door; line 24, plus the king bit (56) next door. */
  function MaskOf(dr: int, df: int): int
  {
    if KnightShape(dr, df) then 2
    else if DiagonalShape(dr, df) then (if AdjacentShape(dr, df) then 53 else 20)
    else if LineShape(dr, df) then (if AdjacentShape(dr, df) then 56 else 24)
    else 0
  }

  /** The step the geometry predicts: towards the target on a line or a
      diagonal, 0 elsewhere. */
  function RayOf(dr: int, df: int): int
  {
    if DiagonalShape(dr, df) || LineShape(dr, df) then StepOf(dr, df) else 0
  }

  /** The row lengths of both tables: sixteen, fifteen for the last row. */
  predicate TableShape()
  {
    |AttackRows| == 15 && |RayRows| == 15 &&
    (forall row :: 0 <= row < 15 ==> |AttackRows[row]| == |RayRows[row]| == (if row < 14 then 16 else 15))
  }

  /** Entry col of row `row` of both tables (col < 15; the sixteenth entry
      of each row is padding that no two squares produce) is what the
      geometry predicts for row difference row - 7 and file difference
      col - 7. */
  predicate TableAgrees(row: int, col: int)
    requires 0 <= row < 15 && 0 <= col < 15 && TableShape()
  {
    AttackRows[row][col] == MaskOf(row - 7, col - 7) &&
    RayRows[row][col] == RayOf(row - 7, col - 7)
  }

  /* The thirty lemmas TableRow0a .. TableRow14b state one fact, TableAgrees
     on every entry, checked half a row at a time: each entry is settled by
     evaluating the literal tables, and a whole row, or the whole table, in
     one proof is more than the solver's budget allows. TableAt puts them
     together. */
  lemma TableRow0a()
    requires TableShape()
    ensures forall col :: 0 <= col < 8 ==> TableAgrees(0, col)
  {
    forall col | 0 <= col < 8 ensures TableAgrees(0, col) {
      if col == 0 {} else if col == 1 {} else if col == 2 {} else if col == 3 {} else if col == 4 {} else if col == 5 {} else if col == 6 {} else if col == 7 {}
    }
  }

  lemma TableRow0b()
    requires TableShape()
    ensures forall col :: 8 <= col < 15 ==> TableAgrees(0, col)
  {
    forall col | 8 <= col < 15 ensures TableAgrees(0, col) {
      if col == 8 {} else if col == 9 {} else if col == 10 {} else if col == 11 {} else if col == 12 {} else if col == 13 {} else if col == 14 {}
    }
  }

  lemma TableRow1a()
    requires TableShape()
    ensures forall col :: 0 <= col < 8 ==> TableAgrees(1, col)
  {
    forall col | 0 <= col < 8 ensures TableAgrees(1, col) {
      if col == 0 {} else if col == 1 {} else if col == 2 {} else if col == 3 {} else if col == 4 {} else if col == 5 {} else if col == 6 {} else if col == 7 {}
    }
  }

  lemma TableRow1b()
    requires TableShape()
    ensures forall col :: 8 <= col < 15 ==> TableAgrees(1, col)
  {
    forall col | 8 <= col < 15 ensures TableAgrees(1, col) {
      if col == 8 {} else if col == 9 {} else if col == 10 {} else if col == 11 {} else if col == 12 {} else if col == 13 {} else if col == 14 {}
    }
  }

  lemma TableRow2a()
    requires TableShape()
    ensures forall col :: 0 <= col < 8 ==> TableAgrees(2, col)
  {
    forall col | 0 <= col < 8 ensures TableAgrees(2, col) {
      if col == 0 {} else if col == 1 {} else if col == 2 {} else if col == 3 {} else if col == 4 {} else if col == 5 {} else if col == 6 {} else if col == 7 {}
    }
  }

  lemma TableRow2b()
    requires TableShape()
    ensures forall col :: 8 <= col < 15 ==> TableAgrees(2, col)
  {
    forall col | 8 <= col < 15 ensures TableAgrees(2, col) {
      if col == 8 {} else if col == 9 {} else if col == 10 {} else if col == 11 {} else if col == 12 {} else if col == 13 {} else if col == 14 {}
    }
  }

  lemma TableRow3a()
    requires TableShape()
    ensures forall col :: 0 <= col < 8 ==> TableAgrees(3, col)
  {
    forall col | 0 <= col < 8 ensures TableAgrees(3, col) {
      if col == 0 {} else if col == 1 {} else if col == 2 {} else if col == 3 {} else if col == 4 {} else if col == 5 {} else if col == 6 {} else if col == 7 {}
    }
  }

  lemma TableRow3b()
    requires TableShape()
    ensures forall col :: 8 <= col < 15 ==> TableAgrees(3, col)
  {
    forall col | 8 <= col < 15 ensures TableAgrees(3, col) {
      if col == 8 {} else if col == 9 {} else if col == 10 {} else if col == 11 {} else if col == 12 {} else if col == 13 {} else if col == 14 {}
    }
  }

  lemma TableRow4a()
    requires TableShape()
    ensures forall col :: 0 <= col < 8 ==> TableAgrees(4, col)
  {
    forall col | 0 <= col < 8 ensures TableAgrees(4, col) {
      if col == 0 {} else if col == 1 {} else if col == 2 {} else if col == 3 {} else if col == 4 {} else if col == 5 {} else if col == 6 {} else if col == 7 {}
    }
  }

  lemma TableRow4b()
    requires TableShape()
    ensures forall col :: 8 <= col < 15 ==> TableAgrees(4, col)
  {
    forall col | 8 <= col < 15 ensures TableAgrees(4, col) {
      if col == 8 {} else if col == 9 {} else if col == 10 {} else if col == 11 {} else if col == 12 {} else if col == 13 {} else if col == 14 {}
    }
  }

  lemma TableRow5a()
    requires TableShape()
    ensures forall col :: 0 <= col < 8 ==> TableAgrees(5, col)
  {
    forall col | 0 <= col < 8 ensures TableAgrees(5, col) {
      if col == 0 {} else if col == 1 {} else if col == 2 {} else if col == 3 {} else if col == 4 {} else if col == 5 {} else if col == 6 {} else if col == 7 {}
    }
  }

  lemma TableRow5b()
    requires TableShape()
    ensures forall col :: 8 <= col < 15 ==> TableAgrees(5, col)
  {
    forall col | 8 <= col < 15 ensures TableAgrees(5, col) {
      if col == 8 {} else if col == 9 {} else if col == 10 {} else if col == 11 {} else if col == 12 {} else if col == 13 {} else if col == 14 {}
    }
  }

  lemma TableRow6a()
    requires TableShape()
    ensures forall col :: 0 <= col < 8 ==> TableAgrees(6, col)
  {
    forall col | 0 <= col < 8 ensures TableAgrees(6, col) {
      if col == 0 {} else if col == 1 {} else if col == 2 {} else if col == 3 {} else if col == 4 {} else if col == 5 {} else if col == 6 {} else if col == 7 {}
    }
  }

  lemma TableRow6b()
    requires TableShape()
    ensures forall col :: 8 <= col < 15 ==> TableAgrees(6, col)
  {
    forall col | 8 <= col < 15 ensures TableAgrees(6, col) {
      if col == 8 {} else if col == 9 {} else if col == 10 {} else if col == 11 {} else if col == 12 {} else if col == 13 {} else if col == 14 {}
    }
  }

  lemma TableRow7a()
    requires TableShape()
    ensures forall col :: 0 <= col < 8 ==> TableAgrees(7, col)
  {
    forall col | 0 <= col < 8 ensures TableAgrees(7, col) {
      if col == 0 {} else if col == 1 {} else if col == 2 {} else if col == 3 {} else if col == 4 {} else if col == 5 {} else if col == 6 {} else if col == 7 {}
    }
  }

  lemma TableRow7b()
    requires TableShape()
    ensures forall col :: 8 <= col < 15 ==> TableAgrees(7, col)
  {
    forall col | 8 <= col < 15 ensures TableAgrees(7, col) {
      if col == 8 {} else if col == 9 {} else if col == 10 {} else if col == 11 {} else if col == 12 {} else if col == 13 {} else if col == 14 {}
    }
  }

  lemma TableRow8a()
    requires TableShape()
    ensures forall col :: 0 <= col < 8 ==> TableAgrees(8, col)
  {
    forall col | 0 <= col < 8 ensures TableAgrees(8, col) {
      if col == 0 {} else if col == 1 {} else if col == 2 {} else if col == 3 {} else if col == 4 {} else if col == 5 {} else if col == 6 {} else if col == 7 {}
    }
  }

  lemma TableRow8b()
    requires TableShape()
    ensures forall col :: 8 <= col < 15 ==> TableAgrees(8, col)
  {
    forall col | 8 <= col < 15 ensures TableAgrees(8, col) {
      if col == 8 {} else if col == 9 {} else if col == 10 {} else if col == 11 {} else if col == 12 {} else if col == 13 {} else if col == 14 {}
    }
  }

  lemma TableRow9a()
    requires TableShape()
    ensures forall col :: 0 <= col < 8 ==> TableAgrees(9, col)
  {
    forall col | 0 <= col < 8 ensures TableAgrees(9, col) {
      if col == 0 {} else if col == 1 {} else if col == 2 {} else if col == 3 {} else if col == 4 {} else if col == 5 {} else if col == 6 {} else if col == 7 {}
    }
  }

  lemma TableRow9b()
    requires TableShape()
    ensures forall col :: 8 <= col < 15 ==> TableAgrees(9, col)
  {
    forall col | 8 <= col < 15 ensures TableAgrees(9, col) {
      if col == 8 {} else if col == 9 {} else if col == 10 {} else if col == 11 {} else if col == 12 {} else if col == 13 {} else if col == 14 {}
    }
  }

  lemma TableRow10a()
    requires TableShape()
    ensures forall col :: 0 <= col < 8 ==> TableAgrees(10, col)
  {
    forall col | 0 <= col < 8 ensures TableAgrees(10, col) {
      if col == 0 {} else if col == 1 {} else if col == 2 {} else if col == 3 {} else if col == 4 {} else if col == 5 {} else if col == 6 {} else if col == 7 {}
    }
  }

  lemma TableRow10b()
    requires TableShape()
    ensures forall col :: 8 <= col < 15 ==> TableAgrees(10, col)
  {
    forall col | 8 <= col < 15 ensures TableAgrees(10, col) {
      if col == 8 {} else if col == 9 {} else if col == 10 {} else if col == 11 {} else if col == 12 {} else if col == 13 {} else if col == 14 {}
    }
  }

  lemma TableRow11a()
    requires TableShape()
    ensures forall col :: 0 <= col < 8 ==> TableAgrees(11, col)
  {
    forall col | 0 <= col < 8 ensures TableAgrees(11, col) {
      if col == 0 {} else if col == 1 {} else if col == 2 {} else if col == 3 {} else if col == 4 {} else if col == 5 {} else if col == 6 {} else if col == 7 {}
    }
  }

  lemma TableRow11b()
    requires TableShape()
    ensures forall col :: 8 <= col < 15 ==> TableAgrees(11, col)
  {
    forall col | 8 <= col < 15 ensures TableAgrees(11, col) {
      if col == 8 {} else if col == 9 {} else if col == 10 {} else if col == 11 {} else if col == 12 {} else if col == 13 {} else if col == 14 {}
    }
  }

  lemma TableRow12a()
    requires TableShape()
    ensures forall col :: 0 <= col < 8 ==> TableAgrees(12, col)
  {
    forall col | 0 <= col < 8 ensures TableAgrees(12, col) {
      if col == 0 {} else if col == 1 {} else if col == 2 {} else if col == 3 {} else if col == 4 {} else if col == 5 {} else if col == 6 {} else if col == 7 {}
    }
  }

  lemma TableRow12b()
    requires TableShape()
    ensures forall col :: 8 <= col < 15 ==> TableAgrees(12, col)
  {
    forall col | 8 <= col < 15 ensures TableAgrees(12, col) {
      if col == 8 {} else if col == 9 {} else if col == 10 {} else if col == 11 {} else if col == 12 {} else if col == 13 {} else if col == 14 {}
    }
  }

  lemma TableRow13a()
    requires TableShape()
    ensures forall col :: 0 <= col < 8 ==> TableAgrees(13, col)
  {
    forall col | 0 <= col < 8 ensures TableAgrees(13, col) {
      if col == 0 {} else if col == 1 {} else if col == 2 {} else if col == 3 {} else if col == 4 {} else if col == 5 {} else if col == 6 {} else if col == 7 {}
    }
  }

  lemma TableRow13b()
    requires TableShape()
    ensures forall col :: 8 <= col < 15 ==> TableAgrees(13, col)
  {
    forall col | 8 <= col < 15 ensures TableAgrees(13, col) {
      if col == 8 {} else if col == 9 {} else if col == 10 {} else if col == 11 {} else if col == 12 {} else if col == 13 {} else if col == 14 {}
    }
  }

  lemma TableRow14a()
    requires TableShape()
    ensures forall col :: 0 <= col < 8 ==> TableAgrees(14, col)
  {
    forall col | 0 <= col < 8 ensures TableAgrees(14, col) {
      if col == 0 {} else if col == 1 {} else if col == 2 {} else if col == 3 {} else if col == 4 {} else if col == 5 {} else if col == 6 {} else if col == 7 {}
    }
  }

  lemma TableRow14b()
    requires TableShape()
    ensures forall col :: 8 <= col < 15 ==> TableAgrees(14, col)
  {
    forall col | 8 <= col < 15 ensures TableAgrees(14, col) {
      if col == 8 {} else if col == 9 {} else if col == 10 {} else if col == 11 {} else if col == 12 {} else if col == 13 {} else if col == 14 {}
    }
  }

  lemma TableLengths()
    ensures TableShape()
  {
  }

  lemma TableAt(row: int, col: int)
    requires 0 <= row < 15 && 0 <= col < 15
    ensures TableShape()
    ensures TableAgrees(row, col)
  {
    TableLengths();
    if row == 0 { TableRow0a(); TableRow0b(); } else if row == 1 { TableRow1a(); TableRow1b(); } else if row == 2 { TableRow2a(); TableRow2b(); } else if row == 3 { TableRow3a(); TableRow3b(); } else if row == 4 { TableRow4a(); TableRow4b(); } else if row == 5 { TableRow5a(); TableRow5b(); } else if row == 6 { TableRow6a(); TableRow6b(); } else if row == 7 { TableRow7a(); TableRow7b(); } else if row == 8 { TableRow8a(); TableRow8b(); } else if row == 9 { TableRow9a(); TableRow9b(); } else if row == 10 { TableRow10a(); TableRow10b(); } else if row == 11 { TableRow11a(); TableRow11b(); } else if row == 12 { TableRow12a(); TableRow12b(); } else if row == 13 { TableRow13a(); TableRow13b(); } else if row == 14 { TableRow14a(); TableRow14b(); }
  }

  /** source - target + 119 lies in row DRow + 7 and column DFile + 7. */
  lemma TableIndex(src: Square, dst: Square)
    ensures -7 <= DRow(src, dst) <= 7 && -7 <= DFile(src, dst) <= 7
    ensures (src - dst + 119) / 16 == DRow(src, dst) + 7
    ensures (src - dst + 119) % 16 == DFile(src, dst) + 7
  {
    var dr, df := DRow(src, dst), DFile(src, dst);
    assert src == 16 * Row(src) + File(src) && dst == 16 * Row(dst) + File(dst);
    SplitBy16(src - dst + 119, dr + 7, df + 7);
  }

  /** For any two squares the entry of both tables in row DRow + 7 and
      column DFile + 7 is in range and says what the geometry of the pair
      says. */
  lemma TableGeometry(src: Square, dst: Square)
    ensures var row, col := DRow(src, dst) + 7, DFile(src, dst) + 7;
      0 <= row < |AttackRows| == |RayRows| && 0 <= col < |AttackRows[row]| && col < |RayRows[row]| &&
      AttackRows[row][col] == MaskOf(DRow(src, dst), DFile(src, dst)) &&
      RayRows[row][col] == if Aligned(src, dst) then Step(src, dst) else 0
  {
    TableIndex(src, dst);
    TableAt(DRow(src, dst) + 7, DFile(src, dst) + 7);
  }

  /** `1 << SHIFTS[kind]` with SHIFTS p 0, n 1, b 2, r 3, q 4, k 5. */
  function KindBit(k: Kind): int
  {
    match k
    case Pawn => 1
    case Knight => 2
    case Bishop => 4
    case Rook => 8
    case Queen => 16
    case King => 32
  }

  /** `a & (1 << SHIFTS[kind])` is non-zero (a is never negative here). */
  predicate BitSet(a: int, k: Kind)
  {
    (a / KindBit(k)) % 2 == 1
  }

  /** The geometry a piece kind attacks along, colour aside: a pawn and a
      king one square away (a pawn only diagonally), a knight by its jump,
      bishops on diagonals, rooks on lines and queens on both. */
  predicate KindShape(k: Kind, dr: int, df: int)
  {
    match k
    case Pawn => AdjacentShape(dr, df) && DiagonalShape(dr, df)
    case Knight => KnightShape(dr, df)
    case Bishop => DiagonalShape(dr, df)
    case Rook => LineShape(dr, df)
    case Queen => DiagonalShape(dr, df) || LineShape(dr, df)
    case King => AdjacentShape(dr, df)
  }

  /** The kinds whose bit is set in each entry the geometry predicts. */
  lemma KindBits(m: int, k: Kind)
    requires m == 0 || m == 2 || m == 20 || m == 24 || m == 53 || m == 56
    ensures BitSet(m, k) <==> match k
      case Pawn => m == 53
      case Knight => m == 2
      case Bishop => m == 20 || m == 53
      case Rook => m == 24 || m == 56
      case Queen => m == 20 || m == 24 || m == 53 || m == 56
      case King => m == 53 || m == 56
  {
  }

  /** The bit of a kind is set in a predicted entry exactly when the kind
      attacks along that geometry. */
  lemma MaskBits(dr: int, df: int, k: Kind)
    ensures BitSet(MaskOf(dr, df), k) <==> KindShape(k, dr, df)
  {
    var m := MaskOf(dr, df);
    if KnightShape(dr, df) {
      assert m == 2 && !DiagonalShape(dr, df) && !LineShape(dr, df) && !AdjacentShape(dr, df);
      KindBits(m, k);
    } else if DiagonalShape(dr, df) {
      assert !LineShape(dr, df);
      if AdjacentShape(dr, df) { assert m == 53; } else { assert m == 20; }
      KindBits(m, k);
    } else if LineShape(dr, df) {
      if AdjacentShape(dr, df) { assert m == 56; } else { assert m == 24; }
      KindBits(m, k);
    } else {
      assert m == 0 && !AdjacentShape(dr, df);
      KindBits(m, k);
    }
  }

  // -----------------------------------------------------------------------
  // The attackers of a square

  /** Every square strictly between a and b on their common line is empty. */
  predicate PathClear(bd: Board, a: Square, b: Square)
    requires Aligned(a, b)
  {
    forall k :: 0 < k < Dist(a, b) ==> bd[RayCell(a, b, k)].None?
  }

  /** The piece p standing on src attacks dst by the rules of chess: pawns
      diagonally forward (towards rank 8 for white), knights by their jump,
      kings next door, sliders along their lines up to the first piece. */
  predicate Reaches(bd: Board, p: Piece, src: Square, dst: Square)
  {
    match p.kind
    case Pawn => Abs(DFile(src, dst)) == 1 && DRow(src, dst) == (if p.color == White then 1 else -1)
    case Knight => KnightJump(src, dst)
    case Bishop => OnDiagonal(src, dst) && PathClear(bd, src, dst)
    case Rook => OnLine(src, dst) && PathClear(bd, src, dst)
    case Queen => Aligned(src, dst) && PathClear(bd, src, dst)
    case King => Adjacent(src, dst)
  }

  /** The blocker walk of get_attackers: j runs over the cells k = 1, 2, ...
      steps from src towards dst and stops on dst; the walk is blocked when it
      meets an occupied cell first. */
  function WalkBlocked(bd: Board, src: Square, dst: Square, k: int): bool
    requires Aligned(src, dst) && 1 <= k <= Dist(src, dst)
    decreases Dist(src, dst) - k
  {
    RayCellFacts(src, dst, k);
    var j := RayCell(src, dst, k);
    if j == dst then false
    else if bd[j].Some? then true
    else WalkBlocked(bd, src, dst, k + 1)
  }

  /** A cell of the walk short of the target: blocked there or further on,
      and the next cell is one step on. */
  lemma WalkBlockedOn(bd: Board, src: Square, dst: Square, k: int)
    requires Aligned(src, dst) && 1 <= k <= Dist(src, dst) && RayCell(src, dst, k) != dst
    ensures k < Dist(src, dst)
    ensures WalkBlocked(bd, src, dst, k) == (bd[RayCell(src, dst, k)].Some? || WalkBlocked(bd, src, dst, k + 1))
    ensures RayCell(src, dst, k + 1) == RayCell(src, dst, k) + Step(src, dst)
  {
    RayCellFacts(src, dst, k);
    RayCellStep(src, dst, k);
  }

  /** The walk starts one step from the source. */
  lemma WalkStart(src: Square, dst: Square)
    requires Aligned(src, dst)
    ensures 1 <= Dist(src, dst) && RayCell(src, dst, 1) == src + Step(src, dst)
  {
    AlignedDistinct(src, dst);
    RayCellFacts(src, dst, 0);
    RayCellStep(src, dst, 0);
  }

  /** The walk that has reached the target is not blocked. */
  lemma WalkBlockedEnd(bd: Board, src: Square, dst: Square, k: int)
    requires Aligned(src, dst) && 1 <= k <= Dist(src, dst) && RayCell(src, dst, k) == dst
    ensures !WalkBlocked(bd, src, dst, k)
  {
    RayCellFacts(src, dst, k);
  }

  /** The walk after the table test, given the step RAYS[index]: a zero step
      (a knight) leaves j on src, which holds the attacker, so the walk is
      blocked at once; any other step walks the line to dst. */
  predicate WalkClear(bd: Board, src: Square, dst: Square, offset: int)
    requires offset == if Aligned(src, dst) then Step(src, dst) else 0
  {
    if offset == 0 then false else !WalkBlocked(bd, src, dst, 1)
  }

  /** `ATTACKS[source - target + 119]`: the kinds whose geometry joins the
      two squares. Entry source - target + 119 sits in row DRow + 7 and
      column DFile + 7 (TableIndex). */
  function AttackEntry(src: Square, dst: Square): (a: int)
    ensures a == MaskOf(DRow(src, dst), DFile(src, dst))
  {
    TableGeometry(src, dst);
    AttackRows[DRow(src, dst) + 7][DFile(src, dst) + 7]
  }

  /** `RAYS[source - target + 119]`: the step towards the target along a
      shared line or diagonal, 0 when there is none; read at the same row
      and column as AttackEntry. */
  function RayEntry(src: Square, dst: Square): (r: int)
    ensures r == if Aligned(src, dst) then Step(src, dst) else 0
  {
    TableGeometry(src, dst);
    RayRows[DRow(src, dst) + 7][DFile(src, dst) + 7]
  }

  /** How many times get_attackers(color, dst) yields src: the piece must be
      of that colour with its kind's bit set in ATTACKS; a pawn is yielded
      once when the sign of the difference fits its colour; a knight or a
      king is yielded once, and then once more, like any slider, when the
      walk along RAYS is not blocked. */
  function Yields(bd: Board, color: Color, dst: Square, src: Square): (n: nat)
    ensures n <= 2
  {
    match bd[src]
    case None => 0
    case Some(p) =>
      if p.color != color || !BitSet(AttackEntry(src, dst), p.kind) then 0
      else if p.kind == Pawn then
        var d := src - dst;
        if (d > 0 && p.color == White) || (d <= 0 && p.color == Black) then 1 else 0
      else
        (if p.kind == Knight || p.kind == King then 1 else 0) +
        (if WalkClear(bd, src, dst, RayEntry(src, dst)) then 1 else 0)
  }

  /** src repeated as often as it is yielded. */
  function YieldedCopies(bd: Board, color: Color, dst: Square, src: Square): seq<Square>
  {
    seq(Yields(bd, color, dst, src), _ => src)
  }

  /** What get_attackers yields from the first n squares of Square.get_all(). */
  function AttackersUpTo(bd: Board, color: Color, dst: Square, n: int): seq<Square>
    requires 0 <= n <= 64
  {
    if n == 0 then []
    else AttackersUpTo(bd, color, dst, n - 1) + YieldedCopies(bd, color, dst, SquareAt(n - 1))
  }

  /** get_attackers(color, dst), as the sequence it yields. */
  function Attackers(bd: Board, color: Color, dst: Square): seq<Square>
  {
    AttackersUpTo(bd, color, dst, 64)
  }

  /** is_attacked(color, dst): the generator yields at least once. */
  predicate IsAttacked(bd: Board, color: Color, dst: Square)
  {
    |Attackers(bd, color, dst)| > 0
  }

  /** The walk from step k on is unblocked exactly when the cells from step k
      up to dst are empty. */
  lemma {:induction false} WalkBlockedSpec(bd: Board, src: Square, dst: Square, k: int)
    requires Aligned(src, dst) && 1 <= k <= Dist(src, dst)
    ensures !WalkBlocked(bd, src, dst, k) <==>
      forall m :: k <= m < Dist(src, dst) ==> bd[RayCell(src, dst, m)].None?
    decreases Dist(src, dst) - k
  {
    RayCellFacts(src, dst, k);
    var j := RayCell(src, dst, k);
    if k < Dist(src, dst) {
      WalkBlockedSpec(bd, src, dst, k + 1);
      assert WalkBlocked(bd, src, dst, k) == (bd[j].Some? || WalkBlocked(bd, src, dst, k + 1));
      if !WalkBlocked(bd, src, dst, k) {
        forall m | k <= m < Dist(src, dst) ensures bd[RayCell(src, dst, m)].None? {
          if m == k { assert RayCell(src, dst, m) == j; }
        }
      } else if bd[j].Some? {
        assert !bd[RayCell(src, dst, k)].None?;
      } else {
        assert exists m :: k + 1 <= m < Dist(src, dst) && !bd[RayCell(src, dst, m)].None?;
      }
    } else {
      assert j == dst;
    }
  }

  /** A step towards another square is never zero. */
  lemma StepNonZero(src: Square, dst: Square)
    requires Aligned(src, dst)
    ensures Step(src, dst) != 0
  {
  }

  /** What the table test, the pawn sign test and the walk amount to: src
      is yielded exactly when it holds a piece of that colour attacking dst
      by the rules of chess, and twice exactly when that piece is a king. */
  lemma YieldsSpec(bd: Board, color: Color, dst: Square, src: Square)
    ensures Yields(bd, color, dst, src) > 0 <==>
      bd[src].Some? && bd[src].value.color == color && Reaches(bd, bd[src].value, src, dst)
    ensures Yields(bd, color, dst, src) == 2 <==>
      bd[src] == Some(Piece(color, King)) && Adjacent(src, dst)
  {
    if bd[src].Some? && bd[src].value.color == color {
      var p := bd[src].value;
      var dr, df := DRow(src, dst), DFile(src, dst);
      MaskBits(dr, df, p.kind);
      assert BitSet(AttackEntry(src, dst), p.kind) <==> KindShape(p.kind, dr, df);
      if Aligned(src, dst) {
        StepNonZero(src, dst);
        WalkBlockedSpec(bd, src, dst, 1);
        assert WalkClear(bd, src, dst, RayEntry(src, dst)) <==> PathClear(bd, src, dst);
      }
      match p.kind
      case Pawn => DifferenceSign(src, dst);
      case Knight => {}
      case Bishop => {}
      case Rook => {}
      case Queen => {}
      case King => {}
    }
  }

  /** The sign of source - target follows the row difference when the two
      squares are on different rows. */
  lemma DifferenceSign(src: Square, dst: Square)
    ensures DRow(src, dst) > 0 ==> src - dst > 0
    ensures DRow(src, dst) < 0 ==> src - dst < 0
  {
    assert src == 16 * Row(src) + File(src) && dst == 16 * Row(dst) + File(dst);
  }

  lemma {:induction false} CopiesCount(n: nat, s: Square, x: Square)
    ensures multiset(seq(n, _ => s))[x] == if x == s then n else 0
  {
    if n > 0 {
      CopiesCount(n - 1, s, x);
      assert seq(n, _ => s) == seq(n - 1, _ => s) + [s];
    }
  }

  /** Appending n copies of s adds n to the count of s and nothing else. */
  lemma AppendCopies(prev: seq<Square>, n: nat, s: Square, x: Square)
    ensures multiset(prev + seq(n, _ => s))[x] == multiset(prev)[x] + if x == s then n else 0
  {
    assert multiset(prev + seq(n, _ => s)) == multiset(prev) + multiset(seq(n, _ => s));
    CopiesCount(n, s, x);
  }

  /** The first n squares contribute each square as often as it is yielded:
      get_attackers visits every square once. */
  lemma {:induction false} AttackersUpToCount(bd: Board, color: Color, dst: Square, n: int, x: Square)
    requires 0 <= n <= 64
    ensures multiset(AttackersUpTo(bd, color, dst, n))[x] ==
      if SquareIndex(x) < n then Yields(bd, color, dst, x) else 0
  {
    if n > 0 {
      AttackersUpToCount(bd, color, dst, n - 1, x);
      var s := SquareAt(n - 1);
      var prev := AttackersUpTo(bd, color, dst, n - 1);
      assert AttackersUpTo(bd, color, dst, n) == prev + seq(Yields(bd, color, dst, s), _ => s);
      AppendCopies(prev, Yields(bd, color, dst, s), s, x);
      if x == s {
        IndexOfSquareAt(n - 1);
      } else {
        SquareAtInjective(SquareIndex(x), n - 1);
      }
    }
  }

  /** get_attackers yields each square as often as Yields says, so exactly
      the squares holding a piece of that colour that attacks dst, a king
      twice. */
  lemma AttackersSpec(bd: Board, color: Color, dst: Square, x: Square)
    ensures multiset(Attackers(bd, color, dst))[x] == Yields(bd, color, dst, x)
    ensures x in Attackers(bd, color, dst) <==>
      bd[x].Some? && bd[x].value.color == color && Reaches(bd, bd[x].value, x, dst)
  {
    AttackersUpToCount(bd, color, dst, 64, x);
    YieldsSpec(bd, color, dst, x);
  }

  /** is_attacked holds exactly when some piece of that colour attacks the
      square by the rules of chess. */
  lemma IsAttackedSpec(bd: Board, color: Color, dst: Square)
    ensures IsAttacked(bd, color, dst) <==>
      exists src: Square :: bd[src].Some? && bd[src].value.color == color && Reaches(bd, bd[src].value, src, dst)
  {
    var a := Attackers(bd, color, dst);
    if |a| > 0 {
      AttackersSpec(bd, color, dst, a[0]);
    }
    if exists src: Square :: bd[src].Some? && bd[src].value.color == color && Reaches(bd, bd[src].value, src, dst) {
      var src: Square :| bd[src].Some? && bd[src].value.color == color && Reaches(bd, bd[src].value, src, dst);
      AttackersSpec(bd, color, dst, src);
    }
  }

  /** is_king_attacked(color): the first king of that colour is attacked by
      the other colour; False when that colour has no king. */
  predicate IsKingAttacked(bd: Board, color: Color)
  {
    match GetKing(bd, color)
    case Some(sq) => IsAttacked(bd, Opposite(color), sq)
    case None => false
  }

  lemma KingAttackedSpec(bd: Board, color: Color)
    ensures (forall sq: Square :: !IsKingOf(bd, sq, color)) ==> !IsKingAttacked(bd, color)
    ensures IsKingAttacked(bd, color) <==>
      exists sq: Square, src: Square :: GetKing(bd, color) == Some(sq) && bd[src].Some? &&
        bd[src].value.color == Opposite(color) && Reaches(bd, bd[src].value, src, sq)
  {
    var k := GetKing(bd, color);
    if k.Some? {
      IsAttackedSpec(bd, Opposite(color), k.value);
    }
  }
}
