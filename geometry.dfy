/** Geometry of the 0x88 board: rows and files of squares, the shapes two
    squares can form (diagonal, line, knight jump, neighbours), and the cells
    along the line joining two aligned squares. */
module Geometry {
  import opened ChessTypes

  /** The row of a square: 0 for rank 8 down to 7 for rank 1. */
  function Row(sq: Square): (r: int)
    ensures 0 <= r < 8 && sq == 16 * r + File(sq) && r == 8 - Rank(sq)
  {
    sq / 16
  }

  /** Division by 16 splits a number into its row and column. */
  lemma SplitBy16(i: int, q: int, c: int)
    requires i == 16 * q + c && 0 <= c < 16
    ensures i / 16 == q && i % 16 == c
  {
  }

  /** The square in row r and file f. */
  lemma Coordinates(c: int, r: int, f: int)
    requires 0 <= r < 8 && 0 <= f < 8 && c == 16 * r + f
    ensures IsSquare(c) && Row(c) == r && File(c) == f
  {
    SplitBy16(c, r, f);
  }

  function Abs(x: int): nat { if x < 0 then -x else x }

  function Sgn(x: int): int { if x > 0 then 1 else if x < 0 then -1 else 0 }

  function Max(x: int, y: int): int { if x < y then y else x }

  // Shapes of a difference of rows dr and of files df (source minus target).

  predicate DiagonalShape(dr: int, df: int) { dr != 0 && Abs(dr) == Abs(df) }

  predicate LineShape(dr: int, df: int) { (dr == 0) != (df == 0) }

  predicate KnightShape(dr: int, df: int)
  {
    (Abs(dr) == 1 && Abs(df) == 2) || (Abs(dr) == 2 && Abs(df) == 1)
  }

  predicate AdjacentShape(dr: int, df: int)
  {
    (dr != 0 || df != 0) && Abs(dr) <= 1 && Abs(df) <= 1
  }

  /** The 0x88 step from the source towards the target. */
  function StepOf(dr: int, df: int): int { -(16 * Sgn(dr) + Sgn(df)) }

  // The same shapes for two squares.

  function DRow(a: Square, b: Square): int { Row(a) - Row(b) }

  function DFile(a: Square, b: Square): int { File(a) - File(b) }

  predicate OnDiagonal(a: Square, b: Square) { DiagonalShape(DRow(a, b), DFile(a, b)) }

  predicate OnLine(a: Square, b: Square) { LineShape(DRow(a, b), DFile(a, b)) }

  /** a and b are distinct and share a rank, a file or a diagonal. */
  predicate Aligned(a: Square, b: Square) { OnDiagonal(a, b) || OnLine(a, b) }

  predicate KnightJump(a: Square, b: Square) { KnightShape(DRow(a, b), DFile(a, b)) }

  predicate Adjacent(a: Square, b: Square) { AdjacentShape(DRow(a, b), DFile(a, b)) }

  /** The number of king steps from a to b. */
  function Dist(a: Square, b: Square): nat { Max(Abs(DRow(a, b)), Abs(DFile(a, b))) }

  /** The 0x88 step from a towards b. */
  function Step(a: Square, b: Square): int { StepOf(DRow(a, b), DFile(a, b)) }

  lemma AlignedDistinct(a: Square, b: Square)
    ensures Aligned(a, b) ==> a != b && Dist(a, b) >= 1
  {
  }

  /** x moved k units in the direction of sign s. */
  function Towards(x: int, s: int, k: int): int
  {
    if s > 0 then x + k else if s < 0 then x - k else x
  }

  /** The row of the square k steps from a on the way to b. */
  function RayRow(a: Square, b: Square, k: int): (r: int)
    requires Aligned(a, b) && 0 <= k <= Dist(a, b)
    ensures 0 <= r < 8
  {
    Towards(Row(a), -Sgn(DRow(a, b)), k)
  }

  /** The file of the square k steps from a on the way to b. */
  function RayFile(a: Square, b: Square, k: int): (f: int)
    requires Aligned(a, b) && 0 <= k <= Dist(a, b)
    ensures 0 <= f < 8
  {
    Towards(File(a), -Sgn(DFile(a, b)), k)
  }

  /** The square k steps from a on the way to b along their common line. */
  function RayCell(a: Square, b: Square, k: int): (c: Square)
    requires Aligned(a, b) && 0 <= k <= Dist(a, b)
    ensures Row(c) == RayRow(a, b, k) && File(c) == RayFile(a, b, k)
  {
    Coordinates(16 * RayRow(a, b, k) + RayFile(a, b, k), RayRow(a, b, k), RayFile(a, b, k));
    16 * RayRow(a, b, k) + RayFile(a, b, k)
  }

  /** The walk starts at a, meets b exactly after Dist(a, b) steps, and each
      cell on the way still lies on the line to b, with the same step. */
  lemma RayCellFacts(a: Square, b: Square, k: int)
    requires Aligned(a, b) && 0 <= k <= Dist(a, b)
    ensures k == 0 ==> RayCell(a, b, k) == a
    ensures RayCell(a, b, k) == b <==> k == Dist(a, b)
    ensures k < Dist(a, b) ==> var c := RayCell(a, b, k);
      Aligned(c, b) && Step(c, b) == Step(a, b) && Dist(c, b) == Dist(a, b) - k
  {
    var c := RayCell(a, b, k);
    var dr, df := DRow(a, b), DFile(a, b);
    TowardsMinus(Row(a), Row(b), -Sgn(dr), k, DRow(c, b));
    TowardsMinus(File(a), File(b), -Sgn(df), k, DFile(c, b));
    RemainingShape(dr, df, k, DRow(c, b), DFile(c, b));
    IndexDifference(c, b);
  }

  /** Walking k units from x, seen from y. */
  lemma TowardsMinus(x: int, y: int, s: int, k: int, d: int)
    requires d == Towards(x, s, k) - y
    ensures d == Towards(x - y, s, k)
  {
  }

  /** What is left of a diagonal or line difference after k steps towards
      zero: nothing exactly after all of them, and before that a shorter
      difference of the same shape and step. */
  lemma RemainingShape(dr: int, df: int, k: int, r: int, f: int)
    requires (DiagonalShape(dr, df) || LineShape(dr, df)) && 0 <= k <= Max(Abs(dr), Abs(df))
    requires r == Towards(dr, -Sgn(dr), k) && f == Towards(df, -Sgn(df), k)
    ensures (r == 0 && f == 0) <==> k == Max(Abs(dr), Abs(df))
    ensures k < Max(Abs(dr), Abs(df)) ==>
      (DiagonalShape(r, f) || LineShape(r, f)) && StepOf(r, f) == StepOf(dr, df) &&
      Max(Abs(r), Abs(f)) == Max(Abs(dr), Abs(df)) - k
  {
  }

  /** Walking one step from RayCell k gives RayCell k + 1. */
  lemma RayCellStep(a: Square, b: Square, k: int)
    requires Aligned(a, b) && 0 <= k < Dist(a, b)
    ensures RayCell(a, b, k + 1) == RayCell(a, b, k) + Step(a, b)
  {
    TowardsStep(Row(a), -Sgn(DRow(a, b)), k);
    TowardsStep(File(a), -Sgn(DFile(a, b)), k);
  }

  /** One more unit towards s is one unit further. */
  lemma TowardsStep(x: int, s: int, k: nat)
    ensures Towards(x, s, k + 1) == Towards(x, s, k) + Sgn(s)
  {
  }

  /** k + 1 units from x are k units from the next unit. */
  lemma TowardsShift(x: int, s: int, k: nat)
    requires -1 <= s <= 1
    ensures Towards(x, s, k + 1) == Towards(x + s, s, k)
  {
  }

  // -----------------------------------------------------------------------
  // Walking in one direction

  /** One of the eight 0x88 steps to a neighbouring square. */
  predicate IsDirection(off: int)
  {
    off == -17 || off == -16 || off == -15 || off == -1 || off == 1 || off == 15 || off == 16 || off == 17
  }

  /** The row change of a direction. */
  function UnitRow(off: int): int { if off >= 15 then 1 else if off <= -15 then -1 else 0 }

  /** The file change of a direction. */
  function UnitFile(off: int): int { off - 16 * UnitRow(off) }

  /** How many more steps fit on the board from cur in direction off. */
  function Room(cur: Square, off: int): nat
  {
    var ur, uf := UnitRow(off), UnitFile(off);
    (if ur > 0 then 7 - Row(cur) else if ur < 0 then Row(cur) else 0) +
    (if uf > 0 then 7 - File(cur) else if uf < 0 then File(cur) else 0)
  }

  /** A step in a direction lands on a square exactly when the row and the
      file it reaches exist, and then it moves the row and the file by one
      unit each and leaves less room. */
  lemma NextSquare(cur: Square, off: int)
    requires IsDirection(off)
    ensures IsSquare(cur + off) <==>
      0 <= Row(cur) + UnitRow(off) < 8 && 0 <= File(cur) + UnitFile(off) < 8
    ensures IsSquare(cur + off) ==>
      Row(cur + off) == Row(cur) + UnitRow(off) && File(cur + off) == File(cur) + UnitFile(off) &&
      Room(cur + off, off) < Room(cur, off)
  {
    var r, f := Row(cur) + UnitRow(off), File(cur) + UnitFile(off);
    assert cur + off == 16 * r + f;
    if 0 <= r < 8 && 0 <= f < 8 {
      Coordinates(cur + off, r, f);
    } else if f == 8 {
      SplitBy16(cur + off, r, 8);
    } else if f == -1 {
      SplitBy16(cur + off, r - 1, 15);
    }
  }

  /** A step that lands on a square moves the row and the file by one unit
      each. */
  lemma Landed(cur: Square, off: int)
    requires IsDirection(off) && IsSquare(cur + off)
    ensures Row(cur + off) == Row(cur) + UnitRow(off) && File(cur + off) == File(cur) + UnitFile(off)
  {
    NextSquare(cur, off);
  }

  /** The unit row and file changes of a step are the signs it was made of. */
  lemma UnitsOfStep(dr: int, df: int)
    requires dr != 0 || df != 0
    ensures IsDirection(StepOf(dr, df))
    ensures UnitRow(StepOf(dr, df)) == -Sgn(dr) && UnitFile(StepOf(dr, df)) == -Sgn(df)
  {
  }

  /** Moving one unit towards zero in each non-zero component keeps a
      diagonal or line shape and its step, and shortens the distance by one,
      until both components reach zero. */
  lemma ShapeShrinks(dr: int, df: int)
    requires DiagonalShape(dr, df) || LineShape(dr, df)
    ensures var dr', df' := dr - Sgn(dr), df - Sgn(df);
      ((dr' == 0 && df' == 0) <==> Max(Abs(dr), Abs(df)) == 1) &&
      ((dr' != 0 || df' != 0) ==>
        (DiagonalShape(dr', df') || LineShape(dr', df')) && Sgn(dr') == Sgn(dr) && Sgn(df') == Sgn(df) &&
        Max(Abs(dr'), Abs(df')) == Max(Abs(dr), Abs(df)) - 1)
  {
  }

  /** The step from cur towards an aligned t lands on the square one row
      and one file closer to t. */
  lemma StepLands(cur: Square, t: Square)
    requires Aligned(cur, t)
    ensures IsDirection(Step(cur, t)) && IsSquare(cur + Step(cur, t))
    ensures Row(cur + Step(cur, t)) == Row(cur) - Sgn(DRow(cur, t))
    ensures File(cur + Step(cur, t)) == File(cur) - Sgn(DFile(cur, t))
  {
    var dr, df := DRow(cur, t), DFile(cur, t);
    var off := Step(cur, t);
    UnitsOfStep(dr, df);
    NextSquare(cur, off);
  }

  /** The square after cur towards t is t itself exactly when t is next
      door. */
  lemma NextIsTarget(cur: Square, t: Square)
    requires Aligned(cur, t)
    ensures IsSquare(cur + Step(cur, t))
    ensures cur + Step(cur, t) == t <==> Dist(cur, t) == 1
  {
    StepOnBoard(cur, t);
    RowAfterStep(cur, cur + Step(cur, t), t);
    FileAfterStep(cur, cur + Step(cur, t), t);
    ShapeShrinks(DRow(cur, t), DFile(cur, t));
    IndexDifference(cur + Step(cur, t), t);
  }

  /** The step from cur towards an aligned t stays on the board. */
  lemma StepOnBoard(cur: Square, t: Square)
    requires Aligned(cur, t)
    ensures IsSquare(cur + Step(cur, t))
  {
    StepLands(cur, t);
  }

  /** Short of t, the square after cur still lies on the line to t, with the
      same step and one step closer. */
  lemma NextOnLine(cur: Square, next: Square, t: Square)
    requires Aligned(cur, t) && Dist(cur, t) > 1 && next == cur + Step(cur, t)
    ensures Aligned(next, t) && Step(next, t) == Step(cur, t) && Dist(next, t) == Dist(cur, t) - 1
  {
    RowAfterStep(cur, next, t);
    FileAfterStep(cur, next, t);
    ShapeShrinks(DRow(cur, t), DFile(cur, t));
  }

  /** The first step from cur towards an aligned t lands on the board,
      and the walk goes on towards t in the same direction
      until it gets there. */
  lemma StepTowards(cur: Square, t: Square)
    requires Aligned(cur, t)
    ensures IsSquare(cur + Step(cur, t))
    ensures cur + Step(cur, t) == t <==> Dist(cur, t) == 1
    ensures cur + Step(cur, t) != t ==>
      Aligned(cur + Step(cur, t), t) && Step(cur + Step(cur, t), t) == Step(cur, t) &&
      Dist(cur + Step(cur, t), t) == Dist(cur, t) - 1
  {
    NextIsTarget(cur, t);
    AlignedDistinct(cur, t);
    if Dist(cur, t) > 1 {
      NextOnLine(cur, cur + Step(cur, t), t);
    } else {
      assert cur + Step(cur, t) == t;
    }
  }

  /** Conversely, a square beyond next = cur + off in direction off is also
      beyond cur in that direction. */
  lemma StepBack(cur: Square, off: int, t: Square)
    requires IsDirection(off) && IsSquare(cur + off)
    requires Aligned(cur + off, t) && Step(cur + off, t) == off
    ensures Aligned(cur, t) && Step(cur, t) == off && Dist(cur, t) == Dist(cur + off, t) + 1
  {
    Landed(cur, off);
    var dr, df := DRow(cur + off, t), DFile(cur + off, t);
    assert DiagonalShape(dr, df) || LineShape(dr, df);
    UnitsOfStep(dr, df);
    assert DRow(cur, t) == dr + Sgn(dr) && DFile(cur, t) == df + Sgn(df);
    ShapeGrows(dr, df);
  }

  /** Moving one unit away from zero in each non-zero component keeps a
      diagonal or line shape and its step, and adds one to the distance. */
  lemma ShapeGrows(dr: int, df: int)
    requires DiagonalShape(dr, df) || LineShape(dr, df)
    ensures var dr', df' := dr + Sgn(dr), df + Sgn(df);
      (DiagonalShape(dr', df') || LineShape(dr', df')) && StepOf(dr', df') == StepOf(dr, df) &&
      Max(Abs(dr'), Abs(df')) == Max(Abs(dr), Abs(df)) + 1
  {
  }

  /** Square j + 1 on the way from cur to t is square j on the way from the
      next square. */
  lemma RayCellShift(cur: Square, next: Square, t: Square, j: int)
    requires Aligned(cur, t) && Dist(cur, t) > 1 && 0 <= j < Dist(cur, t)
    requires next == cur + Step(cur, t)
    ensures Aligned(next, t) && Dist(next, t) == Dist(cur, t) - 1
    ensures RayCell(cur, t, j + 1) == RayCell(next, t, j)
  {
    NextOnLine(cur, next, t);
    RayRowShift(cur, next, t, j);
    RayFileShift(cur, next, t, j);
  }

  /** Neither difference of two aligned squares more than one step apart
      is a single unit. */
  lemma NoUnitComponent(dr: int, df: int)
    requires (DiagonalShape(dr, df) || LineShape(dr, df)) && Max(Abs(dr), Abs(df)) > 1
    ensures Abs(dr) != 1 && Abs(df) != 1
  {
  }

  /** Walking j + 1 units from x towards x - d is walking j units from the
      first unit towards the same place. */
  lemma TowardsAfterStep(x: int, d: int, x': int, d': int, j: nat)
    requires Abs(d) != 1 && x' == x - Sgn(d) && d' == d - Sgn(d)
    ensures Towards(x, -Sgn(d), j + 1) == Towards(x', -Sgn(d'), j)
  {
  }

  /** The row of the square after cur towards t. */
  lemma RowAfterStep(cur: Square, next: Square, t: Square)
    requires Aligned(cur, t) && next == cur + Step(cur, t)
    ensures Row(next) == Row(cur) - Sgn(DRow(cur, t))
  {
    StepLands(cur, t);
  }

    /** The walk from cur towards t passes first through the square one step
      from cur. */
  lemma FirstRayCell(cur: Square, next: Square, t: Square)
    requires Aligned(cur, t) && Dist(cur, t) > 1 && next == cur + Step(cur, t)
    ensures RayCell(cur, t, 1) == next
  {
    RowAfterStep(cur, next, t);
    FileAfterStep(cur, next, t);
    var c := RayCell(cur, t, 1);
    assert c == 16 * Row(c) + File(c) && next == 16 * Row(next) + File(next);
  }

/** The file of the square after cur towards t. */
  lemma FileAfterStep(cur: Square, next: Square, t: Square)
    requires Aligned(cur, t) && next == cur + Step(cur, t)
    ensures File(next) == File(cur) - Sgn(DFile(cur, t))
  {
    StepLands(cur, t);
  }

  lemma RayRowShift(cur: Square, next: Square, t: Square, j: int)
    requires Aligned(cur, t) && Dist(cur, t) > 1 && Aligned(next, t) && 0 <= j < Dist(cur, t) && j <= Dist(next, t)
    requires next == cur + Step(cur, t)
    ensures RayRow(cur, t, j + 1) == RayRow(next, t, j)
  {
    var dr := DRow(cur, t);
    RowAfterStep(cur, next, t);
    NoUnitComponent(dr, DFile(cur, t));
    TowardsAfterStep(Row(cur), dr, Row(next), DRow(next, t), j);
  }

  lemma RayFileShift(cur: Square, next: Square, t: Square, j: int)
    requires Aligned(cur, t) && Dist(cur, t) > 1 && Aligned(next, t) && 0 <= j < Dist(cur, t) && j <= Dist(next, t)
    requires next == cur + Step(cur, t)
    ensures RayFile(cur, t, j + 1) == RayFile(next, t, j)
  {
    var df := DFile(cur, t);
    FileAfterStep(cur, next, t);
    NoUnitComponent(DRow(cur, t), df);
    TowardsAfterStep(File(cur), df, File(next), DFile(next, t), j);
  }

  /** A step in a direction that lands on a square joins the two squares at
      distance one, in that direction. */
  lemma DirectionAligned(cur: Square, off: int)
    requires IsDirection(off) && IsSquare(cur + off)
    ensures Aligned(cur, cur + off) && Step(cur, cur + off) == off && Dist(cur, cur + off) == 1
  {
    NextSquare(cur, off);
  }

  /** The index difference of two squares in terms of their row and file
      differences. */
  lemma IndexDifference(a: Square, t: Square)
    ensures t - a == -(16 * DRow(a, t) + DFile(a, t))
  {
  }
}
