/** The hexagonal board: axial coordinates, the three line axes, the outline test and the
    row-major slot of a position. A board of side N is the set of axial positions (q, r)
    with |q|, |r| and |q + r| all at most N - 1, stored in a square of (2N - 1) * (2N - 1) slots. */
module Hex {
  import opened Arith

  datatype Position = Position(q: int, r: int)

  /** The three line axes. Along the opposite sense of an axis one walks by a negative distance. */
  datatype Axis = East | SouthEast | NorthEast

  const AXES: seq<Axis> := [East, SouthEast, NorthEast]

  function AxisIndex(a: Axis): nat {
    match a
    case East => 0
    case SouthEast => 1
    case NorthEast => 2
  }

  /** The position k unit steps from p along a. */
  function Along(p: Position, a: Axis, k: int): Position {
    match a
    case East => Position(p.q + k, p.r)
    case SouthEast => Position(p.q, p.r + k)
    case NorthEast => Position(p.q + k, p.r - k)
  }

  predicate In(side: int, p: Position) {
    && Abs(p.q) <= side - 1
    && Abs(p.r) <= side - 1
    && Abs(p.q + p.r) <= side - 1
  }

  /** The board is convex along every axis: whatever lies between two cells of the board on a line
      is a cell of the board. */
  lemma BetweenIsIn(side: int, p: Position, a: Axis, k: int, n: int)
    requires In(side, p) && In(side, Along(p, a, n)) && 0 <= k <= n
    ensures In(side, Along(p, a, k))
  {
  }

  // ---- The bounding square and the row-major slots ----

  function Span(side: int): int {
    2 * side - 1
  }

  predicate InSquare(side: int, p: Position) {
    Abs(p.q) <= side - 1 && Abs(p.r) <= side - 1
  }

  function Idx(side: int, p: Position): int {
    (p.r + side - 1) * Span(side) + (p.q + side - 1)
  }

  /** The position stored in slot i, the inverse of Idx on the square. */
  function SlotPosition(side: int, i: int): Position
    requires side >= 1
  {
    Position(i % Span(side) - (side - 1), i / Span(side) - (side - 1))
  }

  /** Idx maps the bounding square one-to-one onto the slots 0 .. Span^2 - 1. */
  lemma IdxBijective(side: int, p: Position)
    requires side >= 1 && InSquare(side, p)
    ensures 0 <= Idx(side, p) < Span(side) * Span(side)
    ensures SlotPosition(side, Idx(side, p)) == p
  {
    MulBounds(p.r + side - 1, p.q + side - 1, Span(side));
    DivModUnique(p.r + side - 1, p.q + side - 1, Span(side));
  }

  lemma SlotBijective(side: int, i: int)
    requires side >= 1 && 0 <= i < Span(side) * Span(side)
    ensures InSquare(side, SlotPosition(side, i))
    ensures Idx(side, SlotPosition(side, i)) == i
  {
    QuotientBounds(i, Span(side));
    QuotientRemainder(i, Span(side));
    var p := SlotPosition(side, i);
    assert p.r + side - 1 == i / Span(side);
    assert p.q + side - 1 == i % Span(side);
  }

  // ---- The set of positions ----

  /** Every in-board position of the rows q < hi, for q starting at -(side - 1). */
  function PositionsBelow(side: int, hi: int): set<Position> {
    set q, r | -side < q < hi && -side < r < side && In(side, Position(q, r)) :: Position(q, r)
  }

  function Positions(side: int): set<Position> {
    PositionsBelow(side, side)
  }

  lemma PositionsAreIn(side: int, p: Position)
    ensures p in Positions(side) <==> In(side, p)
  {
    if In(side, p) {
      assert p == Position(p.q, p.r);
    }
  }

  /** The in-board positions of one row q, from r = lo up to but not including hi. */
  function RowPart(q: int, lo: int, hi: int): set<Position> {
    set r | lo <= r < hi :: Position(q, r)
  }

  lemma {:induction false} RowPartSize(q: int, lo: int, hi: int)
    requires lo <= hi
    ensures |RowPart(q, lo, hi)| == hi - lo
    decreases hi - lo
  {
    if lo < hi {
      RowPartSize(q, lo, hi - 1);
      assert RowPart(q, lo, hi) == RowPart(q, lo, hi - 1) + {Position(q, hi - 1)};
    } else {
      assert RowPart(q, lo, hi) == {};
    }
  }

  function RowLow(side: int, q: int): int {
    if q < 0 then -(side - 1) - q else -(side - 1)
  }

  function RowHigh(side: int, q: int): int {
    if q < 0 then side else side - q
  }

  lemma PositionsBelowStep(side: int, hi: int)
    requires side >= 1 && -(side - 1) < hi <= side
    ensures |PositionsBelow(side, hi)| == |PositionsBelow(side, hi - 1)| + 2 * side - 1 - Abs(hi - 1)
  {
    var q := hi - 1;
    var row := RowPart(q, RowLow(side, q), RowHigh(side, q));
    RowPartSize(q, RowLow(side, q), RowHigh(side, q));
    forall p ensures p in PositionsBelow(side, hi) <==> p in PositionsBelow(side, q) + row {
      assert p == Position(p.q, p.r);
    }
    assert PositionsBelow(side, hi) == PositionsBelow(side, q) + row;
    assert PositionsBelow(side, q) !! row;
  }

  lemma {:induction false} CountPositionsBelow(side: int, hi: int)
    requires side >= 1 && -(side - 1) <= hi <= side
    ensures hi <= 0 ==> 2 * |PositionsBelow(side, hi)| == (hi + side - 1) * (3 * side - 2 + hi)
    ensures hi > 0 ==> 2 * |PositionsBelow(side, hi)| == (side - 1) * (3 * side - 2) + hi * (4 * side - 1 - hi)
    decreases hi + side
  {
    if hi == -(side - 1) {
      assert PositionsBelow(side, hi) == {};
    } else {
      CountPositionsBelow(side, hi - 1);
      PositionsBelowStep(side, hi);
      SumStep(side, hi);
    }
  }

  lemma SumStep(s: int, hi: int)
    ensures (hi + s - 1) * (3 * s - 2 + hi) == (hi + s - 2) * (3 * s - 3 + hi) + 2 * (2 * s - 2 + hi)
    ensures hi * (4 * s - 1 - hi) == (hi - 1) * (4 * s - hi) + 2 * (2 * s - hi)
  {
  }

  /** A hexagon of side N has exactly 3N(N - 1) + 1 intersections. */
  lemma HexagonSize(side: int)
    requires side >= 1
    ensures |Positions(side)| == 3 * side * (side - 1) + 1
  {
    CountPositionsBelow(side, side);
  }
}
