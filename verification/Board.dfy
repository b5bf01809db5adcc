/** The board: a value (Grid) that every theorem speaks about, and the mutable row-major array
    (Board) that holds it. */
module Boards {
  import opened Arith
  import opened Hex

  /** What is on an intersection: EMPTY, a player's colour (1 to 6), or OFF_BOARD outside the hexagon. */
  type Color = int

  const OFF_BOARD: Color := -1
  const EMPTY: Color := 0

  /** The colours of the in-board intersections. */
  datatype Grid = Grid(side: int, cell: map<Position, Color>) {

    ghost predicate Valid() {
      && side >= 1
      && forall p :: p in cell <==> In(side, p)
    }

    predicate Has(p: Position, c: Color) {
      p in cell && cell[p] == c
    }

    function Put(p: Position, c: Color): (g: Grid)
    {
      Grid(side, cell[p := c])
    }

    /** The intersections that carry colour c. */
    function Stones(c: Color): set<Position> {
      set p | p in cell && cell[p] == c
    }

    /** The intersections that carry any stone. */
    function Occupied(): set<Position> {
      set p | p in cell && cell[p] != EMPTY
    }
  }

  function EmptyGrid(side: int): (g: Grid)
    requires side >= 1
    ensures g.Valid() && forall p :: In(side, p) ==> g.Has(p, EMPTY)
  {
    var cells := map p | p in Positions(side) :: EMPTY;
    assert forall p :: p in cells <==> In(side, p) by {
      forall p ensures p in cells <==> In(side, p) {
        PositionsAreIn(side, p);
      }
    }
    Grid(side, cells)
  }

  /** What slot i of the row-major array holds for a given grid. */
  ghost function SlotColor(g: Grid, i: int): Color
    requires g.side >= 1
  {
    var p := SlotPosition(g.side, i);
    if p in g.cell then g.cell[p] else OFF_BOARD
  }

  /** The row-major array of a grid: in-board slots hold the cell, all others OFF_BOARD. */
  ghost predicate Holds(cells: seq<Color>, g: Grid) {
    && g.side >= 1
    && |cells| == Span(g.side) * Span(g.side)
    && forall i :: 0 <= i < |cells| ==> cells[i] == SlotColor(g, i)
  }

  /** A grid determines its array, and an array its grid. */
  lemma HoldsIsOneToOne(a: seq<Color>, b: seq<Color>, g: Grid, h: Grid)
    requires g.Valid() && h.Valid() && g.side == h.side
    requires Holds(a, g) && Holds(b, h)
    ensures a == b <==> g == h
  {
    if a == b {
      forall p | In(g.side, p)
        ensures g.cell[p] == h.cell[p]
      {
        IdxBijective(g.side, p);
        assert a[Idx(g.side, p)] == SlotColor(g, Idx(g.side, p));
        assert b[Idx(g.side, p)] == SlotColor(h, Idx(g.side, p));
      }
      assert g.cell == h.cell;
    }
  }

  /** Writing one in-board slot is updating one cell of the grid. */
  lemma HoldsPut(a: seq<Color>, g: Grid, p: Position, c: Color)
    requires g.Valid() && Holds(a, g) && In(g.side, p)
    ensures g.Put(p, c).Valid()
    ensures 0 <= Idx(g.side, p) < |a| && Holds(a[Idx(g.side, p) := c], g.Put(p, c))
  {
    IdxBijective(g.side, p);
    var b := a[Idx(g.side, p) := c];
    forall i | 0 <= i < |b|
      ensures b[i] == SlotColor(g.Put(p, c), i)
    {
      SlotBijective(g.side, i);
      assert a[i] == SlotColor(g, i);
    }
  }

  class Board {
    const side: int
    const cells: array<Color>
    ghost var view: Grid

    ghost predicate Valid()
      reads this, cells
    {
      view.Valid() && view.side == side && Holds(cells[..], view)
    }

    constructor (side: int)
      requires side >= 1
      ensures Valid() && fresh(cells) && view == EmptyGrid(side)
    {
      this.side := side;
      var span := 2 * side - 1;
      MulBounds(0, 0, span);
      cells := new Color[span * span](_ => EMPTY);
      view := EmptyGrid(side);
      new;
      for q := -(side - 1) to side
        invariant view == EmptyGrid(side)
        invariant forall i :: 0 <= i < cells.Length ==>
          cells[i] == if SlotPosition(side, i).q < q then SlotColor(view, i) else EMPTY
      {
        MarkRow(q);
      }
      forall i | 0 <= i < cells.Length
        ensures cells[i] == SlotColor(view, i)
      {
        SlotBijective(side, i);
      }
    }

    /** One pass of the inner loop of the constructor: marks the slots of row q that lie outside the hexagon. */
    method MarkRow(q: int)
      requires side >= 1 && view == EmptyGrid(side) && -side < q < side
      requires cells.Length == Span(side) * Span(side)
      requires forall i :: 0 <= i < cells.Length ==>
        cells[i] == if SlotPosition(side, i).q < q then SlotColor(view, i) else EMPTY
      modifies cells
      ensures forall i :: 0 <= i < cells.Length ==>
        cells[i] == if SlotPosition(side, i).q < q + 1 then SlotColor(view, i) else EMPTY
    {
      hide SlotPosition, Idx;
      forall i | 0 <= i < cells.Length
        ensures InSquare(side, SlotPosition(side, i))
      {
        SlotBijective(side, i);
      }
      for r := -(side - 1) to side
        invariant forall i {:trigger cells[i]} :: 0 <= i < cells.Length ==>
          cells[i] == if SlotPosition(side, i).q < q || (SlotPosition(side, i).q == q && SlotPosition(side, i).r < r)
                      then SlotColor(view, i) else EMPTY
      {
        var p := Position(q, r);
        IdxBijective(side, p);
        forall i | 0 <= i < cells.Length
          ensures SlotPosition(side, i) == p ==> i == Idx(side, p)
        {
          SlotBijective(side, i);
        }
        if !In(side, p) {
          cells[Idx(side, p)] := OFF_BOARD;
        }
      }
    }

    method At(p: Position) returns (c: Color)
      requires Valid() && In(side, p)
      ensures c == view.cell[p]
    {
      IdxBijective(side, p);
      c := cells[Idx(side, p)];
    }

    method Set(p: Position, c: Color)
      requires Valid() && In(side, p)
      modifies this`view, cells
      ensures Valid() && view == old(view).Put(p, c)
    {
      HoldsPut(cells[..], view, p, c);
      cells[Idx(side, p)] := c;
      view := view.Put(p, c);
      assert cells[..] == old(cells[..])[Idx(side, p) := c];
    }

    /** A deep copy: writes to either board are never seen through the other. */
    constructor Clone(other: Board)
      requires other.Valid()
      ensures Valid() && fresh(cells) && view == other.view
    {
      side := other.side;
      var copy := new Color[other.cells.Length](i requires 0 <= i < other.cells.Length reads other.cells => other.cells[i]);
      cells := copy;
      view := other.view;
      new;
      assert cells[..] == other.cells[..];
    }
  }
}
