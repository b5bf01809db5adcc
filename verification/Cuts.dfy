/** What captures do to another colour's runs of four: some lose a stone, and some runs of five, cut at one end, become runs
    of four. The count after a move is known from the captures alone. */
module Cuts {
  import opened Hex
  import opened Boards
  import opened Captures
  import opened Runs
  import opened Engine
  import opened Play

  // ---- Which stones a move removes ----

  /** One of the move's captures takes the stone of c on p. */
  ghost predicate Lifts(g: Grid, m: Move, c: Color, p: Position) {
    exists k :: k in CapturesBy(g, m) && k.victim == c && (k.first == p || k.second == p)
  }

  /** A stone of another colour that a move removes is one of its victims. */
  lemma GoneIsLifted(g: Grid, m: Move, c: Color, p: Position)
    requires g.Valid() && g.Has(m.pos, EMPTY) && c != EMPTY && c != m.player
    requires g.Has(p, c) && !GridAfter(g, m).Has(p, c)
    ensures Lifts(g, m, c, p)
  {
    var placed := g.Put(m.pos, m.player);
    var cs := CapturesOf(placed, m.pos, m.player);
    assert placed.Has(p, c);
    if forall i :: 0 <= i < |cs| ==> p != cs[i].first && p != cs[i].second {
      LiftElsewhere(placed, cs, p);
      assert false;
    }
    var i :| 0 <= i < |cs| && (p == cs[i].first || p == cs[i].second);
    CaptureTakesOpponents(placed, m.pos, m.player, cs[i]);
    assert cs[i] in CapturesBy(g, m);
  }

  lemma {:induction false} LiftedIsEmpty(g: Grid, cs: seq<Capture>, c: Capture)
    requires c in cs
    ensures Lift(g, cs).Has(c.first, EMPTY) && Lift(g, cs).Has(c.second, EMPTY)
  {
    var last := cs[|cs| - 1];
    if c != last {
      assert c in cs[..|cs| - 1];
      LiftedIsEmpty(g, cs[..|cs| - 1], c);
    }
  }

  /** The stones of another colour that a move leaves are those that none of its captures takes. */
  lemma StaysIff(g: Grid, m: Move, c: Color, p: Position)
    requires g.Valid() && g.Has(m.pos, EMPTY) && c != EMPTY && c != m.player
    ensures GridAfter(g, m).Has(p, c) <==> g.Has(p, c) && !Lifts(g, m, c, p)
  {
    GridAfterValid(g, m);
    if g.Has(p, c) && !GridAfter(g, m).Has(p, c) {
      GoneIsLifted(g, m, c, p);
    }
    if k :| k in CapturesBy(g, m) && k.victim == c && (k.first == p || k.second == p) {
      LiftedIsEmpty(g.Put(m.pos, m.player), CapturesBy(g, m), k);
    }
  }

  // ---- Runs of four when stones only disappear ----

  function Cell(x: Run, i: int): Position {
    Along(x.start, x.axis, i)
  }

  /** h has no stone of c that g lacks. */
  ghost predicate Shrinks(g: Grid, h: Grid, c: Color) {
    forall p :: h.Has(p, c) ==> g.Has(p, c)
  }

  /** All cells of x from the lo-th on, hi excluded, carry c in h. */
  predicate Keeps(h: Grid, c: Color, x: Run, lo: int, hi: int) {
    forall i | lo <= i < hi :: h.Has(Cell(x, i), c)
  }

  /** The five-run y loses the stone at one end and no other. */
  predicate LosesOneEnd(h: Grid, c: Color, y: Run) {
    || (!h.Has(Cell(y, 0), c) && Keeps(h, c, y, 1, 5))
    || (Keeps(h, c, y, 0, 4) && !h.Has(Cell(y, 4), c))
  }

  ghost function Broken(g: Grid, h: Grid, c: Color): set<Run>
    requires g.Valid()
  {
    set x | x in RunsOfLength(g, c, 4) && !Keeps(h, c, x, 0, 4)
  }

  ghost function Cut(g: Grid, h: Grid, c: Color): set<Run>
    requires g.Valid()
  {
    set y | y in RunsOfLength(g, c, 5) && LosesOneEnd(h, c, y)
  }

  /** The run of four that remains of a five-run cut at one end. */
  function Rest(h: Grid, c: Color, y: Run): Run {
    if h.Has(Cell(y, 0), c) then Run(y.start, y.axis, 4) else Run(Cell(y, 1), y.axis, 4)
  }

  lemma CellsOfShifted(x: Run, y: Run, d: int, i: int)
    requires y.axis == x.axis && y.start == Cell(x, d)
    ensures Cell(y, i) == Cell(x, d + i)
  {
  }

  lemma KeepsIffSegment(g: Grid, c: Color, x: Run, n: nat)
    ensures Keeps(g, c, x, 0, n) <==> Segment(g, c, x.start, x.axis, n)
  {
    forall i
      ensures Cell(x, i) == Along(x.start, x.axis, i)
    {
    }
    hide Along;
    if Keeps(g, c, x, 0, n) {
      forall k | 0 <= k < n
        ensures g.Has(Along(x.start, x.axis, k), c)
      {
        assert g.Has(Cell(x, k), c);
      }
    }
  }

  lemma MaximalIff(g: Grid, c: Color, x: Run)
    requires g.Valid()
    ensures x in MaximalRuns(g, c) <==> x.len >= 1 && Keeps(g, c, x, 0, x.len) && !g.Has(Cell(x, -1), c) && !g.Has(Cell(x, x.len), c)
  {
    RunsAreMaximal(g, c, x);
    KeepsIffSegment(g, c, x, x.len);
  }

  lemma SixIsContained(g: Grid, c: Color, x: Run)
    requires Keeps(g, c, x, 0, 6)
    ensures ContainsRun(g, c, 6)
  {
    KeepsIffSegment(g, c, x, 6);
  }

  /** Without a run of six, five in line is a run of five. */
  lemma FiveIsMaximal(g: Grid, c: Color, y: Run)
    requires g.Valid() && y.len == 5 && Keeps(g, c, y, 0, 5) && !ContainsRun(g, c, 6)
    ensures y in RunsOfLength(g, c, 5)
  {
    var before, longer := Run(Cell(y, -1), y.axis, 6), Run(y.start, y.axis, 6);
    forall i | 0 <= i <= 5
      ensures Cell(longer, i) == Cell(y, i) && Cell(before, i) == Cell(y, i - 1)
    {
      CellsOfShifted(y, before, -1, i);
    }
    MaximalIff(g, c, y);
    hide Cell, ContainsRun, MaximalRuns;
    if g.Has(Cell(y, 5), c) {
      SixIsContained(g, c, longer);
    }
    if g.Has(Cell(y, -1), c) {
      forall i | 0 <= i < 6
        ensures g.Has(Cell(before, i), c)
      {
        assert Cell(before, i) == Cell(y, i - 1);
      }
      SixIsContained(g, c, before);
    }
  }

  /** A whole run of four stays one. */
  lemma KeptStays(g: Grid, h: Grid, c: Color, x: Run)
    requires g.Valid() && h.Valid() && Shrinks(g, h, c) && x in RunsOfLength(g, c, 4) && x !in Broken(g, h, c)
    ensures x in RunsOfLength(h, c, 4)
  {
    hide Cell;
    MaximalIff(g, c, x);
    MaximalIff(h, c, x);
  }

  /** A cut five-run leaves a run of four that was none before. */
  lemma RestIsNew(g: Grid, h: Grid, c: Color, y: Run)
    requires g.Valid() && h.Valid() && Shrinks(g, h, c) && y in Cut(g, h, c)
    ensures Rest(h, c, y) in RunsOfLength(h, c, 4) && Rest(h, c, y) !in RunsOfLength(g, c, 4)
  {
    var x := Rest(h, c, y);
    var d := if h.Has(Cell(y, 0), c) then 0 else 1;
    MaximalIff(g, c, y);
    MaximalIff(g, c, x);
    MaximalIff(h, c, x);
    assert Cell(y, 0) == y.start;
    forall i | -1 <= i <= 4
      ensures Cell(x, i) == Cell(y, d + i)
    {
      CellsOfShifted(y, x, d, i);
    }
    hide Cell;
  }

  /** A run of four of h, with a stone of g that h lacks at one end, is the rest of the five. */
  lemma GrownIsCut(g: Grid, h: Grid, c: Color, x: Run, d: int) returns (y: Run)
    requires g.Valid() && h.Valid() && Shrinks(g, h, c) && !ContainsRun(g, c, 6) && x.len == 4 && Keeps(h, c, x, 0, 4)
    requires d == -1 || d == 0
    requires var end := if d == -1 then -1 else 4; g.Has(Cell(x, end), c) && !h.Has(Cell(x, end), c)
    ensures y in Cut(g, h, c) && Rest(h, c, y) == x
  {
    y := Run(Cell(x, d), x.axis, 5);
    forall i | 0 <= i < 5
      ensures Cell(y, i) == Cell(x, d + i)
    {
      CellsOfShifted(x, y, d, i);
    }
    assert Cell(x, 0) == x.start;
    hide Cell, ContainsRun, MaximalRuns;
    assert Keeps(g, c, y, 0, 5);
    FiveIsMaximal(g, c, y);
  }

  /** A new run of four is what is left of a cut five-run. */
  lemma NewIsRest(g: Grid, h: Grid, c: Color, x: Run) returns (y: Run)
    requires g.Valid() && h.Valid() && Shrinks(g, h, c) && !ContainsRun(g, c, 6)
    requires x in RunsOfLength(h, c, 4) && x !in RunsOfLength(g, c, 4)
    ensures y in Cut(g, h, c) && Rest(h, c, y) == x
  {
    MaximalIff(g, c, x);
    MaximalIff(h, c, x);
    hide Cell, ContainsRun, MaximalRuns, Cut;
    y := GrownIsCut(g, h, c, x, if g.Has(Cell(x, -1), c) then -1 else 0);
  }

  lemma RestIsInjective(g: Grid, h: Grid, c: Color, y: Run, z: Run)
    requires g.Valid() && y in Cut(g, h, c) && z in Cut(g, h, c) && Rest(h, c, y) == Rest(h, c, z)
    ensures y == z
  {
    RunsAreMaximal(g, c, y);
    RunsAreMaximal(g, c, z);
    var i, j := if h.Has(Cell(y, 0), c) then 0 else 1, if h.Has(Cell(z, 0), c) then 0 else 1;
    assert Cell(y, 0) == y.start && Cell(z, 0) == z.start;
    SharedCellSameRun(g, c, y, i, z, j);
  }

  lemma {:induction false} ImageSize<T, U>(s: set<T>, f: T -> U, image: set<U>)
    requires forall x, y | x in s && y in s && f(x) == f(y) :: x == y
    requires image == set x | x in s :: f(x)
    ensures |image| == |s|
  {
    if x :| x in s {
      ImageSize(s - {x}, f, image - {f(x)});
    }
  }

  ghost function Rests(g: Grid, h: Grid, c: Color): set<Run>
    requires g.Valid()
  {
    set y | y in Cut(g, h, c) :: Rest(h, c, y)
  }

  lemma AsManyRests(g: Grid, h: Grid, c: Color)
    requires g.Valid()
    ensures |Rests(g, h, c)| == |Cut(g, h, c)|
  {
    var f := (y: Run) => Rest(h, c, y);
    hide Cut, Rest;
    forall y, z | y in Cut(g, h, c) && z in Cut(g, h, c) && f(y) == f(z)
      ensures y == z
    {
      RestIsInjective(g, h, c, y, z);
    }
    ImageSize(Cut(g, h, c), f, Rests(g, h, c));
  }

  /** The runs of four of h: the whole ones of g, and the rests of g's cut five-runs. */
  lemma FoursAre(g: Grid, h: Grid, c: Color)
    requires g.Valid() && h.Valid() && Shrinks(g, h, c) && !ContainsRun(g, c, 6)
    ensures var kept := RunsOfLength(g, c, 4) - Broken(g, h, c);
      RunsOfLength(h, c, 4) == kept + Rests(g, h, c) && kept !! Rests(g, h, c)
  {
    hide RunsOfLength, Cut, Rest, Broken, Shrinks, ContainsRun;
    forall y | y in Cut(g, h, c)
      ensures Rest(h, c, y) in RunsOfLength(h, c, 4) && Rest(h, c, y) !in RunsOfLength(g, c, 4)
    {
      RestIsNew(g, h, c, y);
    }
    forall x | x in RunsOfLength(g, c, 4) - Broken(g, h, c)
      ensures x in RunsOfLength(h, c, 4)
    {
      KeptStays(g, h, c, x);
    }
    forall x | x in RunsOfLength(h, c, 4)
      ensures x in (RunsOfLength(g, c, 4) - Broken(g, h, c)) + Rests(g, h, c)
    {
      FourIsKeptOrRest(g, h, c, x);
    }
  }

  /** The balance of runs of four when stones of c only disappear and there was no run of six. */
  lemma Balance(g: Grid, h: Grid, c: Color)
    requires g.Valid() && h.Valid() && Shrinks(g, h, c) && !ContainsRun(g, c, 6)
    ensures CountRuns(h, c, 4) == CountRuns(g, c, 4) - |Broken(g, h, c)| + |Cut(g, h, c)|
  {
    FoursAre(g, h, c);
    AsManyRests(g, h, c);
    assert Broken(g, h, c) <= RunsOfLength(g, c, 4);
    hide RunsOfLength, Cut, Rests, Broken, Shrinks, ContainsRun;
  }

  lemma FourIsKeptOrRest(g: Grid, h: Grid, c: Color, x: Run)
    requires g.Valid() && h.Valid() && Shrinks(g, h, c) && !ContainsRun(g, c, 6) && x in RunsOfLength(h, c, 4)
    ensures x in RunsOfLength(g, c, 4) - Broken(g, h, c) || exists y :: y in Cut(g, h, c) && Rest(h, c, y) == x
  {
    MaximalIff(h, c, x);
    if x !in RunsOfLength(g, c, 4) {
      var y := NewIsRest(g, h, c, x);
    }
  }

  // ---- The balance of a move ----

  /** The four-runs of c that lose a stone to the move's captures. */
  ghost function BrokenFours(g: Grid, m: Move, c: Color): set<Run>
    requires g.Valid()
  {
    set x | x in RunsOfLength(g, c, 4) && exists i :: 0 <= i < 4 && Lifts(g, m, c, Cell(x, i))
  }

  /** The five-runs of c that lose exactly one end to the move's captures and nothing else. */
  ghost function CutFives(g: Grid, m: Move, c: Color): set<Run>
    requires g.Valid()
  {
    set y | y in RunsOfLength(g, c, 5) &&
      exists e | e in {0, 4} :: Lifts(g, m, c, Cell(y, e)) && forall i | 0 <= i < 5 && i != e :: !Lifts(g, m, c, Cell(y, i))
  }

  /** How the move's captures change the number of four-runs of c. */
  ghost function FourBalance(g: Grid, m: Move, c: Color): int
    requires g.Valid()
  {
    |CutFives(g, m, c)| - |BrokenFours(g, m, c)|
  }

  lemma CellsStayIff(g: Grid, m: Move, c: Color, x: Run, i: int)
    requires g.Valid() && g.Has(m.pos, EMPTY) && c != EMPTY && c != m.player && x in MaximalRuns(g, c) && 0 <= i < x.len
    ensures GridAfter(g, m).Has(Cell(x, i), c) <==> !Lifts(g, m, c, Cell(x, i))
  {
    RunsAreMaximal(g, c, x);
    StaysIff(g, m, c, Cell(x, i));
  }

  /** After a move of another player, in a position without a run of six, the number of four-runs of c is what it was, less
      those that lose a stone, plus the five-runs that are cut at exactly one end. */
  lemma FourRunsAfter(g: Grid, m: Move, c: Color)
    requires g.Valid() && g.Has(m.pos, EMPTY) && c != EMPTY && c != m.player && !ContainsRun(g, c, 6)
    ensures GridAfter(g, m).Valid() && CountRuns(GridAfter(g, m), c, 4) == CountRuns(g, c, 4) + FourBalance(g, m, c)
  {
    GridAfterValid(g, m);
    var h := GridAfter(g, m);
    forall x, i | x in MaximalRuns(g, c) && 0 <= i < x.len
      ensures h.Has(Cell(x, i), c) <==> !Lifts(g, m, c, Cell(x, i))
    {
      CellsStayIff(g, m, c, x, i);
    }
    hide GridAfter, Lifts, Cell, CountRuns, MaximalRuns, ContainsRun;
    assert BrokenFours(g, m, c) == Broken(g, h, c);
    assert CutFives(g, m, c) == Cut(g, h, c);
    Balance(g, h, c);
  }
}
