/** Maximal runs: straight segments of one colour that cannot be extended at either end. */
module Runs {
  import opened Arith
  import opened Hex
  import opened Boards

  datatype Run = Run(start: Position, axis: Axis, len: nat)

  /** The len cells from p along a all carry colour c. */
  ghost predicate Segment(g: Grid, c: Color, p: Position, a: Axis, len: nat) {
    forall k :: 0 <= k < len ==> g.Has(Along(p, a, k), c)
  }

  ghost predicate Maximal(g: Grid, c: Color, run: Run) {
    && run.len >= 1
    && Segment(g, c, run.start, run.axis, run.len)
    && !g.Has(Along(run.start, run.axis, -1), c)
    && !g.Has(Along(run.start, run.axis, run.len), c)
  }

  /** How many more steps along a can stay on a board of this side. */
  function Room(side: int, p: Position, a: Axis): int {
    match a
    case East => side - p.q
    case SouthEast => side - p.r
    case NorthEast => side - p.q
  }

  /** The number of consecutive cells of colour c from p along a. */
  ghost function RunLength(g: Grid, c: Color, p: Position, a: Axis): (n: nat)
    requires g.Valid()
    ensures Segment(g, c, p, a, n) && !g.Has(Along(p, a, n), c)
    decreases Room(g.side, p, a)
  {
    if g.Has(p, c) then
      assert In(g.side, p);
      var n := RunLength(g, c, Along(p, a, 1), a);
      assert Segment(g, c, p, a, n + 1) by {
        forall k | 0 <= k < n + 1 ensures g.Has(Along(p, a, k), c) {
          assert k > 0 ==> Along(p, a, k) == Along(Along(p, a, 1), a, k - 1);
        }
      }
      assert Along(p, a, n + 1) == Along(Along(p, a, 1), a, n);
      n + 1
    else
      assert Along(p, a, 0) == p;
      0
  }

  lemma RunLengthUnique(g: Grid, c: Color, p: Position, a: Axis, n: nat)
    requires g.Valid() && Segment(g, c, p, a, n) && !g.Has(Along(p, a, n), c)
    ensures n == RunLength(g, c, p, a)
  {
    var m := RunLength(g, c, p, a);
    assert n < m ==> g.Has(Along(p, a, n), c);
    assert m < n ==> g.Has(Along(p, a, m), c);
  }

  ghost predicate IsStart(g: Grid, c: Color, p: Position, a: Axis) {
    g.Has(p, c) && !g.Has(Along(p, a, -1), c)
  }

  /** The maximal runs of colour c. */
  ghost function MaximalRuns(g: Grid, c: Color): set<Run>
    requires g.Valid()
  {
    set p, a | p in g.cell && IsStart(g, c, p, a) :: Run(p, a, RunLength(g, c, p, a))
  }

  lemma RunsAreMaximal(g: Grid, c: Color, run: Run)
    requires g.Valid()
    ensures run in MaximalRuns(g, c) <==> Maximal(g, c, run)
  {
    assert Along(run.start, run.axis, 0) == run.start;
    if Maximal(g, c, run) {
      assert g.Has(Along(run.start, run.axis, 0), c);
      RunLengthUnique(g, c, run.start, run.axis, run.len);
      assert run == Run(run.start, run.axis, run.len);
    }
    if run in MaximalRuns(g, c) {
      assert run.len == RunLength(g, c, run.start, run.axis);
    }
  }

  /** The maximal runs of colour c of exactly this length. */
  ghost function RunsOfLength(g: Grid, c: Color, length: int): set<Run>
    requires g.Valid()
  {
    set run | run in MaximalRuns(g, c) && run.len == length
  }

  ghost function CountRuns(g: Grid, c: Color, length: int): nat
    requires g.Valid()
  {
    |RunsOfLength(g, c, length)|
  }

  /** Some straight segment of at least minLen cells of colour c; with minLen < 1, some stone of colour c. */
  ghost predicate ContainsRun(g: Grid, c: Color, minLen: int) {
    exists p, a, n: nat :: n >= 1 && n >= minLen && Segment(g, c, p, a, n)
  }

  /** Every segment lies inside a maximal run that is at least as long. */
  lemma {:induction false} ExtendToMaximal(g: Grid, c: Color, p: Position, a: Axis, n: nat) returns (run: Run)
    requires g.Valid() && n >= 1 && Segment(g, c, p, a, n)
    ensures run in MaximalRuns(g, c) && run.len >= n && run.axis == a
    decreases 2 * g.side - Room(g.side, p, a)
  {
    assert g.Has(Along(p, a, 0), c) && Along(p, a, 0) == p;
    assert In(g.side, p);
    var back := Along(p, a, -1);
    if g.Has(back, c) {
      forall k | 0 <= k < n + 1 ensures g.Has(Along(back, a, k), c) {
        assert k > 0 ==> Along(back, a, k) == Along(p, a, k - 1);
        assert k == 0 ==> Along(back, a, k) == back;
      }
      run := ExtendToMaximal(g, c, back, a, n + 1);
    } else {
      run := Run(p, a, RunLength(g, c, p, a));
      var m := RunLength(g, c, p, a);
      assert m < n ==> g.Has(Along(p, a, m), c);
    }
  }

  lemma ContainsRunIffMaximal(g: Grid, c: Color, minLen: int)
    requires g.Valid()
    ensures ContainsRun(g, c, minLen) <==> exists run :: run in MaximalRuns(g, c) && run.len >= minLen
  {
    if ContainsRun(g, c, minLen) {
      var p, a, n: nat :| n >= 1 && n >= minLen && Segment(g, c, p, a, n);
      var run := ExtendToMaximal(g, c, p, a, n);
    }
    if exists run :: run in MaximalRuns(g, c) && run.len >= minLen {
      var run :| run in MaximalRuns(g, c) && run.len >= minLen;
      RunsAreMaximal(g, c, run);
      assert Segment(g, c, run.start, run.axis, run.len);
    }
  }

  // ---- Walking over all the runs ----

  /** What a caller's function holds after being given these runs one by one; `more` tells whether every
      one of them was accepted. The function returns false to stop the walk. */
  ghost function Feed<S>(fn: (S, nat) -> (S, bool), init: S, visits: seq<Run>): (S, bool)
  {
    if visits == [] then (init, true)
    else
      var before := Feed(fn, init, visits[..|visits| - 1]);
      if before.1 then fn(before.0, visits[|visits| - 1].len) else before
  }

  ghost predicate NoDuplicates<T(!new)>(s: seq<T>) {
    forall i, j :: 0 <= i < j < |s| ==> s[i] != s[j]
  }

  /** `visits` lists maximal runs of c, each at most once. */
  ghost predicate VisitsSome(g: Grid, c: Color, visits: seq<Run>)
    requires g.Valid()
  {
    NoDuplicates(visits) && forall i :: 0 <= i < |visits| ==> visits[i] in MaximalRuns(g, c)
  }

  /** `visits` lists every maximal run of c exactly once. */
  ghost predicate VisitsAll(g: Grid, c: Color, visits: seq<Run>)
    requires g.Valid()
  {
    VisitsSome(g, c, visits) && forall run :: run in MaximalRuns(g, c) ==> run in visits
  }

  /** The run starts before position (q, r), axis number n, in scan order. */
  ghost predicate Before(run: Run, q: int, r: int, n: int) {
    || run.start.q < q
    || (run.start.q == q && run.start.r < r)
    || (run.start.q == q && run.start.r == r && AxisIndex(run.axis) < n)
  }

  /** The walk has visited exactly the maximal runs that start before (q, r, n), and fn wants more. */
  ghost predicate Walked<S>(g: Grid, c: Color, fn: (S, nat) -> (S, bool), init: S, s: S, visits: seq<Run>, q: int, r: int, n: int)
    requires g.Valid()
  {
    && VisitsSome(g, c, visits)
    && (forall i :: 0 <= i < |visits| ==> Before(visits[i], q, r, n))
    && (forall run :: run in MaximalRuns(g, c) && Before(run, q, r, n) ==> run in visits)
    && Feed(fn, init, visits) == (s, true)
  }

  /** Nothing new starts between two points of the scan: the walk moves on for free. */
  lemma WalkedMoves<S>(g: Grid, c: Color, fn: (S, nat) -> (S, bool), init: S, s: S, visits: seq<Run>,
                       q: int, r: int, n: int, q': int, r': int, n': int)
    requires g.Valid() && Walked(g, c, fn, init, s, visits, q, r, n)
    requires forall run: Run :: Before(run, q, r, n) ==> Before(run, q', r', n')
    requires forall run: Run :: Before(run, q', r', n') && IsStart(g, c, run.start, run.axis) ==> Before(run, q, r, n)
    ensures Walked(g, c, fn, init, s, visits, q', r', n')
  {
  }

  /** No run starts on a cell of another colour, nor off the board. */
  lemma SkipCell<S>(g: Grid, c: Color, fn: (S, nat) -> (S, bool), init: S, s: S, visits: seq<Run>, p: Position)
    requires g.Valid() && Walked(g, c, fn, init, s, visits, p.q, p.r, 0) && !g.Has(p, c)
    ensures Walked(g, c, fn, init, s, visits, p.q, p.r + 1, 0)
  {
    WalkedMoves(g, c, fn, init, s, visits, p.q, p.r, 0, p.q, p.r + 1, 0);
  }

  /** No run starts on an axis along which the previous cell has the colour too. */
  lemma SkipAxis<S>(g: Grid, c: Color, fn: (S, nat) -> (S, bool), init: S, s: S, visits: seq<Run>, p: Position, n: nat)
    requires g.Valid() && n < |AXES| && Walked(g, c, fn, init, s, visits, p.q, p.r, n)
    requires g.Has(Along(p, AXES[n], -1), c)
    ensures Walked(g, c, fn, init, s, visits, p.q, p.r, n + 1)
  {
    WalkedMoves(g, c, fn, init, s, visits, p.q, p.r, n, p.q, p.r, n + 1);
  }

  lemma EndCell<S>(g: Grid, c: Color, fn: (S, nat) -> (S, bool), init: S, s: S, visits: seq<Run>, p: Position)
    requires g.Valid() && Walked(g, c, fn, init, s, visits, p.q, p.r, |AXES|)
    ensures Walked(g, c, fn, init, s, visits, p.q, p.r + 1, 0)
  {
    WalkedMoves(g, c, fn, init, s, visits, p.q, p.r, |AXES|, p.q, p.r + 1, 0);
  }

  lemma EndRow<S>(g: Grid, c: Color, fn: (S, nat) -> (S, bool), init: S, s: S, visits: seq<Run>, q: int)
    requires g.Valid() && Walked(g, c, fn, init, s, visits, q, g.side, 0)
    ensures Walked(g, c, fn, init, s, visits, q + 1, -(g.side - 1), 0)
  {
    WalkedMoves(g, c, fn, init, s, visits, q, g.side, 0, q + 1, -(g.side - 1), 0);
  }

  lemma WalkStarts<S>(g: Grid, c: Color, fn: (S, nat) -> (S, bool), init: S)
    requires g.Valid()
    ensures Walked(g, c, fn, init, init, [], -(g.side - 1), -(g.side - 1), 0)
  {
  }

  lemma WalkEnds<S>(g: Grid, c: Color, fn: (S, nat) -> (S, bool), init: S, s: S, visits: seq<Run>)
    requires g.Valid() && Walked(g, c, fn, init, s, visits, g.side, -(g.side - 1), 0)
    ensures VisitsAll(g, c, visits) && Feed(fn, init, visits) == (s, true)
  {
  }

  lemma WalkedVisitsSome<S>(g: Grid, c: Color, fn: (S, nat) -> (S, bool), init: S, s: S, visits: seq<Run>, q: int, r: int, n: int)
    requires g.Valid() && Walked(g, c, fn, init, s, visits, q, r, n)
    ensures VisitsSome(g, c, visits) && Feed(fn, init, visits) == (s, true)
  {
  }

  /** The visited run is not one of those before it. */
  lemma VisitIsNew<S>(g: Grid, c: Color, fn: (S, nat) -> (S, bool), init: S, s: S, visits: seq<Run>, run: Run, q: int, r: int, n: int)
    requires g.Valid() && Walked(g, c, fn, init, s, visits, q, r, n) && run in MaximalRuns(g, c) && !Before(run, q, r, n)
    ensures VisitsSome(g, c, visits + [run]) && Feed(fn, init, visits + [run]) == fn(s, run.len)
  {
    hide MaximalRuns, Before;
    var vs := visits + [run];
    assert vs[..|vs| - 1] == visits;
  }

  /** Visiting the run that starts at the current point. */
  lemma WalkedVisits<S>(g: Grid, c: Color, fn: (S, nat) -> (S, bool), init: S, s: S, visits: seq<Run>, p: Position, n: nat, run: Run)
    requires g.Valid() && n < |AXES| && Walked(g, c, fn, init, s, visits, p.q, p.r, n)
    requires run == Run(p, AXES[n], RunLength(g, c, p, AXES[n])) && run in MaximalRuns(g, c)
    ensures VisitsSome(g, c, visits + [run])
    ensures Feed(fn, init, visits + [run]) == fn(s, run.len)
    ensures fn(s, run.len).1 ==> Walked(g, c, fn, init, fn(s, run.len).0, visits + [run], p.q, p.r, n + 1)
  {
    VisitIsNew(g, c, fn, init, s, visits, run, p.q, p.r, n);
    hide MaximalRuns, RunLength, VisitsSome, Feed;
    var vs := visits + [run];
    forall other | other in MaximalRuns(g, c) && Before(other, p.q, p.r, n + 1)
      ensures other in vs
    {
      if !Before(other, p.q, p.r, n) {
        OneRunAtATime(g, c, p, n, other);
        assert vs[|visits|] == other;
      }
    }
  }

  lemma OneRunAtATime(g: Grid, c: Color, p: Position, n: nat, other: Run)
    requires g.Valid() && n < |AXES| && other in MaximalRuns(g, c)
    requires Before(other, p.q, p.r, n + 1) && !Before(other, p.q, p.r, n)
    ensures other == Run(p, AXES[n], RunLength(g, c, p, AXES[n]))
  {
  }

  /** One run length, walked cell by cell from p. */
  method MeasureRun(b: Board, color: Color, p: Position, a: Axis) returns (length: nat)
    requires b.Valid()
    ensures length == RunLength(b.view, color, p, a)
  {
    length := 0;
    var c := p;
    var same := Same(b, c, color);
    assert Along(p, a, 0) == p;
    while same
      invariant c == Along(p, a, length) && same == b.view.Has(c, color)
      invariant Segment(b.view, color, p, a, length)
      decreases Room(b.side, c, a) + (if same then 1 else 0)
    {
      assert In(b.side, c);
      length := length + 1;
      c := Along(c, a, 1);
      same := Same(b, c, color);
    }
    RunLengthUnique(b.view, color, p, a, length);
  }

  /** p is on the board and carries color. */
  method Same(b: Board, p: Position, color: Color) returns (same: bool)
    requires b.Valid()
    ensures same == b.view.Has(p, color)
  {
    if In(b.side, p) {
      var c := b.At(p);
      same := c == color;
    } else {
      same := false;
    }
  }

  /** Passes the length of every maximal run of color, each once, to fn until fn returns false.
      The walk threads fn's captured variables as the state s. */
  method ForEachMaximalRun<S>(b: Board, color: Color, fn: (S, nat) -> (S, bool), init: S) returns (s: S, ghost visits: seq<Run>, more: bool)
    requires b.Valid()
    ensures VisitsSome(b.view, color, visits)
    ensures Feed(fn, init, visits) == (s, more)
    ensures more ==> VisitsAll(b.view, color, visits)
  {
    hide Walked, VisitsSome, VisitsAll, Feed;
    s, visits, more := init, [], true;
    var r := b.side - 1;
    WalkStarts(b.view, color, fn, init);
    for q := -r to r + 1
      invariant Walked(b.view, color, fn, init, s, visits, q, -r, 0) && more
    {
      for t := -r to r + 1
        invariant Walked(b.view, color, fn, init, s, visits, q, t, 0) && more
      {
        s, visits, more := VisitCell(b, color, fn, init, s, visits, Position(q, t));
        if !more {
          return;
        }
      }
      EndRow(b.view, color, fn, init, s, visits, q);
    }
    WalkEnds(b.view, color, fn, init, s, visits);
  }

  /** The body of the scan: visits the runs that start at p, one per axis at most. */
  method VisitCell<S>(b: Board, color: Color, fn: (S, nat) -> (S, bool), ghost init: S, before: S, ghost seen: seq<Run>, p: Position)
    returns (s: S, ghost visits: seq<Run>, more: bool)
    requires b.Valid() && Walked(b.view, color, fn, init, before, seen, p.q, p.r, 0)
    ensures VisitsSome(b.view, color, visits)
    ensures Feed(fn, init, visits) == (s, more)
    ensures more ==> Walked(b.view, color, fn, init, s, visits, p.q, p.r + 1, 0)
  {
    hide Walked, VisitsSome, Feed, RunLength;
    s, visits, more := before, seen, true;
    var here := Same(b, p, color);
    if !here {
      SkipCell(b.view, color, fn, init, s, visits, p);
      WalkedVisitsSome(b.view, color, fn, init, s, visits, p.q, p.r, 0);
      return;
    }
    for n := 0 to |AXES|
      invariant Walked(b.view, color, fn, init, s, visits, p.q, p.r, n)
      invariant more
    {
      var continued := Same(b, Along(p, AXES[n], -1), color);
      if continued {
        SkipAxis(b.view, color, fn, init, s, visits, p, n);
        continue;
      }
      var length := MeasureRun(b, color, p, AXES[n]);
      var result := fn(s, length);
      WalkedVisits(b.view, color, fn, init, s, visits, p, n, Run(p, AXES[n], length));
      visits := visits + [Run(p, AXES[n], length)];
      s, more := result.0, result.1;
      if !more {
        return;
      }
    }
    EndCell(b.view, color, fn, init, s, visits, p);
    WalkedVisitsSome(b.view, color, fn, init, s, visits, p.q, p.r + 1, 0);
  }

  // ---- The two questions asked of the walk ----

  /** Stops at the first run of at least minLen cells. */
  function AtLeast(minLen: int): (bool, nat) -> (bool, bool) {
    (found: bool, length: nat) => if length >= minLen then (true, false) else (found, true)
  }

  /** Counts the runs of exactly this length. */
  function Exactly(length: int): (nat, nat) -> (nat, bool) {
    (n: nat, l: nat) => (if l == length then n + 1 else n, true)
  }

  lemma {:induction false} FeedAtLeast(minLen: int, visits: seq<Run>)
    ensures Feed(AtLeast(minLen), false, visits).0 <==> exists i :: 0 <= i < |visits| && visits[i].len >= minLen
    ensures Feed(AtLeast(minLen), false, visits).1 == !Feed(AtLeast(minLen), false, visits).0
  {
    if visits != [] {
      var rest := visits[..|visits| - 1];
      FeedAtLeast(minLen, rest);
      if Feed(AtLeast(minLen), false, rest).0 {
        var i :| 0 <= i < |rest| && rest[i].len >= minLen;
        assert visits[i].len >= minLen;
      } else if visits[|visits| - 1].len < minLen {
        forall i | 0 <= i < |visits| ensures visits[i].len < minLen {
          assert i < |rest| ==> rest[i].len < minLen;
        }
      }
    }
  }

  ghost function VisitsOfLength(visits: seq<Run>, length: int): set<Run> {
    set run | run in visits && run.len == length
  }

  lemma VisitsOfLengthStep(visits: seq<Run>, length: int)
    requires NoDuplicates(visits) && visits != []
    ensures var last := visits[|visits| - 1];
      |VisitsOfLength(visits, length)| == |VisitsOfLength(visits[..|visits| - 1], length)| + if last.len == length then 1 else 0
  {
    var rest, last := visits[..|visits| - 1], visits[|visits| - 1];
    assert visits == rest + [last];
    assert last !in rest;
    if last.len == length {
      assert VisitsOfLength(visits, length) == VisitsOfLength(rest, length) + {last};
    } else {
      assert VisitsOfLength(visits, length) == VisitsOfLength(rest, length);
    }
  }

  lemma {:induction false} FeedExactly(length: int, visits: seq<Run>)
    requires NoDuplicates(visits)
    ensures Feed(Exactly(length), 0, visits) == (|VisitsOfLength(visits, length)|, true)
  {
    if visits != [] {
      hide VisitsOfLength;
      FeedExactly(length, visits[..|visits| - 1]);
      VisitsOfLengthStep(visits, length);
    } else {
      assert VisitsOfLength(visits, length) == {};
    }
  }

  method HasRun(b: Board, color: Color, minLen: int) returns (found: bool)
    requires b.Valid()
    ensures found <==> ContainsRun(b.view, color, minLen)
  {
    ghost var visits;
    var more;
    found, visits, more := ForEachMaximalRun(b, color, AtLeast(minLen), false);
    FeedAtLeast(minLen, visits);
    ContainsRunIffMaximal(b.view, color, minLen);
    assert forall i :: 0 <= i < |visits| ==> visits[i] in MaximalRuns(b.view, color);
  }

  method CountMaximalRuns(b: Board, color: Color, length: int) returns (n: nat)
    requires b.Valid()
    ensures n == CountRuns(b.view, color, length)
  {
    ghost var visits;
    var more;
    n, visits, more := ForEachMaximalRun(b, color, Exactly(length), 0);
    FeedExactly(length, visits);
    assert VisitsOfLength(visits, length)
        == (set run | run in MaximalRuns(b.view, color) && run.len == length);
  }

  // ---- The runs of one axis partition the stones ----

  /** The sum of the visited lengths on one axis. */
  ghost function SumLengths(visits: seq<Run>, a: Axis): nat {
    if visits == [] then 0
    else SumLengths(visits[..|visits| - 1], a) + if visits[|visits| - 1].axis == a then visits[|visits| - 1].len else 0
  }

  ghost function Cells(run: Run): set<Position> {
    set k | 0 <= k < run.len :: Along(run.start, run.axis, k)
  }

  /** The cells of the visited runs on one axis. */
  ghost function Covered(visits: seq<Run>, a: Axis): set<Position> {
    set i, k | 0 <= i < |visits| && visits[i].axis == a && 0 <= k < visits[i].len :: Along(visits[i].start, a, k)
  }

  lemma {:induction false} CellsSize(run: Run)
    ensures |Cells(run)| == run.len
    decreases run.len
  {
    if run.len == 0 {
      assert Cells(run) == {};
    } else {
      var shorter := run.(len := run.len - 1);
      CellsSize(shorter);
      var last := Along(run.start, run.axis, run.len - 1);
      assert Cells(run) == Cells(shorter) + {last};
      assert last !in Cells(shorter);
    }
  }

  /** Two maximal runs on one axis that share a cell are the same run. */
  lemma SharedCellSameRun(g: Grid, c: Color, x: Run, i: nat, y: Run, j: nat)
    requires Maximal(g, c, x) && Maximal(g, c, y) && x.axis == y.axis
    requires i < x.len && j < y.len && Along(x.start, x.axis, i) == Along(y.start, y.axis, j)
    ensures x == y
  {
    assert i > j ==> Along(y.start, y.axis, -1) == Along(x.start, x.axis, i - j - 1);
    assert j > i ==> Along(x.start, x.axis, -1) == Along(y.start, y.axis, j - i - 1);
    assert i == j && x.start == y.start;
    assert x.len < y.len ==> g.Has(Along(y.start, y.axis, x.len), c);
    assert y.len < x.len ==> g.Has(Along(x.start, x.axis, y.len), c);
  }

  lemma CoveredStep(visits: seq<Run>, a: Axis)
    requires visits != []
    ensures Covered(visits, a) == Covered(visits[..|visits| - 1], a)
              + if visits[|visits| - 1].axis == a then Cells(visits[|visits| - 1]) else {}
  {
    var rest := visits[..|visits| - 1];
    var last := visits[|visits| - 1];
    var parts := Covered(rest, a) + if last.axis == a then Cells(last) else {};
    forall p | p in Covered(visits, a) ensures p in parts {
      var i, k :| 0 <= i < |visits| && visits[i].axis == a && 0 <= k < visits[i].len && p == Along(visits[i].start, a, k);
      assert i < |rest| ==> rest[i] == visits[i];
    }
    forall p | p in parts ensures p in Covered(visits, a) {
      if p in Covered(rest, a) {
        var i, k :| 0 <= i < |rest| && rest[i].axis == a && 0 <= k < rest[i].len && p == Along(rest[i].start, a, k);
        assert visits[i] == rest[i];
      } else {
        var k :| 0 <= k < last.len && p == Along(last.start, a, k);
        assert visits[|visits| - 1].axis == a;
      }
    }
  }

  lemma CoveredApart(g: Grid, c: Color, visits: seq<Run>, a: Axis)
    requires g.Valid() && VisitsSome(g, c, visits) && visits != [] && visits[|visits| - 1].axis == a
    ensures Covered(visits[..|visits| - 1], a) !! Cells(visits[|visits| - 1])
  {
    var rest := visits[..|visits| - 1];
    var last := visits[|visits| - 1];
    RunsAreMaximal(g, c, last);
    forall p | p in Covered(rest, a) ensures p !in Cells(last) {
      var i, k :| 0 <= i < |rest| && rest[i].axis == a && 0 <= k < rest[i].len && p == Along(rest[i].start, a, k);
      RunsAreMaximal(g, c, visits[i]);
      if p in Cells(last) {
        var j :| 0 <= j < last.len && p == Along(last.start, last.axis, j);
        SharedCellSameRun(g, c, rest[i], k, last, j);
        assert false;
      }
    }
  }

  lemma {:induction false} CoveredSize(g: Grid, c: Color, visits: seq<Run>, a: Axis)
    requires g.Valid() && VisitsSome(g, c, visits)
    ensures |Covered(visits, a)| == SumLengths(visits, a)
  {
    if visits == [] {
      assert Covered(visits, a) == {};
    } else {
      CoveredSize(g, c, visits[..|visits| - 1], a);
      CoveredStep(visits, a);
      CellsSize(visits[|visits| - 1]);
      if visits[|visits| - 1].axis == a {
        CoveredApart(g, c, visits, a);
      }
    }
  }

  /** On each axis, the lengths passed to the visitor add up to the number of stones of the colour:
      every stone is in exactly one visited run. */
  lemma RunLengthsSumToStones(g: Grid, c: Color, visits: seq<Run>, a: Axis)
    requires g.Valid() && VisitsAll(g, c, visits)
    ensures SumLengths(visits, a) == |g.Stones(c)|
  {
    CoveredSize(g, c, visits, a);
    forall p ensures p in Covered(visits, a) <==> p in g.Stones(c) {
      if p in Covered(visits, a) {
        var i, k :| 0 <= i < |visits| && visits[i].axis == a && 0 <= k < visits[i].len && p == Along(visits[i].start, a, k);
        RunsAreMaximal(g, c, visits[i]);
      }
      if p in g.Stones(c) {
        StoneIsCovered(g, c, visits, a, p);
      }
    }
    assert Covered(visits, a) == g.Stones(c);
  }

  lemma StoneIsCovered(g: Grid, c: Color, visits: seq<Run>, a: Axis, p: Position)
    requires g.Valid() && VisitsAll(g, c, visits) && g.Has(p, c)
    ensures p in Covered(visits, a)
  {
    var run, k := RunThrough(g, c, p, a);
    var i :| 0 <= i < |visits| && visits[i] == run;
    assert visits[i].axis == a && 0 <= k < visits[i].len;
  }

  lemma {:induction false} RunThrough(g: Grid, c: Color, p: Position, a: Axis) returns (run: Run, k: nat)
    requires g.Valid() && g.Has(p, c)
    ensures run in MaximalRuns(g, c) && run.axis == a && k < run.len && Along(run.start, a, k) == p
    decreases 2 * g.side - Room(g.side, p, a)
  {
    assert In(g.side, p);
    var back := Along(p, a, -1);
    if g.Has(back, c) {
      run, k := RunThrough(g, c, back, a);
      k := k + 1;
      if k == run.len {
        RunsAreMaximal(g, c, run);
        assert false;
      }
    } else {
      run, k := Run(p, a, RunLength(g, c, p, a)), 0;
      assert run.len == 0 ==> Along(p, a, 0) == p;
    }
  }

  /** One stone is no run of two. */
  lemma OneStoneNoRun(g: Grid, c: Color, len: int)
    requires g.Valid() && |g.Stones(c)| <= 1 && len >= 2
    ensures !ContainsRun(g, c, len) && CountRuns(g, c, len) == 0
  {
    if ContainsRun(g, c, len) {
      var p, a, n: nat :| n >= 1 && n >= len && Segment(g, c, p, a, n);
      var pair := {Along(p, a, 0), Along(p, a, 1)};
      assert pair <= g.Stones(c);
      Cardinality(pair, g.Stones(c));
      assert false;
    }
    ContainsRunIffMaximal(g, c, len);
    assert RunsOfLength(g, c, len) == {};
  }
}
