/** Sandwich captures: [mover][victim][victim][mover] on a line axis, closed by the stone just placed. */
module Captures {
  import opened Hex
  import opened Boards
  import opened Wrappers

  /** A captured pair: first and second are the two victims' intersections, in axis order. */
  datatype Capture = Capture(capturer: Color, victim: Color, first: Position, second: Position)

  /** The four-cell pattern starting at p along a, stated without reference to how it is found. */
  ghost predicate Sandwich(g: Grid, p: Position, a: Axis, mover: Color, victim: Color) {
    && g.Has(p, mover)
    && g.Has(Along(p, a, 1), victim)
    && g.Has(Along(p, a, 2), victim)
    && g.Has(Along(p, a, 3), mover)
    && victim != EMPTY
    && victim != mover
  }

  /** The capture that the sandwich starting at p along a yields. */
  function CaptureAt(g: Grid, p: Position, a: Axis, mover: Color): Capture
    requires Along(p, a, 1) in g.cell
  {
    Capture(mover, g.cell[Along(p, a, 1)], Along(p, a, 1), Along(p, a, 2))
  }

  /** What the flanker test at p along a finds: nothing, or the one capture there. */
  function FlankerCapture(g: Grid, p: Position, a: Axis, mover: Color): seq<Capture> {
    var inner := Along(p, a, 1);
    if g.Has(p, mover) && g.Has(Along(p, a, 3), mover) && inner in g.cell
       && g.cell[inner] != EMPTY && g.cell[inner] != mover && g.Has(Along(p, a, 2), g.cell[inner])
    then [CaptureAt(g, p, a, mover)]
    else []
  }

  /** The captures found on one axis: first with `from` as the near flanker, then as the far one. */
  function AxisCaptures(g: Grid, from: Position, a: Axis, mover: Color): seq<Capture> {
    FlankerCapture(g, from, a, mover) + FlankerCapture(g, Along(from, a, -3), a, mover)
  }

  function AxesCaptures(g: Grid, from: Position, mover: Color, n: nat): seq<Capture>
    requires n <= |AXES|
  {
    if n == 0 then [] else AxesCaptures(g, from, mover, n - 1) + AxisCaptures(g, from, AXES[n - 1], mover)
  }

  /** Every capture that the stone of `mover` on `from` completes, in the order they are found. */
  function CapturesOf(g: Grid, from: Position, mover: Color): seq<Capture> {
    AxesCaptures(g, from, mover, 3)
  }

  /** c is the capture of a sandwich that has `from` as one of its two flankers. */
  ghost predicate Completes(g: Grid, from: Position, mover: Color, c: Capture) {
    exists p, a ::
      && (p == from || Along(p, a, 3) == from)
      && Sandwich(g, p, a, mover, c.victim)
      && c == Capture(mover, c.victim, Along(p, a, 1), Along(p, a, 2))
  }

  lemma CapturesUnfold(g: Grid, from: Position, mover: Color)
    ensures CapturesOf(g, from, mover) ==
            AxisCaptures(g, from, East, mover) + AxisCaptures(g, from, SouthEast, mover) + AxisCaptures(g, from, NorthEast, mover)
  {
    assert AxesCaptures(g, from, mover, 0) == [];
    assert AxesCaptures(g, from, mover, 1) == AxisCaptures(g, from, East, mover);
    assert AxesCaptures(g, from, mover, 2) == AxesCaptures(g, from, mover, 1) + AxisCaptures(g, from, SouthEast, mover);
  }

  lemma FlankerCaptureIsSandwich(g: Grid, p: Position, a: Axis, mover: Color)
    ensures |FlankerCapture(g, p, a, mover)| <= 1
    ensures forall v :: Sandwich(g, p, a, mover, v) ==>
      FlankerCapture(g, p, a, mover) == [Capture(mover, v, Along(p, a, 1), Along(p, a, 2))]
    ensures FlankerCapture(g, p, a, mover) != [] ==> Sandwich(g, p, a, mover, FlankerCapture(g, p, a, mover)[0].victim)
  {
  }

  /** Exactness: the captures found are the sandwiches with the placed stone as an end, no more and no fewer. */
  lemma CapturesExact(g: Grid, from: Position, mover: Color, c: Capture)
    ensures c in CapturesOf(g, from, mover) <==> Completes(g, from, mover, c)
  {
    CapturesUnfold(g, from, mover);
    forall a: Axis
      ensures c in AxisCaptures(g, from, a, mover) ==> Completes(g, from, mover, c)
    {
      FlankerCaptureIsSandwich(g, from, a, mover);
      FlankerCaptureIsSandwich(g, Along(from, a, -3), a, mover);
      assert Along(Along(from, a, -3), a, 3) == from;
    }
    if Completes(g, from, mover, c) {
      var p, a :| (p == from || Along(p, a, 3) == from) && Sandwich(g, p, a, mover, c.victim)
        && c == Capture(mover, c.victim, Along(p, a, 1), Along(p, a, 2));
      FlankerCaptureIsSandwich(g, p, a, mover);
      assert p == from || p == Along(from, a, -3);
      assert c in AxisCaptures(g, from, a, mover);
    }
  }

  /** How far, and in which of the six senses, a victim lies from the placed stone. */
  ghost predicate OnRay(from: Position, a: Axis, sense: int, c: Capture) {
    && (sense == 1 || sense == -1)
    && ((c.first == Along(from, a, sense) && c.second == Along(from, a, 2 * sense))
        || (c.second == Along(from, a, sense) && c.first == Along(from, a, 2 * sense)))
  }

  ghost predicate Disjoint(c: Capture, d: Capture) {
    {c.first, c.second} !! {d.first, d.second}
  }

  lemma RaysAreDisjoint(from: Position, a: Axis, s: int, c: Capture, b: Axis, t: int, d: Capture)
    requires OnRay(from, a, s, c) && OnRay(from, b, t, d) && (a != b || s != t)
    ensures Disjoint(c, d)
  {
  }

  lemma AxisCapturesOnRays(g: Grid, from: Position, a: Axis, mover: Color)
    ensures |AxisCaptures(g, from, a, mover)| <= 2
    ensures |AxisCaptures(g, from, a, mover)| == 2 ==>
      OnRay(from, a, 1, AxisCaptures(g, from, a, mover)[0]) && OnRay(from, a, -1, AxisCaptures(g, from, a, mover)[1])
    ensures |AxisCaptures(g, from, a, mover)| == 1 ==>
      OnRay(from, a, 1, AxisCaptures(g, from, a, mover)[0]) || OnRay(from, a, -1, AxisCaptures(g, from, a, mover)[0])
  {
  }

  lemma DifferentAxesDisjoint(g: Grid, from: Position, a: Axis, b: Axis, mover: Color, c: Capture, d: Capture)
    requires a != b && c in AxisCaptures(g, from, a, mover) && d in AxisCaptures(g, from, b, mover)
    ensures Disjoint(c, d)
  {
    AxisCapturesOnRays(g, from, a, mover);
    AxisCapturesOnRays(g, from, b, mover);
    var s := if OnRay(from, a, 1, c) then 1 else -1;
    var t := if OnRay(from, b, 1, d) then 1 else -1;
    RaysAreDisjoint(from, a, s, c, b, t, d);
  }

  lemma SameAxisDisjoint(g: Grid, from: Position, a: Axis, mover: Color)
    ensures |AxisCaptures(g, from, a, mover)| == 2 ==>
      Disjoint(AxisCaptures(g, from, a, mover)[0], AxisCaptures(g, from, a, mover)[1])
  {
    AxisCapturesOnRays(g, from, a, mover);
    if |AxisCaptures(g, from, a, mover)| == 2 {
      RaysAreDisjoint(from, a, 1, AxisCaptures(g, from, a, mover)[0], a, -1, AxisCaptures(g, from, a, mover)[1]);
    }
  }

  ghost predicate PairwiseDisjoint(cs: seq<Capture>) {
    forall i, j :: 0 <= i < j < |cs| ==> Disjoint(cs[i], cs[j])
  }

  lemma ConcatDisjoint(xs: seq<Capture>, ys: seq<Capture>)
    requires PairwiseDisjoint(xs) && PairwiseDisjoint(ys)
    requires forall c, d :: c in xs && d in ys ==> Disjoint(c, d)
    ensures PairwiseDisjoint(xs + ys)
  {
    var zs := xs + ys;
    forall i, j | 0 <= i < j < |zs|
      ensures Disjoint(zs[i], zs[j])
    {
      if i < |xs| && j >= |xs| {
        assert zs[i] in xs && zs[j] in ys;
      }
    }
  }

  /** No stone is taken twice: the victim pairs are pairwise disjoint (so no capture is listed twice). */
  lemma CapturesDisjoint(g: Grid, from: Position, mover: Color)
    ensures PairwiseDisjoint(CapturesOf(g, from, mover))
    ensures |CapturesOf(g, from, mover)| <= 6
  {
    CapturesUnfold(g, from, mover);
    var e, s, n := AxisCaptures(g, from, East, mover), AxisCaptures(g, from, SouthEast, mover), AxisCaptures(g, from, NorthEast, mover);
    forall a: Axis
      ensures PairwiseDisjoint(AxisCaptures(g, from, a, mover)) && |AxisCaptures(g, from, a, mover)| <= 2
    {
      SameAxisDisjoint(g, from, a, mover);
      AxisCapturesOnRays(g, from, a, mover);
    }
    forall c, d | c in e && d in s ensures Disjoint(c, d) { DifferentAxesDisjoint(g, from, East, SouthEast, mover, c, d); }
    ConcatDisjoint(e, s);
    forall c, d | c in e + s && d in n ensures Disjoint(c, d) {
      if c in e {
        DifferentAxesDisjoint(g, from, East, NorthEast, mover, c, d);
      } else {
        DifferentAxesDisjoint(g, from, SouthEast, NorthEast, mover, c, d);
      }
    }
    ConcatDisjoint(e + s, n);
  }

  /** A capture takes two in-board stones of one colour, neither the mover's nor the stone just placed. */
  lemma CaptureTakesOpponents(g: Grid, from: Position, mover: Color, c: Capture)
    requires g.Has(from, mover) && c in CapturesOf(g, from, mover)
    ensures c.capturer == mover && c.victim != mover && c.victim != EMPTY
    ensures g.Has(c.first, c.victim) && g.Has(c.second, c.victim)
    ensures c.first != c.second && from != c.first && from != c.second
  {
    CapturesExact(g, from, mover, c);
  }

  /** Tests for the sandwich starting at p1 along a. Only the two ends are checked against the outline;
      the two middle reads need no check of their own. */
  method TryCapture(b: Board, p1: Position, a: Axis, mover: Color) returns (found: Option<Capture>)
    requires b.Valid()
    ensures FlankerCapture(b.view, p1, a, mover) == if found.Some? then [found.value] else []
  {
    var p2, p3, p4 := Along(p1, a, 1), Along(p1, a, 2), Along(p1, a, 3);
    if !In(b.side, p1) || !In(b.side, p4) {
      return None;
    }
    BetweenIsIn(b.side, p1, a, 1, 3);
    BetweenIsIn(b.side, p1, a, 2, 3);
    var c1 := b.At(p1);
    var c4 := b.At(p4);
    if c1 != mover || c4 != mover {
      return None;
    }
    var v := b.At(p2);
    var w := b.At(p3);
    if v == EMPTY || v == mover || v != w {
      return None;
    }
    return Some(Capture(mover, v, p2, p3));
  }

  method DetectCaptures(b: Board, from: Position, mover: Color) returns (out: seq<Capture>)
    requires b.Valid()
    ensures out == CapturesOf(b.view, from, mover)
  {
    out := [];
    for i := 0 to |AXES|
      invariant out == AxesCaptures(b.view, from, mover, i)
    {
      var near := TryCapture(b, from, AXES[i], mover);
      if near.Some? {
        out := out + [near.value];
      }
      var far := TryCapture(b, Along(from, AXES[i], -3), AXES[i], mover);
      if far.Some? {
        out := out + [far.value];
      }
      assert out == AxesCaptures(b.view, from, mover, i) + AxisCaptures(b.view, from, AXES[i], mover);
    }
  }
}
