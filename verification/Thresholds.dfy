/** The four win thresholds while a game is on. Only the mover is tested, so another player can stand at the threshold of
    four-runs, exactly when captures leave it that many. */
module Thresholds {
  import opened Arith
  import opened Hex
  import opened Boards
  import opened Captures
  import opened Runs
  import opened Engine
  import opened Play
  import opened Cuts
  import Laws

  /** Colour c has reached neither alignment threshold of this many runs of this length. */
  ghost predicate Below(g: Game, c: Color, len: int, threshold: int)
    requires g.grid.Valid()
  {
    threshold > 0 ==> CountRuns(g.grid, c, len) < threshold
  }

  /** After an accepted move that leaves the game on, the mover is below all four thresholds. */
  lemma MoverIsBelow(g: Game, m: Move, now: Time)
    requires g.Valid() && Apply(g, m, now).Ok? && !Apply(g, m, now).value.0.Over() && m.player != EMPTY
    ensures var h := Apply(g, m, now).value.0;
      && !ContainsRun(h.grid, m.player, 6)
      && Below(h, m.player, 5, h.config.align5ToWin)
      && Below(h, m.player, 4, h.config.align4ToWin)
      && (h.config.capturePairsWin > 0 ==> h.players[g.turn].capturedPairs < h.config.capturePairsWin)
  {
    GridAfterValid(g.grid, m);
  }

  /** The move lifts a stone at one end of a straight segment of c of length len + 1. */
  ghost predicate Shortens(g: Grid, m: Move, c: Color, len: nat) {
    exists p, a :: Segment(g, c, p, a, len + 1) && (Lifts(g, m, c, p) || Lifts(g, m, c, Along(p, a, len)))
  }

  /** A maximal run that another colour has only after the move is what a capture left of a longer segment. */
  lemma NewRunWasShortened(g: Grid, m: Move, c: Color, run: Run)
    requires g.Valid() && g.Has(m.pos, EMPTY) && c != EMPTY && c != m.player
    requires GridAfter(g, m).Valid() && Maximal(GridAfter(g, m), c, run) && !Maximal(g, c, run)
    ensures Shortens(g, m, c, run.len)
  {
    GridAfterValid(g, m);
    hide GridAfter, CapturesBy;
    assert Segment(g, c, run.start, run.axis, run.len);
    var back, past := Along(run.start, run.axis, -1), Along(run.start, run.axis, run.len);
    if g.Has(past, c) {
      assert Segment(g, c, run.start, run.axis, run.len + 1);
      GoneIsLifted(g, m, c, past);
    } else {
      assert g.Has(back, c);
      forall k | 0 <= k < run.len + 1
        ensures g.Has(Along(back, run.axis, k), c)
      {
        assert k > 0 ==> Along(back, run.axis, k) == Along(run.start, run.axis, k - 1);
        assert k == 0 ==> Along(back, run.axis, k) == back;
      }
      assert Segment(g, c, back, run.axis, run.len + 1);
      GoneIsLifted(g, m, c, back);
      assert Along(back, run.axis, run.len) == Along(run.start, run.axis, run.len - 1);
    }
  }

  /** Another colour's count of runs of a length grows only when a capture shortens a longer segment to that length. */
  lemma CountGrowsByShortening(g: Grid, m: Move, c: Color, len: nat)
    requires g.Valid() && g.Has(m.pos, EMPTY) && c != EMPTY && c != m.player && GridAfter(g, m).Valid()
    requires CountRuns(GridAfter(g, m), c, len) > CountRuns(g, c, len)
    ensures Shortens(g, m, c, len)
  {
    var before, after := RunsOfLength(g, c, len), RunsOfLength(GridAfter(g, m), c, len);
    if after <= before {
      Cardinality(after, before);
      assert false;
    }
    var run :| run in after && run !in before;
    RunsAreMaximal(g, c, run);
    RunsAreMaximal(GridAfter(g, m), c, run);
    NewRunWasShortened(g, m, c, run);
  }

  // ---- Over whole games ----

  /** Every logged position has a well-formed grid. */
  ghost predicate Recorded(side: int, log: seq<Entry>) {
    side >= 1 && forall i :: 0 <= i < |log| ==> log[i].position.grid.Valid()
  }

  /** The grid that the k-th logged move found. */
  function GridBefore(side: int, log: seq<Entry>, k: nat): (g: Grid)
    requires Recorded(side, log) && k <= |log|
    ensures g.Valid()
  {
    if k == 0 then EmptyGrid(side) else log[k - 1].position.grid
  }

  /** The four-runs of c when it last moved, and the balance of every capture since. */
  ghost function FourTally(side: int, log: seq<Entry>, c: Color): int
    requires Recorded(side, log)
  {
    if log == [] then 0
    else
      var k := |log| - 1;
      if log[k].move.player == c then CountRuns(log[k].position.grid, c, 4)
      else FourTally(side, log[..k], c) + FourBalance(GridBefore(side, log, k), log[k].move, c)
  }

  ghost predicate Tracked(t: Trace) {
    && t.game.grid.Valid() && Recorded(t.game.grid.side, t.log)
    && t.game.grid == GridBefore(t.game.grid.side, t.log, |t.log|)
  }

  /** The k-th logged move is another player's, cuts a five-run of c to four, and c has not moved since. */
  ghost predicate CutAt(side: int, log: seq<Entry>, c: Color, k: nat)
    requires Recorded(side, log) && k < |log|
  {
    && log[k].move.player != c
    && CutFives(GridBefore(side, log, k), log[k].move, c) != {}
    && forall l | k < l < |log| :: log[l].move.player != c
  }

  ghost predicate CutBefore(side: int, log: seq<Entry>, c: Color)
    requires Recorded(side, log)
  {
    exists k :: 0 <= k < |log| && CutAt(side, log, c, k)
  }

  /** c is below the threshold of five-runs, its four-runs are those tallied, and if they reach their threshold then one of
      its five-runs was cut since it last moved. */
  ghost predicate Explained(t: Trace, c: Color)
    requires Tracked(t)
  {
    && Below(t.game, c, 5, t.game.config.align5ToWin)
    && CountRuns(t.game.grid, c, 4) == FourTally(t.game.grid.side, t.log, c)
    && (Below(t.game, c, 4, t.game.config.align4ToWin) || CutBefore(t.game.grid.side, t.log, c))
  }

  lemma DoTracks(t: Trace, act: Action)
    requires t.game.Valid() && Tracked(t)
    ensures Tracked(Do(t, act)) && Do(t, act).game.grid.side == t.game.grid.side
  {
    hide GridAfter, CapturesBy;
    if act.PlayMove? && Apply(t.game, act.move, act.now).Ok? {
      GridAfterValid(t.game.grid, act.move);
    }
  }

  lemma NoRunsYet(side: int, c: Color, len: int)
    requires side >= 1 && c != EMPTY
    ensures CountRuns(EmptyGrid(side), c, len) == 0
  {
    forall run | run in MaximalRuns(EmptyGrid(side), c)
      ensures false
    {
      Laws.NoStonesYet(side, run.start, c);
    }
    assert RunsOfLength(EmptyGrid(side), c, len) == {};
  }

  lemma TallyStep(side: int, log: seq<Entry>, e: Entry, c: Color)
    requires Recorded(side, log + [e]) && Recorded(side, log) && e.position.grid.Valid()
    ensures e.move.player == c ==> FourTally(side, log + [e], c) == CountRuns(e.position.grid, c, 4)
    ensures e.move.player != c ==>
      FourTally(side, log + [e], c) == FourTally(side, log, c) + FourBalance(GridBefore(side, log, |log|), e.move, c)
  {
    assert (log + [e])[..|log|] == log;
  }

  /** What happened before the last move still explains a colour that did not make it. */
  lemma CutStep(side: int, log: seq<Entry>, e: Entry, c: Color)
    requires Recorded(side, log + [e]) && Recorded(side, log) && e.move.player != c
    requires CutBefore(side, log, c) || CutFives(GridBefore(side, log, |log|), e.move, c) != {}
    ensures CutBefore(side, log + [e], c)
  {
    var after := log + [e];
    if k :| 0 <= k < |log| && CutAt(side, log, c, k) {
      assert GridBefore(side, after, k) == GridBefore(side, log, k) && after[k] == log[k];
      assert CutAt(side, after, c, k);
    } else {
      assert GridBefore(side, after, |log|) == GridBefore(side, log, |log|);
      assert CutAt(side, after, c, |log|);
    }
  }

  lemma FivesNeverGrow(g: Grid, m: Move, c: Color)
    requires g.Valid() && g.Has(m.pos, EMPTY) && c != EMPTY && c != m.player && GridAfter(g, m).Valid() && !ContainsRun(g, c, 6)
    ensures CountRuns(GridAfter(g, m), c, 5) <= CountRuns(g, c, 5)
  {
    hide CountRuns, GridAfter;
    if CountRuns(GridAfter(g, m), c, 5) > CountRuns(g, c, 5) {
      CountGrowsByShortening(g, m, c, 5);
      ShortenedWasLonger(g, m, c, 5);
      assert false;
    }
  }

  lemma ShortenedWasLonger(g: Grid, m: Move, c: Color, len: nat)
    requires Shortens(g, m, c, len)
    ensures ContainsRun(g, c, len + 1)
  {
  }

  /** A move by another player. */
  lemma OtherStaysExplained(t: Trace, m: Move, now: Time, c: Color)
    requires t.game.Valid() && Tracked(t) && Apply(t.game, m, now).Ok? && c != EMPTY && c != m.player
    requires Explained(t, c) && !ContainsRun(t.game.grid, c, 6)
    requires Tracked(Do(t, Action.PlayMove(m, now)))
    ensures Explained(Do(t, Action.PlayMove(m, now)), c)
  {
    var u := Do(t, Action.PlayMove(m, now));
    GridAfterValid(t.game.grid, m);
    hide GridAfter, CapturesBy, CountRuns, CutBefore, CutFives, FourTally, BrokenFours, ContainsRun;
    var e := u.log[|t.log|];
    assert u.log == t.log + [e] && e.move == m && u.game.grid == GridAfter(t.game.grid, m);
    FivesNeverGrow(t.game.grid, m, c);
    FourRunsAfter(t.game.grid, m, c);
    TallyStep(t.game.grid.side, t.log, e, c);
    if CutBefore(t.game.grid.side, t.log, c) || CutFives(t.game.grid, m, c) != {} {
      CutStep(t.game.grid.side, t.log, e, c);
    }
  }

  lemma MoverStaysExplained(t: Trace, m: Move, now: Time)
    requires t.game.Valid() && Tracked(t) && Apply(t.game, m, now).Ok? && !Apply(t.game, m, now).value.0.Over() && m.player != EMPTY
    requires Tracked(Do(t, Action.PlayMove(m, now)))
    ensures Explained(Do(t, Action.PlayMove(m, now)), m.player)
  {
    MoverIsBelow(t.game, m, now);
    hide GridAfter, CapturesBy, CountRuns, FourTally;
    var u := Do(t, Action.PlayMove(m, now));
    TallyStep(t.game.grid.side, t.log, u.log[|t.log|], m.player);
  }

  lemma DoStaysExplained(t: Trace, act: Action, colors: seq<Color>, cfg: Config, c: Color)
    requires Playable(colors, cfg) && RosterKept(t, colors, cfg) && Tracked(t) && Tracked(Do(t, act)) && c != EMPTY
    requires !t.game.Over() ==> Laws.Quiet(t.game) && Explained(t, c)
    requires !Do(t, act).game.Over()
    ensures Explained(Do(t, act), c)
  {
    hide Explained, GridAfter, CapturesBy, CountRuns;
    if act.PlayMove? && Apply(t.game, act.move, act.now).Ok? {
      var m := act.move;
      assert m.player == colors[t.game.turn] && m.player in colors;
      if c == m.player {
        MoverStaysExplained(t, m, act.now);
      } else {
        OtherStaysExplained(t, m, act.now, c);
      }
    } else {
      IdleStaysExplained(t, act, c);
    }
  }

  lemma IdleStaysExplained(t: Trace, act: Action, c: Color)
    requires t.game.Valid() && Tracked(t) && Tracked(Do(t, act)) && Explained(t, c)
    requires act.PlayMove? ==> Apply(t.game, act.move, act.now).Err?
    ensures Explained(Do(t, act), c)
  {
    hide CountRuns, FourTally, CutBefore;
    var u := Do(t, act);
    assert u.log == t.log && u.game.grid == t.game.grid && u.game.config == t.game.config;
  }

  lemma {:induction false} ExplainedLaw(colors: seq<Color>, cfg: Config, acts: seq<Action>, c: Color)
    requires Playable(colors, cfg) && c != EMPTY
    ensures Tracked(Exec(colors, cfg, acts))
    ensures !Exec(colors, cfg, acts).game.Over() ==> Explained(Exec(colors, cfg, acts), c)
  {
    if acts == [] {
      NoRunsYet(cfg.boardSide, c, 5);
      NoRunsYet(cfg.boardSide, c, 4);
    } else {
      hide Explained, Tracked, Playable;
      var before, act := Exec(colors, cfg, acts[..|acts| - 1]), acts[|acts| - 1];
      ExplainedLaw(colors, cfg, acts[..|acts| - 1], c);
      RosterLaw(colors, cfg, acts[..|acts| - 1]);
      Laws.QuietLaw(colors, cfg, acts[..|acts| - 1]);
      DoTracks(before, act);
      if !Do(before, act).game.Over() {
        DoStaysExplained(before, act, colors, cfg, c);
      }
    }
  }

  /** In every reachable state of a game that is on, every colour is below the threshold of five-runs. It stands at that of
      four-runs exactly when the runs it had after its last move and the balance of the captures since then reach the
      threshold, and then one of these captures cut one of its five-runs. */
  lemma ThresholdLaw(colors: seq<Color>, cfg: Config, acts: seq<Action>, c: Color)
    requires Playable(colors, cfg) && c != EMPTY
    ensures var t := Exec(colors, cfg, acts);
      && Recorded(cfg.boardSide, t.log)
      && (!t.game.Over() ==>
            && Below(t.game, c, 5, cfg.align5ToWin)
            && (!Below(t.game, c, 4, cfg.align4ToWin) <==>
                  cfg.align4ToWin > 0 && FourTally(cfg.boardSide, t.log, c) >= cfg.align4ToWin)
            && (!Below(t.game, c, 4, cfg.align4ToWin) ==> CutBefore(cfg.boardSide, t.log, c)))
  {
    hide Recorded, CutBefore, FourTally, CountRuns;
    ExplainedLaw(colors, cfg, acts, c);
    RosterLaw(colors, cfg, acts);
  }

  /** In every reachable state, an accepted move leaves the game on with another colour at the threshold of four-runs exactly
      when it does not win and that colour's four-runs with the balance of the move's captures reach the threshold. */
  lemma UnnoticedIff(colors: seq<Color>, cfg: Config, acts: seq<Action>, m: Move, now: Time, c: Color)
    requires Playable(colors, cfg) && c != EMPTY && c != m.player
    requires Apply(Exec(colors, cfg, acts).game, m, now).Ok?
    ensures var g := Exec(colors, cfg, acts).game; var h := Apply(g, m, now).value.0;
      && GridAfter(g.grid, m).Valid()
      && (!h.Over() && !Below(h, c, 4, cfg.align4ToWin) <==>
            && WinOf(cfg, GridAfter(g.grid, m), Scored(Timed(g, g.Current(), now), |CapturesBy(g.grid, m)|)) == NoWin
            && cfg.align4ToWin > 0 && CountRuns(g.grid, c, 4) + FourBalance(g.grid, m, c) >= cfg.align4ToWin)
  {
    var g := Exec(colors, cfg, acts).game;
    RosterLaw(colors, cfg, acts);
    Laws.QuietLaw(colors, cfg, acts);
    GridAfterValid(g.grid, m);
    FourRunsAfter(g.grid, m, c);
    hide GridAfter, CapturesBy, CountRuns, FourBalance, WinOf;
  }

  // ---- A game where it happens ----

  /** Red's first stone waits above the place of its last one; the others lie apart, no two of them in reach of each other. */
  function RedAt(i: nat): Position {
    if i == 0 then Position(4, 1)
    else if i < 10 then Position(2 * i - 10, -1)
    else if i < 18 then Position(2 * i - 26, -3)
    else Position(4, 4)
  }

  /** Blue fills a rhombus of four by four cells and one more cell at the end of two rows. It leaves a gap in these rows until
      the end, so that they never hold exactly four. */
  function BlueAt(i: nat): Position
    requires i < 18
  {
    if i < 8 then Position([0, 1, 3, 4][i % 4], 2 + i / 4)
    else if i < 16 then Position(i % 4, i / 4 - 2)
    else Position(2, i - 14)
  }

  const PLIES := 37

  function Ply(k: nat): Move
    requires k < PLIES
  {
    if k % 2 == 0 then Move(1, RedAt(k / 2)) else Move(2, BlueAt(k / 2))
  }

  /** All moves are played at one instant, so no clock loses time. */
  function Acts(k: nat, now: Time): seq<Action>
    requires k <= PLIES
  {
    if k == 0 then [] else Acts(k - 1, now) + [Action.PlayMove(Ply(k - 1), now)]
  }

  predicate PlacedBy(k: nat, p: Position, c: Color)
    requires k <= PLIES
  {
    exists i :: 0 <= i < k && Ply(i) == Move(c, p)
  }

  /** The grid holds exactly the first k stones. */
  ghost predicate Opened(g: Grid, k: nat)
    requires k <= PLIES
  {
    && g.Valid() && g.side == DEFAULT_BOARD_SIDE
    && forall p, c :: c != EMPTY ==> (g.Has(p, c) <==> PlacedBy(k, p, c))
  }

  predicate IsRed(p: Position) {
    p.q % 2 == 0 && p.r % 2 == 1 && p.r <= 1
  }

  predicate InRhombus(p: Position) {
    0 <= p.q <= 3 && 0 <= p.r <= 3
  }

  predicate IsBlue(p: Position) {
    InRhombus(p) || (p.q == 4 && 2 <= p.r <= 3)
  }

  lemma StonesSoFar(k: nat, p: Position, c: Color)
    requires k <= PLIES && PlacedBy(k, p, c)
    ensures c == 1 || c == 2
    ensures c == 1 ==> IsRed(p) || (k == PLIES && p == Position(4, 4))
    ensures c == 2 ==> IsBlue(p)
  {
    var i :| 0 <= i < k && Ply(i) == Move(c, p);
  }

  /** The number of the ply on which blue takes the cell. */
  function BlueTurn(p: Position): nat
    requires IsBlue(p)
  {
    if p.r <= 1 then 8 + 4 * p.r + p.q
    else if p.q == 2 then p.r + 14
    else 4 * (p.r - 2) + (if p.q < 2 then p.q else p.q - 1)
  }

  lemma BlueTakes(p: Position)
    requires IsBlue(p)
    ensures BlueTurn(p) < 18 && BlueAt(BlueTurn(p)) == p
  {
  }

  lemma BlueTurnOf(i: nat)
    requires i < 18
    ensures IsBlue(BlueAt(i)) && BlueTurn(BlueAt(i)) == i
  {
  }

  lemma NextIsFree(k: nat)
    requires k < PLIES
    ensures In(DEFAULT_BOARD_SIDE, Ply(k).pos) && Ply(k).player == k % 2 + 1
    ensures forall c :: !PlacedBy(k, Ply(k).pos, c)
  {
    forall i | 0 <= i < k
      ensures Ply(i).pos != Ply(k).pos
    {
      if i % 2 == 1 {
        BlueTurnOf(i / 2);
      }
      if k % 2 == 1 {
        BlueTurnOf(k / 2);
      }
    }
  }

  /** Two red stones are never neighbours, nor three steps apart on a line, so nothing can be captured. */
  lemma NoSandwichYet(g: Grid, k: nat, p: Position, a: Axis, mover: Color, victim: Color)
    requires k < PLIES && Opened(g, k) && mover != EMPTY
    ensures !Sandwich(g, p, a, mover, victim)
  {
  }

  lemma PlacedNext(k: nat, p: Position, c: Color)
    requires k < PLIES
    ensures PlacedBy(k + 1, p, c) <==> PlacedBy(k, p, c) || Ply(k) == Move(c, p)
  {
    hide Ply;
  }

  lemma PutOpens(g: Grid, k: nat)
    requires k < PLIES && Opened(g, k)
    ensures g.Has(Ply(k).pos, EMPTY) && Opened(g.Put(Ply(k).pos, Ply(k).player), k + 1)
  {
    NextIsFree(k);
    hide PlacedBy, Ply;
    var m := Ply(k);
    var h := g.Put(m.pos, m.player);
    assert In(g.side, m.pos) && g.Has(m.pos, g.cell[m.pos]);
    forall p, c | c != EMPTY
      ensures h.Has(p, c) <==> PlacedBy(k + 1, p, c)
    {
      PlacedNext(k, p, c);
    }
  }

  lemma PlyCapturesNothing(g: Grid, k: nat)
    requires k < PLIES - 1 && Opened(g, k)
    ensures CapturesBy(g, Ply(k)) == [] && GridAfter(g, Ply(k)) == g.Put(Ply(k).pos, Ply(k).player)
  {
    var m := Ply(k);
    NextIsFree(k);
    PutOpens(g, k);
    hide Opened, CapturesOf, PlacedBy, Ply;
    var placed := g.Put(m.pos, m.player);
    var cs := CapturesOf(placed, m.pos, m.player);
    if cs != [] {
      CapturesExact(placed, m.pos, m.player, cs[0]);
      var p, a :| (p == m.pos || Along(p, a, 3) == m.pos) && Sandwich(placed, p, a, m.player, cs[0].victim)
        && cs[0] == Capture(m.player, cs[0].victim, Along(p, a, 1), Along(p, a, 2));
      NoSandwichYet(placed, k + 1, p, a, m.player, cs[0].victim);
      assert false;
    }
  }

  // ---- Nobody has won before the last ply ----

  /** Red has no two neighbours, not even after its last stone. */
  lemma RedHasNoRuns(g: Grid, k: nat, run: Run)
    requires k <= PLIES && Opened(g, k) && Segment(g, 1, run.start, run.axis, run.len)
    ensures run.len < 2
  {
    hide PlacedBy;
    if run.len >= 2 {
      assert g.Has(Along(run.start, run.axis, 0), 1) && g.Has(Along(run.start, run.axis, 1), 1);
      StonesSoFar(k, Along(run.start, run.axis, 0), 1);
      StonesSoFar(k, Along(run.start, run.axis, 1), 1);
    }
  }

  /** Blue's rows 2 and 3 are complete once they hold their middle stone. */
  lemma GapIsLast(g: Grid, k: nat, p: Position)
    requires k <= PLIES && Opened(g, k) && 2 <= p.r <= 3 && 0 <= p.q <= 4 && g.Has(Position(2, p.r), 2)
    ensures g.Has(p, 2)
  {
    var i :| 0 <= i < k && Ply(i) == Move(2, Position(2, p.r));
    BlueTurnOf(i / 2);
    MiddleIsLast(p);
    var j := 2 * BlueTurn(p) + 1;
    hide Opened, BlueTurn, BlueAt, Ply;
    assert PlacedBy(k, p, 2) by {
      assert j <= i && Ply(j) == Move(2, p);
    }
  }

  lemma MiddleIsLast(p: Position)
    requires 2 <= p.r <= 3 && 0 <= p.q <= 4
    ensures BlueTurn(p) <= BlueTurn(Position(2, p.r)) && Ply(2 * BlueTurn(p) + 1) == Move(2, p)
  {
    BlueTakes(p);
  }

  /** The lines of blue's stones that can hold exactly four before the last ply. */
  function FourLines(): set<Run> {
    {Run(Position(0, 0), East, 4), Run(Position(0, 1), East, 4),
     Run(Position(0, 0), SouthEast, 4), Run(Position(1, 0), SouthEast, 4),
     Run(Position(2, 0), SouthEast, 4), Run(Position(3, 0), SouthEast, 4),
     Run(Position(0, 3), NorthEast, 4)}
  }

  function FiveLines(): set<Run> {
    {Run(Position(0, 2), East, 5), Run(Position(0, 3), East, 5)}
  }

  lemma FourBlues(p: Position, a: Axis)
    requires IsBlue(p) && IsBlue(Along(p, a, 1)) && IsBlue(Along(p, a, 2)) && IsBlue(Along(p, a, 3))
    ensures a == East && p.r >= 2 ==> 0 <= p.q <= 1 && p.r <= 3
    ensures !(a == East && p.r >= 2) ==> Run(p, a, 4) in FourLines()
  {
  }

  lemma BlueRun(g: Grid, k: nat, run: Run)
    requires k < PLIES && Opened(g, k) && Maximal(g, 2, run)
    ensures run.len < 6
    ensures run.len == 5 ==> run in FiveLines()
    ensures run.len == 4 ==> run in FourLines()
  {
    hide Opened, IsBlue, FourLines;
    var p, a := run.start, run.axis;
    if run.len >= 4 {
      forall i | 0 <= i < run.len
        ensures g.Has(Along(p, a, i), 2) && IsBlue(Along(p, a, i))
      {
        BlueStone(g, k, Along(p, a, i));
      }
      assert Along(p, a, 0) == p;
      FourBlues(p, a);
      if run.len >= 5 {
        FiveBlues(p, a);
        assert run.len >= 6 ==> IsBlue(Along(p, a, 5));
        NoSixth(p);
      } else if a == East && p.r >= 2 {
        RowHasFive(g, k, p);
        assert false;
      }
    }
  }

  lemma BlueStone(g: Grid, k: nat, p: Position)
    requires k <= PLIES && Opened(g, k) && g.Has(p, 2)
    ensures IsBlue(p)
  {
    StonesSoFar(k, p, 2);
  }

  lemma FiveBlues(p: Position, a: Axis)
    requires IsBlue(p) && IsBlue(Along(p, a, 1)) && IsBlue(Along(p, a, 2)) && IsBlue(Along(p, a, 3)) && IsBlue(Along(p, a, 4))
    ensures a == East && p.q == 0 && 2 <= p.r <= 3
  {
  }

  lemma NoSixth(p: Position)
    requires p.q == 0
    ensures !IsBlue(Along(p, East, 5))
  {
  }

  /** Four in one of the two rows is five. */
  lemma RowHasFive(g: Grid, k: nat, p: Position)
    requires k < PLIES && Opened(g, k) && 2 <= p.r <= 3 && 0 <= p.q <= 1
    requires forall i | 0 <= i < 4 :: g.Has(Along(p, East, i), 2)
    ensures g.Has(Along(p, East, -1), 2) || g.Has(Along(p, East, 4), 2)
  {
    hide Opened;
    assert Along(p, East, 2 - p.q) == Position(2, p.r);
    GapIsLast(g, k, if p.q == 0 then Along(p, East, 4) else Along(p, East, -1));
  }

  lemma NoWinYet(g: Grid, k: nat, p: Player)
    requires k <= PLIES && g.Valid() && Opened(g, k) && (p.color == 1 || (p.color == 2 && k < PLIES)) && p.capturedPairs == 0
    ensures WinOf(DefaultConfig(2), g, p) == NoWin
  {
    hide Opened, FourLines, FiveLines;
    forall run | run in MaximalRuns(g, p.color)
      ensures run.len < 6 && (run.len == 5 ==> run in FiveLines()) && (run.len == 4 ==> run in FourLines())
    {
      RunsAreMaximal(g, p.color, run);
      if p.color == 1 {
        RedHasNoRuns(g, k, run);
      } else {
        BlueRun(g, k, run);
      }
    }
    ContainsRunIffMaximal(g, p.color, 6);
    Cardinality(RunsOfLength(g, p.color, 4), FourLines());
    Cardinality(RunsOfLength(g, p.color, 5), FiveLines());
    FewLines();
  }

  lemma FewLines()
    ensures |FourLines()| <= 7 && |FiveLines()| <= 2
  {
  }

  // ---- The first 36 plies ----

  /** The game after k plies, as far as it matters. */
  ghost predicate OnCourse(g: Game, k: nat, now: Time)
    requires k <= PLIES
  {
    && g.Valid() && Opened(g.grid, k) && g.config == DefaultConfig(2) && !g.Over() && g.turn == k % 2 && |g.players| == 2
    && (g.turnStartedAt == ZERO_TIME || g.turnStartedAt == now)
    && forall i | 0 <= i < 2 ::
      && g.players[i].color == i + 1 && g.players[i].gemsRemaining >= GEMS_PER_PLAYER - k
      && g.players[i].capturedPairs == 0 && g.players[i].timeRemainingMs == DEFAULT_INITIAL_TIME_MS
  }

  lemma NoTimeLost(g: Game, p: Player, now: Time)
    requires g.config.incrementMs == 0 && (g.turnStartedAt == ZERO_TIME || g.turnStartedAt == now)
    ensures Timed(g, p, now) == p && (ClockRuns(g) ==> Charged(g, now) == 0)
  {
  }

  lemma QuietPly(g: Game, k: nat, now: Time)
    requires k < PLIES - 1 && OnCourse(g, k, now)
    ensures Apply(g, Ply(k), now).Ok? && OnCourse(Apply(g, Ply(k), now).value.0, k + 1, now)
  {
    hide Opened, PlacedBy, WinOf, CapturesBy, GridAfter, Ply, Timed, Charged, ClockRuns;
    var m := Ply(k);
    NextIsFree(k);
    PutOpens(g.grid, k);
    PlyCapturesNothing(g.grid, k);
    NoTimeLost(g, g.Current(), now);
    NoWinYet(GridAfter(g.grid, m), k + 1, Scored(g.Current(), 0));
  }

  lemma StartsOnCourse(now: Time)
    ensures OnCourse(NewGame([1, 2], DefaultConfig(2)), 0, now)
  {
  }

  lemma {:induction false} PliesOnCourse(k: nat, now: Time)
    requires k < PLIES
    ensures OnCourse(Exec([1, 2], DefaultConfig(2), Acts(k, now)).game, k, now)
  {
    hide OnCourse, Apply;
    if k == 0 {
      StartsOnCourse(now);
    } else {
      PliesOnCourse(k - 1, now);
      ExecStep([1, 2], DefaultConfig(2), Acts(k - 1, now), Action.PlayMove(Ply(k - 1), now));
      QuietPly(Exec([1, 2], DefaultConfig(2), Acts(k - 1, now)).game, k - 1, now);
    }
  }

  // ---- The last ply ----

  const LAST := Move(1, Position(4, 4))

  /** Red's capture takes the two stones at the ends of blue's rows. */
  lemma EndsAreTaken(g: Grid)
    requires Opened(g, 36)
    ensures !GridAfter(g, LAST).Has(Position(4, 2), 2) && !GridAfter(g, LAST).Has(Position(4, 3), 2)
  {
    PutOpens(g, 36);
    var placed := g.Put(LAST.pos, 1);
    assert Ply(0) == Move(1, Position(4, 1)) && Ply(7) == Move(2, Position(4, 2)) && Ply(15) == Move(2, Position(4, 3));
    assert PlacedBy(37, Position(4, 1), 1) && PlacedBy(37, Position(4, 2), 2) && PlacedBy(37, Position(4, 3), 2);
    assert placed.Has(LAST.pos, 1);
    hide PlacedBy, Opened;
    assert Sandwich(placed, Position(4, 1), SouthEast, 1, 2) && Along(Position(4, 1), SouthEast, 3) == LAST.pos;
    var c := Capture(1, 2, Position(4, 2), Position(4, 3));
    assert c == Capture(1, 2, Along(Position(4, 1), SouthEast, 1), Along(Position(4, 1), SouthEast, 2));
    CapturesExact(placed, LAST.pos, 1, c);
    LiftedIsEmpty(placed, CapturesOf(placed, LAST.pos, 1), c);
  }

  /** No capture reaches the rhombus. */
  lemma RhombusIsSafe(g: Grid, p: Position)
    requires Opened(g, 36) && InRhombus(p)
    ensures GridAfter(g, LAST).Has(p, 2) <==> g.Has(p, 2)
  {
    hide Opened, PlacedBy;
    var placed := g.Put(LAST.pos, 1);
    var cs := CapturesOf(placed, LAST.pos, 1);
    forall i | 0 <= i < |cs|
      ensures p != cs[i].first && p != cs[i].second
    {
      CapturesExact(placed, LAST.pos, 1, cs[i]);
    }
    LiftElsewhere(placed, cs, p);
  }

  lemma RhombusIsFull(p: Position)
    requires InRhombus(p)
    ensures PlacedBy(36, p, 2)
  {
    BlueTakes(p);
    assert Ply(2 * BlueTurn(p) + 1) == Move(2, p);
  }

  /** What is left of blue's stones is the rhombus. */
  lemma RhombusIsLeft(g: Grid, p: Position)
    requires Opened(g, 36)
    ensures GridAfter(g, LAST).Has(p, 2) <==> InRhombus(p)
  {
    PutOpens(g, 36);
    GridAfterValid(g, LAST);
    hide GridAfter, PlacedBy, Ply;
    if InRhombus(p) {
      RhombusIsSafe(g, p);
      RhombusIsFull(p);
    } else if GridAfter(g, LAST).Has(p, 2) {
      BlueStone(g, 36, p);
      EndsAreTaken(g);
      assert false;
    }
  }

  function RhombusLines(): set<Run> {
    {Run(Position(0, 0), East, 4), Run(Position(0, 1), East, 4), Run(Position(0, 2), East, 4), Run(Position(0, 3), East, 4),
     Run(Position(0, 0), SouthEast, 4), Run(Position(1, 0), SouthEast, 4), Run(Position(2, 0), SouthEast, 4),
     Run(Position(3, 0), SouthEast, 4)}
  }

  lemma RhombusLine(run: Run, i: int)
    requires run in RhombusLines() && -1 <= i <= 4
    ensures InRhombus(Along(run.start, run.axis, i)) <==> 0 <= i < 4
  {
  }

  lemma EightAreLeft(g: Grid)
    requires Opened(g, 36) && GridAfter(g, LAST).Valid()
    ensures CountRuns(GridAfter(g, LAST), 2, 4) >= 8
  {
    hide Opened, GridAfter, InRhombus, RhombusLines;
    var h := GridAfter(g, LAST);
    forall run | run in RhombusLines()
      ensures run in RunsOfLength(h, 2, 4)
    {
      forall i | -1 <= i <= 4
        ensures h.Has(Along(run.start, run.axis, i), 2) <==> 0 <= i < 4
      {
        RhombusLine(run, i);
        RhombusIsLeft(g, Along(run.start, run.axis, i));
      }
      EightLines();
      RunsAreMaximal(h, 2, run);
    }
    EightLines();
    Cardinality(RhombusLines(), RunsOfLength(h, 2, 4));
  }

  lemma EightLines()
    ensures |RhombusLines()| == 8 && forall run :: run in RhombusLines() ==> run.len == 4
  {
  }

  lemma RedsStayApart(g: Grid, run: Run)
    requires Opened(g, 36) && GridAfter(g, LAST).Valid() && Maximal(GridAfter(g, LAST), 1, run)
    ensures run.len < 2
  {
    PutOpens(g, 36);
    GridAfterValid(g, LAST);
    var h, placed := GridAfter(g, LAST), g.Put(LAST.pos, 1);
    hide GridAfter, Opened, Along;
    forall i | 0 <= i < run.len
      ensures placed.Has(Along(run.start, run.axis, i), 1)
    {
      assert h.Has(Along(run.start, run.axis, i), 1);
    }
    RedHasNoRuns(placed, 37, run);
  }

  lemma RedHasNoWin(g: Grid, p: Player)
    requires Opened(g, 36) && GridAfter(g, LAST).Valid() && p.color == 1 && p.capturedPairs < 12
    ensures WinOf(DefaultConfig(2), GridAfter(g, LAST), p) == NoWin
  {
    hide GridAfter, Opened, Maximal, ContainsRun, MaximalRuns;
    var h := GridAfter(g, LAST);
    forall run | run in MaximalRuns(h, 1)
      ensures run.len < 2
    {
      RunsAreMaximal(h, 1, run);
      RedsStayApart(g, run);
    }
    ContainsRunIffMaximal(h, 1, 6);
    assert RunsOfLength(h, 1, 4) == {} && RunsOfLength(h, 1, 5) == {};
  }

  lemma LastPly(g: Game, now: Time)
    requires OnCourse(g, 36, now)
    ensures var r := Apply(g, LAST, now);
      && r.Ok? && !r.value.0.Over() && r.value.0.config == DefaultConfig(2)
      && r.value.0.grid.Valid() && CountRuns(r.value.0.grid, 2, 4) >= 8
  {
    hide Opened, WinOf, GridAfter, CapturesBy, CountRuns, Timed, Charged, ClockRuns;
    assert Ply(36) == LAST;
    NextIsFree(36);
    PutOpens(g.grid, 36);
    GridAfterValid(g.grid, LAST);
    EightAreLeft(g.grid);
    FewCaptures(g.grid);
    NoTimeLost(g, g.Current(), now);
    RedHasNoWin(g.grid, Scored(g.Current(), |CapturesBy(g.grid, LAST)|));
  }

  lemma FewCaptures(g: Grid)
    requires g.Valid()
    ensures |CapturesBy(g, LAST)| <= 6
  {
    CapturesDisjoint(g.Put(LAST.pos, 1), LAST.pos, 1);
  }

  /** A whole game by the rulebook of two players, on and with red to have moved last, in which blue stands at the winning
      number of four-runs: it had seven, and one capture cut two of its five-runs. */
  lemma ThresholdReachedUnnoticed(now: Time)
    ensures var t := Exec([1, 2], DefaultConfig(2), Acts(PLIES, now));
      && !t.game.Over()
      && CountRuns(t.game.grid, 2, 4) >= t.game.config.align4ToWin == 8
  {
    hide OnCourse, Apply;
    PliesOnCourse(36, now);
    assert Ply(36) == LAST;
    ExecStep([1, 2], DefaultConfig(2), Acts(36, now), Action.PlayMove(LAST, now));
    LastPly(Exec([1, 2], DefaultConfig(2), Acts(36, now)).game, now);
  }
}
