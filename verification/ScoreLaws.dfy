/** What the bot's scores say: the one-ply score recognizes a win by alignment and puts it at the head of the candidates, and
    the static score of a game that is on stays below a win. */
module ScoreLaws {
  import opened Arith
  import opened Hex
  import opened Boards
  import opened Captures
  import opened Runs
  import opened Engine
  import opened Play
  import opened Cuts
  import opened Laws
  import opened Candidates
  import opened Evaluation
  import opened Bot
  import opened BotLaws

  /** Placing on p gives color a winning alignment. */
  ghost predicate Aligns(g: Game, color: Color, p: Position)
    requires g.Valid() && p in g.grid.cell
  {
    GridAfterValid(g.grid, Move(color, p));
    var h := GridAfter(g.grid, Move(color, p));
    || ContainsRun(h, color, 6)
    || (g.config.align5ToWin > 0 && CountRuns(h, color, 5) >= g.config.align5ToWin)
    || (g.config.align4ToWin > 0 && CountRuns(h, color, 4) >= g.config.align4ToWin)
  }

  // ---- The one-ply score recognizes alignment wins ----

  lemma {:induction false} RayBound(g: Grid, c: Color, p: Position, a: Axis, sense: int)
    requires g.Valid() && (sense == 1 || sense == -1)
    ensures g.Has(p, c) ==> Ray(g, c, p, a, sense) <= if sense == 1 then Room(g.side, p, a) else 2 * g.side - Room(g.side, p, a)
    ensures Ray(g, c, p, a, sense) <= 2 * g.side
    decreases if sense == 1 then Room(g.side, p, a) else 2 * g.side - Room(g.side, p, a)
  {
    if g.Has(p, c) {
      assert In(g.side, p);
      RayBound(g, c, Along(p, a, sense), a, sense);
    }
  }

  lemma {:induction false} BlockBonusBound(g: Grid, p: Position, opp: Color, n: nat)
    requires g.Valid() && g.side == DEFAULT_BOARD_SIDE && n <= |AXES|
    ensures 0 <= BlockBonus(g, p, opp, n) <= n * 15_488
  {
    if n > 0 {
      var a := AXES[n - 1];
      BlockBonusBound(g, p, opp, n - 1);
      RayBound(g, opp, Along(p, a, 1), a, 1);
      RayBound(g, opp, Along(p, a, -1), a, -1);
      var line := Ray(g, opp, Along(p, a, 1), a, 1) + Ray(g, opp, Along(p, a, -1), a, -1);
      hide Ray, BlockBonus;
      ProductBound(line, 44, line, 44);
      BlockBonusStep(g, p, opp, n);
    }
  }

  lemma BlockBonusStep(g: Grid, p: Position, opp: Color, n: nat)
    requires g.Valid() && 0 < n <= |AXES|
    ensures var a := AXES[n - 1];
      var line := Ray(g, opp, Along(p, a, 1), a, 1) + Ray(g, opp, Along(p, a, -1), a, -1);
      BlockBonus(g, p, opp, n) == BlockBonus(g, p, opp, n - 1) + if line >= 3 then line * line * 8 else 0
  {
  }

  lemma LineScoreBound(before: Grid, after: Grid, color: Color, opp: Color)
    requires before.Valid() && after.Valid() && before.side == after.side == DEFAULT_BOARD_SIDE
    ensures LineScore(before, after, color, opp) <= 450 * MOST_RUNS
  {
    HexagonSize(before.side);
    CountRunsBound(before, opp, 5);
    CountRunsBound(before, opp, 4);
    CountRunsBound(after, color, 5);
    CountRunsBound(after, color, 4);
    hide CountRuns;
  }

  /** A placement scores within two points of a win exactly when it wins by alignment. */
  lemma ShallowScoreIff(g: Game, p: Position, color: Color)
    requires g.Valid() && g.grid.side == DEFAULT_BOARD_SIDE && p in g.grid.cell
    ensures ShallowScore(g, p, color) >= WIN_SCORE - 2 <==> Aligns(g, color, p)
  {
    var m := Move(color, p);
    GridAfterValid(g.grid, m);
    CapturesDisjoint(g.grid.Put(p, color), p, color);
    var h, opp := GridAfter(g.grid, m), OpponentOf(g.players, color);
    LineScoreBound(g.grid, h, color, opp);
    BlockBonusBound(g.grid, p, opp, |AXES|);
    hide GridAfter, CountRuns, LineScore, BlockBonus, CapturesOf, ContainsRun;
  }

  // ---- So such a move leads the candidates ----

  lemma {:induction false} FreeCellsScored(g: Game, mover: Color, ps: seq<Position>, p: Position)
    requires g.Valid()
    ensures forall c | c in FreeCells(g, mover, ps) :: g.grid.Has(c.pos, EMPTY) && c.score == ShallowScore(g, c.pos, mover)
    ensures p in ps && g.grid.Has(p, EMPTY) ==> Candidate(p, ShallowScore(g, p, mover)) in FreeCells(g, mover, ps)
  {
    hide ShallowScore;
    if ps != [] {
      FreeCellsScored(g, mover, ps[..|ps| - 1], p);
      assert ps == ps[..|ps| - 1] + [ps[|ps| - 1]];
    }
  }

  lemma RankingHolds(s: seq<Candidate>, c: Candidate)
    ensures c in Ranking(s) <==> c in s
  {
    RankingIsStableSort(s, 0);
    hide Ranking;
    assert c in multiset(Ranking(s)) <==> c in multiset(s);
  }

  /** When some placement wins by alignment, the first candidate does. */
  lemma FirstCandidateAligns(g: Game, mover: Color, k: nat, p: Position)
    requires g.Valid() && g.grid.side == DEFAULT_BOARD_SIDE && k > 0 && g.grid.Has(p, EMPTY) && Aligns(g, mover, p)
    ensures var cs := Ranked(g, mover, k);
      cs != [] && g.grid.Has(cs[0].pos, EMPTY) && Aligns(g, mover, cs[0].pos)
  {
    hide ShallowScore, Aligns, Ranking, FreeCells, Scanned;
    var r := g.grid.side - 1;
    var all := FreeCells(g, mover, Scanned(r, r + 1, -r));
    assert In(g.grid.side, p);
    ScannedExactly(r, r + 1, -r, p);
    FreeCellsScored(g, mover, Scanned(r, r + 1, -r), p);
    var c := Candidate(p, ShallowScore(g, p, mover));
    ShallowScoreIff(g, p, mover);
    RankingHolds(all, c);
    RankingIsStableSort(all, 0);
    var i :| 0 <= i < |Ranking(all)| && Ranking(all)[i] == c;
    var first := Ranking(all)[0];
    RankingHolds(all, first);
    assert first.score >= c.score;
    ShallowScoreIff(g, first.pos, mover);
  }

  // ---- Static scores of positions that are on ----

  lemma TryKeepsPairsQuiet(g: Game, mover: Color, c: Candidate)
    requires g.Valid() && PairsQuiet(g) && Try(g, mover, c).Ok? && !Try(g, mover, c).value.0.Over()
    ensures PairsQuiet(Try(g, mover, c).value.0)
  {
    hide GridAfter, CapturesBy, ContainsRun, CountRuns;
  }

  lemma {:induction false} PairsOfQuiet(g: Game, color: Color, i: nat)
    requires PairsQuiet(g) && g.config.capturePairsWin > 0 && i <= |g.players|
    ensures PairsOf(g.players, color, i) < g.config.capturePairsWin
    decreases |g.players| - i
  {
    if i < |g.players| {
      PairsOfQuiet(g, color, i + 1);
    }
  }

  lemma QuietCaptureWeight(pairs: nat, toWin: int)
    requires pairs <= MOST_PAIRS && (toWin > 0 ==> pairs < toWin)
    ensures CaptureWeight(pairs, toWin) <= 90 * MOST_PAIRS
  {
    if toWin > 0 {
      QuotientRemainder(50 * pairs, toWin);
      var q := 50 * pairs / toWin;
      if q > 50 {
        MulMonotone(51, q, toWin);
      }
      if q < 0 {
        MulMonotone(q, -1, toWin);
      }
      ProductBound(pairs, MOST_PAIRS, q, 50);
    }
  }

  lemma StaticScoreBelowWin(g: Game, m: nat, color: Color)
    requires Sound(g, m) && PairsQuiet(g)
    ensures PositionScore(g, color) < WIN_SCORE
  {
    RunWeightBound(g.grid, color, 200, 60, 15);
    PairsOfBound(g, m, color, 0);
    if g.config.capturePairsWin > 0 {
      PairsOfQuiet(g, color, 0);
    }
    QuietCaptureWeight(PairsOf(g.players, color, 0), g.config.capturePairsWin);
    OppositionBound(g, m, color, |g.players|);
    hide RunWeight, Opposition, PairsOf, CaptureWeight;
  }

  // ---- What the other placements score ----

  lemma OneStepOn(p: Position, a: Axis, sense: int, i: int)
    requires sense == 1 || sense == -1
    ensures Along(Along(p, a, sense), a, sense * (i - 1)) == Along(p, a, sense * i)
  {
  }

  /** A ray of n cells: they carry the colour, and the next one does not. */
  lemma {:induction false} RayIsSegment(g: Grid, c: Color, p: Position, a: Axis, sense: int)
    requires g.Valid() && (sense == 1 || sense == -1)
    ensures var n := Ray(g, c, p, a, sense);
      (forall i | 0 <= i < n :: g.Has(Along(p, a, sense * i), c)) && !g.Has(Along(p, a, sense * n), c)
    decreases if sense == 1 then Room(g.side, p, a) else 2 * g.side - Room(g.side, p, a)
  {
    assert Along(p, a, 0) == p;
    if g.Has(p, c) {
      assert In(g.side, p);
      var next := Along(p, a, sense);
      RayIsSegment(g, c, next, a, sense);
      var n := Ray(g, c, p, a, sense);
      hide Ray, Along;
      OneStepOn(p, a, sense, n);
      forall i | 0 <= i < n
        ensures g.Has(Along(p, a, sense * i), c)
      {
        OneStepOn(p, a, sense, i);
      }
    }
  }

  /** How many stones of opp stand in an unbroken line on both sides of p together. */
  ghost function LineThrough(g: Grid, p: Position, opp: Color, a: Axis): nat
    requires g.Valid()
  {
    Ray(g, opp, Along(p, a, 1), a, 1) + Ray(g, opp, Along(p, a, -1), a, -1)
  }

  /** What standing in the way of a line of this length is worth. */
  function BlockWorth(line: nat): nat {
    if line < 3 then 0 else 8 * line * line
  }

  lemma BlockBonusGrows(g: Grid, p: Position, opp: Color, n: nat)
    requires g.Valid() && 0 < n <= |AXES|
    ensures BlockBonus(g, p, opp, n) == BlockBonus(g, p, opp, n - 1) + BlockWorth(LineThrough(g, p, opp, AXES[n - 1]))
  {
    BlockBonusStep(g, p, opp, n);
    WorthIs(LineThrough(g, p, opp, AXES[n - 1]));
    hide Ray, BlockBonus, BlockWorth, Along;
  }

  lemma WorthIs(line: nat)
    ensures BlockWorth(line) == if line >= 3 then line * line * 8 else 0
  {
  }

  lemma BlockBonusIs(g: Grid, p: Position, opp: Color)
    requires g.Valid()
    ensures BlockBonus(g, p, opp, |AXES|) == BlockWorth(LineThrough(g, p, opp, East)) + BlockWorth(LineThrough(g, p, opp, SouthEast))
                                           + BlockWorth(LineThrough(g, p, opp, NorthEast))
  {
    assert BlockBonus(g, p, opp, 0) == 0;
    hide BlockBonus, BlockWorth, LineThrough;
    BlockBonusGrows(g, p, opp, 3);
    BlockBonusGrows(g, p, opp, 2);
    BlockBonusGrows(g, p, opp, 1);
    assert AXES[0] == East && AXES[1] == SouthEast && AXES[2] == NorthEast;
  }

  /** How a placement changes a colour's number of runs of a length. */
  ghost function Gained(g: Grid, m: Move, c: Color, len: int): int
    requires g.Valid() && m.pos in g.cell
  {
    GridAfterValid(g, m);
    CountRuns(GridAfter(g, m), c, len) - CountRuns(g, c, len)
  }

  /** What a placement that does not win by alignment scores where no opponent has six in line: its own fives and fours, the
      opponent's fives that it breaks, the opponent's fours by the balance of its captures, the lines that it blocks, its
      captures, and how near the centre it is. */
  lemma PlacementScore(g: Game, p: Position, color: Color)
    requires g.Valid() && g.grid.Has(p, EMPTY) && !Aligns(g, color, p)
    requires var opp := OpponentOf(g.players, color); opp != EMPTY && opp != color && !ContainsRun(g.grid, opp, 6)
    ensures var m, opp := Move(color, p), OpponentOf(g.players, color);
      ShallowScore(g, p, color) ==
        120 * Gained(g.grid, m, color, 5) + 30 * Gained(g.grid, m, color, 4)
        - 240 * Gained(g.grid, m, opp, 5) - 60 * FourBalance(g.grid, m, opp)
        + BlockWorth(LineThrough(g.grid, p, opp, East)) + BlockWorth(LineThrough(g.grid, p, opp, SouthEast))
        + BlockWorth(LineThrough(g.grid, p, opp, NorthEast))
        + 80 * |CapturesBy(g.grid, m)| + 10 - HexDistance(p, Position(0, 0))
  {
    var m, opp := Move(color, p), OpponentOf(g.players, color);
    FourRunsAfter(g.grid, m, opp);
    BlockBonusIs(g.grid, p, opp);
    hide GridAfter, CountRuns, BlockBonus, CapturesOf, ContainsRun, FourBalance, LineThrough, BlockWorth;
  }

  // ---- The opening ----

  lemma NoStonesOfAnyone(g: Grid, c: Color)
    requires g.side >= 1 && g == EmptyGrid(g.side) && c != EMPTY
    ensures g.Stones(c) == {} && g.Occupied() == {}
  {
  }

  lemma NoLinesYet(g: Grid, p: Position, opp: Color, a: Axis)
    requires g.side >= 1 && g == EmptyGrid(g.side) && opp != EMPTY
    ensures LineThrough(g, p, opp, a) == 0
  {
  }

  lemma NoRunsYet(g: Grid, c: Color)
    requires g.Valid() && |g.Stones(c)| <= 1
    ensures !ContainsRun(g, c, 6) && CountRuns(g, c, 5) == 0 && CountRuns(g, c, 4) == 0
  {
    OneStoneNoRun(g, c, 6);
    OneStoneNoRun(g, c, 5);
    OneStoneNoRun(g, c, 4);
  }

  /** A first stone makes no line, breaks none, blocks none and captures nothing. */
  lemma OpeningScore(g: Game, p: Position, color: Color)
    requires g.Valid() && g.grid == EmptyGrid(g.grid.side) && In(g.grid.side, p) && color != EMPTY
    requires var opp := OpponentOf(g.players, color); opp != EMPTY && opp != color
    ensures ShallowScore(g, p, color) == 10 - HexDistance(p, Position(0, 0))
  {
    var m, opp := Move(color, p), OpponentOf(g.players, color);
    assert g.grid.Has(p, EMPTY);
    GridAfterValid(g.grid, m);
    NoStonesOfAnyone(g.grid, color);
    NoStonesOfAnyone(g.grid, opp);
    MoveSizes(g.grid, m, color);
    MoveSizes(g.grid, m, opp);
    NoRunsYet(GridAfter(g.grid, m), color);
    NoRunsYet(GridAfter(g.grid, m), opp);
    NoRunsYet(g.grid, color);
    NoRunsYet(g.grid, opp);
    NoLinesYet(g.grid, p, opp, East);
    NoLinesYet(g.grid, p, opp, SouthEast);
    NoLinesYet(g.grid, p, opp, NorthEast);
    BlockBonusIs(g.grid, p, opp);
    assert |CapturesBy(g.grid, m)| == 0;
    hide GridAfter, CountRuns, BlockBonus, CapturesOf, ContainsRun, LineThrough;
  }

  lemma CentreIsNearest(p: Position)
    ensures HexDistance(p, Position(0, 0)) >= 0
    ensures HexDistance(p, Position(0, 0)) == 0 <==> p == Position(0, 0)
  {
  }

  lemma FirstIsBest(g: Game, mover: Color, k: nat, p: Position)
    requires g.Valid() && k > 0 && g.grid.Has(p, EMPTY)
    ensures var cs := Ranked(g, mover, k);
      cs != [] && (cs[0].pos == p || Ahead(cs[0], Candidate(p, ShallowScore(g, p, mover))))
  {
    KeepsTheBest(g, mover, k);
    assert p in g.grid.Stones(EMPTY);
    hide Ranked, ShallowScore;
    var cs := Ranked(g, mover, k);
    if i :| 0 <= i < |cs| && cs[i].pos == p {
      assert cs[i] == Candidate(p, ShallowScore(g, p, mover));
    }
  }

  /** The board is the ball around its centre, so the score prefers inner rings. */
  lemma BoardIsBall(side: int, p: Position)
    ensures In(side, p) <==> HexDistance(p, Position(0, 0)) <= side - 1
  {
  }

  /** A bot that opens the game ranks the centre first. */
  lemma OpeningIsCentre(colors: seq<Color>, cfg: Config, k: nat)
    requires Playable(colors, cfg) && |colors| >= 2 && k > 0
    ensures var cs := Ranked(NewGame(colors, cfg), colors[0], k);
      cs != [] && cs[0] == Candidate(Position(0, 0), 10)
  {
    var g, centre := NewGame(colors, cfg), Position(0, 0);
    NextSeatOf(g.players, 0, 0);
    assert colors[0] in colors && colors[1] in colors;
    assert OpponentOf(g.players, colors[0]) == colors[1];
    assert g.grid.Has(centre, EMPTY) && centre in g.grid.Stones(EMPTY);
    KeepsTheBest(g, colors[0], k);
    var cs := Ranked(g, colors[0], k);
    hide Ranked, ShallowScore, NewGame;
    OpeningScore(g, centre, colors[0]);
    OpeningScore(g, cs[0].pos, colors[0]);
    CentreIsNearest(centre);
    CentreIsNearest(cs[0].pos);
    FirstIsBest(g, colors[0], k, centre);
  }

  // ---- The static score ----

  /** The weight of a player's stones and captured pairs in the eyes of a rival. */
  ghost function Threat(g: Game, i: nat): int
    requires g.Valid() && i < |g.players|
  {
    240 * CountRuns(g.grid, g.players[i].color, 5) + 70 * CountRuns(g.grid, g.players[i].color, 4)
    + 15 * CountRuns(g.grid, g.players[i].color, 3) + 40 * g.players[i].capturedPairs
  }

  /** The race for captures: the pairs so far, weighted by half the percentage of the way to a win. */
  function Race(pairs: nat, toWin: int): nat {
    if toWin <= 0 then 0 else pairs * (50 * pairs / toWin)
  }

  lemma RaceIs(pairs: nat, toWin: int)
    ensures CaptureWeight(pairs, toWin) == 40 * pairs + Race(pairs, toWin)
  {
  }

  /** In a game of two: own runs and captures, the race for captures, less what the other player's weigh, which counts fives
      and fours for more than one's own. */
  lemma StaticScoreOfTwo(g: Game, me: nat)
    requires g.Valid() && |g.players| == 2 && me < 2 && g.players[0].color != g.players[1].color && g.players[me].capturedPairs >= 0
    ensures PositionScore(g, g.players[me].color) ==
      200 * CountRuns(g.grid, g.players[me].color, 5) + 60 * CountRuns(g.grid, g.players[me].color, 4)
      + 15 * CountRuns(g.grid, g.players[me].color, 3)
      + 40 * g.players[me].capturedPairs + Race(g.players[me].capturedPairs, g.config.capturePairsWin)
      - Threat(g, 1 - me)
  {
    var c := g.players[me].color;
    RaceIs(g.players[me].capturedPairs, g.config.capturePairsWin);
    assert PairsOf(g.players, c, 0) == g.players[me].capturedPairs;
    assert Opposition(g, c, 2) == Opposition(g, c, 1) + if me == 1 then 0 else Threat(g, 1);
    assert Opposition(g, c, 1) == if me == 0 then 0 else Threat(g, 0);
    hide CountRuns, Race, CaptureWeight;
  }

  /** Every rival counts: a rival's extra pair costs 40 points, and one's own gains at least as much. */
  lemma {:induction false} OppositionPair(g: Game, i: nat, c: Color, k: nat)
    requires g.Valid() && i < |g.players| && k <= |g.players|
    ensures var h := g.(players := g.players[i := g.players[i].(capturedPairs := g.players[i].capturedPairs + 1)]);
      Opposition(h, c, k) == Opposition(g, c, k) + if i < k && g.players[i].color != c then 40 else 0
  {
    hide RunWeight;
    if k > 0 {
      OppositionPair(g, i, c, k - 1);
    }
  }

  lemma {:induction false} PairsOfPair(players: seq<Player>, i: nat, c: Color, k: nat)
    requires i < |players| && k <= |players| && forall j | 0 <= j < |players| && j != i :: players[j].color != players[i].color
    ensures var more := players[i := players[i].(capturedPairs := players[i].capturedPairs + 1)];
      PairsOf(more, c, k) == PairsOf(players, c, k) + if players[i].color == c && k <= i then 1 else 0
    decreases |players| - k
  {
    if k < |players| {
      PairsOfPair(players, i, c, k + 1);
    }
  }

  /** In a game of any size, a pair captured by a rival costs exactly 40 points, and one's own is worth 40 and its part in
      the race. */
  lemma PairsCount(g: Game, i: nat, c: Color)
    requires g.Valid() && i < |g.players| && forall j | 0 <= j < |g.players| && j != i :: g.players[j].color != g.players[i].color
    requires g.players[i].capturedPairs >= 0 && PairsOf(g.players, c, 0) >= 0
    ensures var h := g.(players := g.players[i := g.players[i].(capturedPairs := g.players[i].capturedPairs + 1)]);
      PositionScore(h, c) == PositionScore(g, c) +
        if g.players[i].color != c then -40
        else 40 + Race(PairsOf(g.players, c, 0) + 1, g.config.capturePairsWin) - Race(PairsOf(g.players, c, 0), g.config.capturePairsWin)
  {
    OppositionPair(g, i, c, |g.players|);
    PairsOfPair(g.players, i, c, 0);
    RaceIs(PairsOf(g.players, c, 0), g.config.capturePairsWin);
    RaceIs(PairsOf(g.players, c, 0) + 1, g.config.capturePairsWin);
    hide RunWeight, Opposition, CaptureWeight, Race, PairsOf;
  }
}
