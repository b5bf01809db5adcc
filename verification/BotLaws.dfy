/** What the bot's search is worth in every game that can arise on the standard board. */
module BotLaws {
  import opened Wrappers
  import opened Arith
  import opened Hex
  import opened Boards
  import opened Captures
  import opened Runs
  import opened Engine
  import opened Play
  import opened Laws
  import opened Candidates
  import opened Evaluation
  import opened Search
  import opened Bot

  // ---- Positions that can arise ----

  /** A position of 2 to 6 players on the side-11 board after m accepted moves: stocks in rotation, gems
      conserved, clocks not negative. The history is not mentioned: clones drop it. */
  ghost predicate Sound(g: Game, m: nat) {
    var n := |g.players|;
    && g.Valid() && g.grid.side == DEFAULT_BOARD_SIDE && 2 <= n <= MAX_PLAYERS
    && (!g.Over() ==> g.turn == m % n)
    && (forall i :: 0 <= i < n ==> SoundPlayer(g, m, i))
    && (forall i, j :: 0 <= i < j < n ==> g.players[i].color != g.players[j].color)
    && SumGems(g.players) + |g.grid.Occupied()| + 2 * SumPairs(g.players) == GEMS_PER_PLAYER * n
    && g.config.incrementMs >= 0
  }

  ghost predicate SoundPlayer(g: Game, m: nat, i: nat)
    requires i < |g.players|
  {
    var p := g.players[i];
    && p.color != EMPTY
    && p.gemsRemaining == GEMS_PER_PLAYER - Share(m, i, |g.players|)
    && p.gemsRemaining >= 0
    && p.capturedPairs >= 0
    && (g.ClockEnabled() ==> p.timeRemainingMs >= 0)
  }

  ghost predicate ClocksNotNegative(g: Game) {
    g.ClockEnabled() ==> forall i :: 0 <= i < |g.players| ==> g.players[i].timeRemainingMs >= 0
  }

  lemma {:induction false} ClockLaw(colors: seq<Color>, cfg: Config, acts: seq<Action>)
    requires Playable(colors, cfg) && cfg.incrementMs >= 0
    ensures ClocksNotNegative(Exec(colors, cfg, acts).game)
  {
    if acts != [] {
      ClockLaw(colors, cfg, acts[..|acts| - 1]);
      RosterLaw(colors, cfg, acts[..|acts| - 1]);
      var t := Exec(colors, cfg, acts[..|acts| - 1]);
      var act := acts[|acts| - 1];
      if act.PlayMove? && Refusal(t.game, act.move, act.now) == None {
        MoveKeepsClocks(t.game, act.move, act.now);
      }
    }
  }

  lemma MoveKeepsClocks(g: Game, m: Move, now: Time)
    requires g.Valid() && ClocksNotNegative(g) && g.config.incrementMs >= 0 && Refusal(g, m, now) == None
    ensures ClocksNotNegative(Accept(g, m, now).0)
  {
  }

  lemma ReachableIsSound(colors: seq<Color>, cfg: Config, acts: seq<Action>)
    requires Playable(colors, cfg) && cfg.incrementMs >= 0
    requires cfg.boardSide == DEFAULT_BOARD_SIDE && 2 <= |colors| <= MAX_PLAYERS
    ensures Sound(Exec(colors, cfg, acts).game, |Exec(colors, cfg, acts).log|)
  {
    var t := Exec(colors, cfg, acts);
    RosterLaw(colors, cfg, acts);
    RotationLaw(colors, cfg, acts);
    ConservationLaw(colors, cfg, acts);
    PairsLaw(colors, cfg, acts);
    ClockLaw(colors, cfg, acts);
    forall i | 0 <= i < |colors| ensures SoundPlayer(t.game, |t.log|, i) {
      assert StockOf(t, i, |colors|);
      assert colors[i] in colors;
    }
  }

  // ---- Moves keep positions sound ----

  lemma MoveKeepsTotal(g: Game, m: Move, now: Time)
    requires g.Valid() && Refusal(g, m, now) == None && m.player != EMPTY
    ensures var u := Accept(g, m, now).0;
      SumGems(u.players) + |u.grid.Occupied()| + 2 * SumPairs(u.players)
      == SumGems(g.players) + |g.grid.Occupied()| + 2 * SumPairs(g.players)
  {
    MoveSizes(g.grid, m, m.player);
    SumsUpdate(g.players, g.turn, Scored(Timed(g, g.Current(), now), |CapturesBy(g.grid, m)|));
  }

  lemma AcceptKeepsPlayer(g: Game, mv: Move, now: Time, m: nat, i: nat)
    requires Sound(g, m) && Refusal(g, mv, now) == None && i < |g.players|
    ensures SoundPlayer(Accept(g, mv, now).0, m + 1, i)
  {
    hide CapturesOf, GridAfter, WinOf;
    assert SoundPlayer(g, m, i);
    ShareStep(m, i, |g.players|);
  }

  lemma AcceptKeepsSound(g: Game, mv: Move, now: Time, m: nat)
    requires Sound(g, m) && Refusal(g, mv, now) == None
    ensures Sound(Accept(g, mv, now).0, m + 1)
  {
    hide CapturesOf, GridAfter, WinOf;
    assert SoundPlayer(g, m, g.turn);
    MoveKeepsTotal(g, mv, now);
    GridAfterValid(g.grid, mv);
    NextTurn(m, |g.players|);
    var after, k := Accept(g, mv, now).0, m + 1;
    forall i | 0 <= i < |g.players| ensures SoundPlayer(after, k, i) {
      AcceptKeepsPlayer(g, mv, now, m, i);
    }
  }

  lemma OpponentIsNext(g: Game, h: Game)
    requires g.Valid() && |h.players| == |g.players|
    requires forall i, j :: 0 <= i < j < |g.players| ==> g.players[i].color != g.players[j].color
    requires forall i :: 0 <= i < |g.players| ==> h.players[i].color == g.players[i].color
    ensures OpponentOf(h.players, g.Current().color) == g.players[(g.turn + 1) % |g.players|].color
  {
    NextSeatOf(h.players, g.turn, 0);
  }

  /** An accepted candidate leads to a sound position, seen next by the player who is then to move. */
  lemma TryKeepsSound(g: Game, color: Color, c: Candidate, m: nat)
    requires Sound(g, m) && Try(g, color, c).Ok?
    ensures var after := Try(g, color, c).value.0;
      && Sound(after, m + 1)
      && |after.players| == |g.players|
      && color == g.Current().color
      && (after.Over() || OpponentOf(after.players, color) == after.Current().color)
  {
    hide CapturesOf, GridAfter, WinOf;
    var g0 := g.(history := []);
    assert Sound(g0, m) by {
      forall i | 0 <= i < |g.players| ensures SoundPlayer(g0, m, i) {
        assert SoundPlayer(g, m, i);
      }
    }
    AcceptKeepsSound(g0, Move(color, c.pos), g.turnStartedAt, m);
    OpponentIsNext(g0, Try(g, color, c).value.0);
  }

  // ---- Every evaluation lies strictly inside the extreme scores ----

  lemma {:induction false} RunsByStart(runs: set<Run>, starts: set<Position>)
    requires forall run :: run in runs ==> run.start in starts
    requires forall x, y :: x in runs && y in runs && x.start == y.start ==> x == y
    ensures |runs| <= |starts|
  {
    if run :| run in runs {
      RunsByStart(runs - {run}, starts - {run.start});
    }
  }

  ghost function RunsOn(g: Grid, c: Color, a: Axis): set<Run>
    requires g.Valid()
  {
    set run | run in MaximalRuns(g, c) && run.axis == a
  }

  lemma RunsOnAxisBound(g: Grid, c: Color, a: Axis)
    requires g.Valid()
    ensures |RunsOn(g, c, a)| <= |Positions(g.side)|
  {
    forall run | run in RunsOn(g, c, a) ensures run.start in Positions(g.side) {
      PositionsAreIn(g.side, run.start);
    }
    RunsByStart(RunsOn(g, c, a), Positions(g.side));
  }

  lemma UnionSize<T>(a: set<T>, b: set<T>)
    ensures |a + b| <= |a| + |b|
  {
    assert a + b == a + (b - a) && a !! (b - a);
    Cardinality(b - a, b);
  }

  lemma CountRunsBound(g: Grid, c: Color, length: int)
    requires g.Valid()
    ensures CountRuns(g, c, length) <= 3 * |Positions(g.side)|
  {
    var e, s, n := RunsOn(g, c, East), RunsOn(g, c, SouthEast), RunsOn(g, c, NorthEast);
    RunsOnAxisBound(g, c, East);
    RunsOnAxisBound(g, c, SouthEast);
    RunsOnAxisBound(g, c, NorthEast);
    UnionSize(e, s);
    UnionSize(e + s, n);
    Cardinality(RunsOfLength(g, c, length), e + s + n);
  }

  const MOST_RUNS: nat := 993
  const MOST_WEIGHT: nat := 322_725
  const MOST_PAIRS: nat := 150
  const MOST_PER_OPPONENT: nat := 328_725
  const MOST_CAPTURE_WEIGHT: nat := 1_131_000

  lemma RunWeightBound(g: Grid, c: Color, five: nat, four: nat, three: nat)
    requires g.Valid() && g.side == DEFAULT_BOARD_SIDE && five <= 240 && four <= 70 && three <= 15
    ensures 0 <= RunWeight(g, c, five, four, three) <= MOST_WEIGHT
  {
    HexagonSize(g.side);
    CountRunsBound(g, c, 5);
    CountRunsBound(g, c, 4);
    CountRunsBound(g, c, 3);
    ProductBound(CountRuns(g, c, 5), MOST_RUNS, five, 240);
    ProductBound(CountRuns(g, c, 4), MOST_RUNS, four, 70);
    ProductBound(CountRuns(g, c, 3), MOST_RUNS, three, 15);
  }

  lemma PairsBound(g: Game, m: nat, i: nat)
    requires Sound(g, m) && i < |g.players|
    ensures 0 <= g.players[i].capturedPairs <= MOST_PAIRS
  {
    forall k | 0 <= k < |g.players| ensures g.players[k].capturedPairs >= 0 && g.players[k].gemsRemaining >= 0 {
      assert SoundPlayer(g, m, k);
    }
    SumPairsAtLeast(g.players, i);
    SumGemsAtLeast(g.players, i);
  }

  lemma {:induction false} OppositionBound(g: Game, m: nat, color: Color, k: nat)
    requires Sound(g, m) && k <= |g.players|
    ensures 0 <= Opposition(g, color, k) <= k * MOST_PER_OPPONENT
  {
    hide RunWeight;
    if k > 0 {
      OppositionBound(g, m, color, k - 1);
      RunWeightBound(g.grid, g.players[k - 1].color, 240, 70, 15);
      PairsBound(g, m, k - 1);
    }
  }

  lemma {:induction false} PairsOfBound(g: Game, m: nat, color: Color, i: nat)
    requires Sound(g, m) && i <= |g.players|
    ensures 0 <= PairsOf(g.players, color, i) <= MOST_PAIRS
    decreases |g.players| - i
  {
    if i < |g.players| {
      PairsBound(g, m, i);
      PairsOfBound(g, m, color, i + 1);
    }
  }

  lemma QuotientBound(a: nat, b: int)
    requires b > 0
    ensures 0 <= Quotient(a, b) <= a
  {
    QuotientAtMost(a, b);
  }

  lemma CaptureWeightBound(pairs: nat, toWin: int)
    requires pairs <= MOST_PAIRS
    ensures 0 <= CaptureWeight(pairs, toWin) <= MOST_CAPTURE_WEIGHT
  {
    if toWin > 0 {
      var q := Quotient(50 * pairs, if toWin > 1 then toWin else 1);
      QuotientBound(50 * pairs, if toWin > 1 then toWin else 1);
      ProductBound(pairs, MOST_PAIRS, q, 7500);
    }
  }

  lemma PositionScoreBound(g: Game, m: nat, color: Color)
    requires Sound(g, m)
    ensures MIN_SCORE < PositionScore(g, color) < -MIN_SCORE
  {
    RunWeightBound(g.grid, color, 200, 60, 15);
    PairsOfBound(g, m, color, 0);
    CaptureWeightBound(PairsOf(g.players, color, 0), g.config.capturePairsWin);
    OppositionBound(g, m, color, |g.players|);
  }

  // ---- The search on positions that can arise ----

  lemma {:induction false} TreeInRange(g: Game, m: nat, mover: Color, depth: nat)
    requires Sound(g, m)
    ensures InRange(TreeOf(g, mover, depth))
    decreases depth, 1, 0
  {
    hide PositionScore, Ranked, Try;
    PositionScoreBound(g, m, mover);
    if !g.Over() && depth > 0 {
      KidsInRange(g, m, mover, Ranked(g, mover, INNER_CANDIDATES), depth);
    }
  }

  lemma {:induction false} KidsInRange(g: Game, m: nat, mover: Color, cs: seq<Candidate>, depth: nat)
    requires Sound(g, m) && depth > 0
    ensures forall i :: 0 <= i < |Kids(g, mover, cs, depth)| ==> InRange(Kids(g, mover, cs, depth)[i])
    decreases depth, 0, |cs|
  {
    hide Try, TreeOf;
    if cs != [] {
      KidsInRange(g, m, mover, cs[..|cs| - 1], depth);
      var r := Try(g, mover, cs[|cs| - 1]);
      if r.Ok? {
        TryKeepsSound(g, mover, cs[|cs| - 1], m);
        TreeInRange(r.value.0, m + 1, OpponentOf(r.value.0.players, mover), depth - 1);
      }
    }
  }

  /** In any position that can arise, for any depth: the best root score is the exact value of the search
      without cutoffs, the first move pooled attains it, and no pooled move is worth more. */
  lemma RootIsExact(colors: seq<Color>, cfg: Config, acts: seq<Action>, mover: Color, k: nat, depth: nat)
    requires Playable(colors, cfg) && cfg.incrementMs >= 0 && depth > 0
    requires cfg.boardSide == DEFAULT_BOARD_SIDE && 2 <= |colors| <= MAX_PLAYERS
    ensures var g := Exec(colors, cfg, acts).game;
      var kids := Kids(g, mover, Ranked(g, mover, k), depth);
      var root := RootScan(kids);
      && root.best == BestOf(kids)
      && (kids != [] ==> root.pool != [])
      && (forall j :: 0 <= j < |root.pool| ==> root.pool[j] < |kids| && -Minimax(kids[root.pool[j]]) <= root.best)
      && (root.pool != [] ==> -Minimax(kids[root.pool[0]]) == root.best)
  {
    hide Ranked, Kids;
    var g := Exec(colors, cfg, acts).game;
    ReachableIsSound(colors, cfg, acts);
    KidsInRange(g, |Exec(colors, cfg, acts).log|, mover, Ranked(g, mover, k), depth);
    RootExact(Kids(g, mover, Ranked(g, mover, k), depth));
  }

  lemma {:induction false} KidsAreFlat(g: Game, mover: Color, cs: seq<Candidate>)
    requires g.Valid()
    ensures forall i | 0 <= i < |Kids(g, mover, cs, SEARCH_DEPTH)| :: IsFlat(Kids(g, mover, cs, SEARCH_DEPTH)[i])
  {
    hide Try, Ranked;
    if cs != [] {
      KidsAreFlat(g, mover, cs[..|cs| - 1]);
      var r := Try(g, mover, cs[|cs| - 1]);
      if r.Ok? {
        TreeIsFlat(r.value.0, OpponentOf(r.value.0.players, mover));
      }
    }
  }

  lemma TreeIsFlat(g: Game, mover: Color)
    requires g.Valid()
    ensures IsFlat(TreeOf(g, mover, SEARCH_DEPTH - 1))
  {
    hide Try;
    KidsAreLeaves(g, mover, Ranked(g, mover, INNER_CANDIDATES));
  }

  lemma {:induction false} KidsAreLeaves(g: Game, mover: Color, cs: seq<Candidate>)
    requires g.Valid()
    ensures AllLeaves(Kids(g, mover, cs, SEARCH_DEPTH - 1))
  {
    hide Try, Ranked;
    if cs != [] {
      KidsAreLeaves(g, mover, cs[..|cs| - 1]);
    }
  }

  /** In any position that can arise: a move that the bot pools after the first is worth the best exactly when it is
      looked at no further, or none of the opponent's replies that its search skipped is better for the opponent. */
  lemma PooledMoveExactIff(colors: seq<Color>, cfg: Config, acts: seq<Action>, mover: Color, j: nat)
    requires Playable(colors, cfg) && cfg.incrementMs >= 0
    requires cfg.boardSide == DEFAULT_BOARD_SIDE && 2 <= |colors| <= MAX_PLAYERS
    requires var g := Exec(colors, cfg, acts).game;
      1 <= j < |RootScan(Kids(g, mover, Ranked(g, mover, ROOT_CANDIDATES), SEARCH_DEPTH)).pool|
    ensures var g := Exec(colors, cfg, acts).game;
      var kids := Kids(g, mover, Ranked(g, mover, ROOT_CANDIDATES), SEARCH_DEPTH);
      var root := RootScan(kids);
      root.pool[j] < |kids|
      && var t := kids[root.pool[j]];
         (-Minimax(t) == root.best <==> t.Leaf? || NoBetterReplySkipped(t.kids, root.best))
  {
    hide Exec, Ranked, Kids, RootScan, IsFlat, InRange, NoBetterReplySkipped;
    var g := Exec(colors, cfg, acts).game;
    var kids := Kids(g, mover, Ranked(g, mover, ROOT_CANDIDATES), SEARCH_DEPTH);
    ReachableIsSound(colors, cfg, acts);
    KidsInRange(g, |Exec(colors, cfg, acts).log|, mover, Ranked(g, mover, ROOT_CANDIDATES), SEARCH_DEPTH);
    KidsAreFlat(g, mover, Ranked(g, mover, ROOT_CANDIDATES));
    PooledMovesTie(kids);
    PooledExactIff(kids, j);
  }

  // ---- While gems remain ----

  /** With a gem in stock and its clock not charged, the player to move may take any empty intersection. */
  lemma MoverMayPlay(g: Game, m: nat, c: Candidate)
    requires Sound(g, m) && !g.Over() && m < GEMS_PER_PLAYER * |g.players| && g.grid.Has(c.pos, EMPTY)
    ensures Try(g, g.Current().color, c).Ok?
  {
    hide GridAfter, WinOf, CapturesOf;
    var n := |g.players|;
    assert SoundPlayer(g, m, g.turn);
    ShareSplit(m, g.turn, n);
    QuotientBelow(m, n, GEMS_PER_PLAYER);
    assert ElapsedMs(g.turnStartedAt, g.turnStartedAt) == 0;
  }

  /** As long as `depth` more gems are in stock, the search never meets a player who cannot move: its value is
      the game value of the tree it walks, no artificial floor involved. */
  lemma {:induction false} TreeHealthy(g: Game, m: nat, mover: Color, depth: nat)
    requires Sound(g, m) && m + depth <= GEMS_PER_PLAYER * |g.players|
    requires g.Over() || mover == g.Current().color
    ensures Healthy(TreeOf(g, mover, depth))
    decreases depth, 1, 0
  {
    hide PositionScore, Ranked, Try;
    PositionScoreBound(g, m, mover);
    if !g.Over() && depth > 0 {
      CandidatesAreFree(g, mover, INNER_CANDIDATES);
      KidsHealthy(g, m, Ranked(g, mover, INNER_CANDIDATES), depth);
    }
  }

  lemma {:induction false} KidsHealthy(g: Game, m: nat, cs: seq<Candidate>, depth: nat)
    requires Sound(g, m) && depth > 0 && m + depth <= GEMS_PER_PLAYER * |g.players| && !g.Over()
    requires forall i :: 0 <= i < |cs| ==> g.grid.Has(cs[i].pos, EMPTY)
    ensures |Kids(g, g.Current().color, cs, depth)| == |cs|
    ensures forall i :: 0 <= i < |cs| ==> Healthy(Kids(g, g.Current().color, cs, depth)[i])
    decreases depth, 0, |cs|
  {
    hide Try, TreeOf;
    if cs != [] {
      var mover := g.Current().color;
      KidsHealthy(g, m, cs[..|cs| - 1], depth);
      MoverMayPlay(g, m, cs[|cs| - 1]);
      TryKeepsSound(g, mover, cs[|cs| - 1], m);
      var after := Try(g, mover, cs[|cs| - 1]).value.0;
      TreeHealthy(after, m + 1, OpponentOf(after.players, mover), depth - 1);
    }
  }

  /** For the player to move in a game that is on, with at least two gems left in all stocks together and an empty
      intersection: the bot finds a move, and its best score is the game value of the two-ply tree it looks at. */
  lemma BestMoveIsExact(colors: seq<Color>, cfg: Config, acts: seq<Action>)
    requires Playable(colors, cfg) && cfg.incrementMs >= 0
    requires cfg.boardSide == DEFAULT_BOARD_SIDE && 2 <= |colors| <= MAX_PLAYERS
    requires !Exec(colors, cfg, acts).game.Over()
    requires |Exec(colors, cfg, acts).log| + SEARCH_DEPTH <= GEMS_PER_PLAYER * |colors|
    ensures var g := Exec(colors, cfg, acts).game;
      var kids := Kids(g, g.Current().color, Ranked(g, g.Current().color, ROOT_CANDIDATES), SEARCH_DEPTH);
      && kids != []
      && RootScan(kids).pool != []
      && IsGameValue(Node(kids), RootScan(kids).best)
  {
    hide Ranked, Kids, Try;
    var t := Exec(colors, cfg, acts);
    var g := t.game;
    var mover := g.Current().color;
    var m := |t.log|;
    ReachableIsSound(colors, cfg, acts);
    CandidatesAreFree(g, mover, ROOT_CANDIDATES);
    assert SoundPlayer(g, m, g.turn);
    StockLeft(g, m);
    var p := EmptyCellExists(colors, cfg, acts);
    var cs := Ranked(g, mover, ROOT_CANDIDATES);
    KidsHealthy(g, m, cs, SEARCH_DEPTH);
    var kids := Kids(g, mover, cs, SEARCH_DEPTH);
    HealthyValue(Node(kids));
    RootIsExact(colors, cfg, acts, mover, ROOT_CANDIDATES, SEARCH_DEPTH);
  }

  lemma StockLeft(g: Game, m: nat)
    requires Sound(g, m) && !g.Over() && m < GEMS_PER_PLAYER * |g.players|
    ensures g.Current().gemsRemaining > 0
  {
    var n := |g.players|;
    assert SoundPlayer(g, m, g.turn);
    ShareSplit(m, g.turn, n);
    QuotientBelow(m, n, GEMS_PER_PLAYER);
  }

  // ---- What the search looks at ----

  lemma {:induction false} LegalLists(g: Game, mover: Color, cs: seq<Candidate>, i: nat)
    requires g.Valid() && i < |cs| && Try(g, mover, cs[i]).Ok?
    ensures cs[i].pos in Legal(g, mover, cs)
  {
    hide Try;
    if i < |cs| - 1 {
      LegalLists(g, mover, cs[..|cs| - 1], i);
    }
  }

  /** The root compares every placement that is accepted, save when sixty others go before it in the ranking; at the inner
      level it is twenty. So with at most sixty empty intersections the bot overlooks no move. */
  lemma NoMoveOverlooked(g: Game, mover: Color, p: Position)
    requires g.Valid() && g.grid.Has(p, EMPTY) && Try(g, mover, Candidate(p, ShallowScore(g, p, mover))).Ok?
    ensures var cs := Ranked(g, mover, ROOT_CANDIDATES);
      p in Legal(g, mover, cs) || (|cs| == 60 && forall i | 0 <= i < 60 :: Ahead(cs[i], Candidate(p, ShallowScore(g, p, mover))))
    ensures var cs := Ranked(g, mover, INNER_CANDIDATES);
      p in Legal(g, mover, cs) || (|cs| == 20 && forall i | 0 <= i < 20 :: Ahead(cs[i], Candidate(p, ShallowScore(g, p, mover))))
    ensures |g.grid.Stones(EMPTY)| <= 60 ==> p in Legal(g, mover, Ranked(g, mover, ROOT_CANDIDATES))
  {
    ListedOrBehind(g, mover, p, ROOT_CANDIDATES);
    ListedOrBehind(g, mover, p, INNER_CANDIDATES);
    hide Ranked, Legal, Ahead;
  }

  lemma ListedOrBehind(g: Game, mover: Color, p: Position, k: nat)
    requires g.Valid() && g.grid.Has(p, EMPTY) && Try(g, mover, Candidate(p, ShallowScore(g, p, mover))).Ok?
    ensures var cs := Ranked(g, mover, k);
      p in Legal(g, mover, cs)
      || (|g.grid.Stones(EMPTY)| > k == |cs| && forall i | 0 <= i < |cs| :: Ahead(cs[i], Candidate(p, ShallowScore(g, p, mover))))
  {
    KeepsTheBest(g, mover, k);
    var cs := Ranked(g, mover, k);
    hide Ranked, Legal, Try, ShallowScore, Ahead, EachAhead;
    if Lists(cs, p) {
      var i :| 0 <= i < |cs| && cs[i].pos == p;
      assert cs[i] == Candidate(p, ShallowScore(g, p, mover));
      LegalLists(g, mover, cs, i);
    } else if |cs| == |g.grid.Stones(EMPTY)| {
      AllAreListed(g, mover, cs, p);
    }
  }

  /** As many different empty intersections as there are: none is missing. */
  lemma AllAreListed(g: Game, mover: Color, cs: seq<Candidate>, p: Position)
    requires g.Valid() && g.grid.Has(p, EMPTY) && |cs| == |g.grid.Stones(EMPTY)|
    requires forall i, j :: 0 <= i < j < |cs| ==> cs[i].pos != cs[j].pos
    requires forall i :: 0 <= i < |cs| ==> g.grid.Has(cs[i].pos, EMPTY)
    ensures Lists(cs, p)
  {
    var ps := seq(|cs|, i requires 0 <= i < |cs| => cs[i].pos);
    var listed := set q | q in ps;
    ListSize(ps, listed);
    forall q | q in listed
      ensures q in g.grid.Stones(EMPTY)
    {
      var i :| 0 <= i < |ps| && ps[i] == q;
      assert g.grid.Has(cs[i].pos, EMPTY);
    }
    if p !in listed {
      Cardinality(listed, g.grid.Stones(EMPTY) - {p});
      assert false;
    }
    var i :| 0 <= i < |ps| && ps[i] == p;
    assert cs[i].pos == p;
  }
}
