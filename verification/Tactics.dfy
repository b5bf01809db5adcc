/** What the bot's scores are for: it never passes over a win by alignment. The one-ply score puts such a move at the head
    of the candidates, and the search prefers it to every move that does not end the game at once. */
module Tactics {
  import opened Hex
  import opened Boards
  import opened Runs
  import opened Engine
  import opened Play
  import opened Laws
  import opened Candidates
  import opened Evaluation
  import opened Search
  import opened Bot
  import opened BotLaws
  import opened ScoreLaws

  // ---- And the search prefers it ----

  /** A first kid's score bounds the scan from below, whatever the window. */
  lemma {:induction false} ScanAtLeastFirst(kids: seq<Tree>, alpha: int, beta: int)
    requires kids != [] && kids[0].Leaf?
    ensures Scan(kids, alpha, beta).best >= -kids[0].value
  {
    var rest := kids[..|kids| - 1];
    if rest == [] {
      assert Scan(rest, alpha, beta) == Progress(MIN_SCORE, alpha, false);
    } else {
      ScanAtLeastFirst(rest, alpha, beta);
    }
  }

  /** An immediate win for the player who moved here. */
  predicate Wins(t: Tree) {
    t == Leaf(-WIN_SCORE)
  }

  /** Not a win at once: whatever the window, its score stays below a win. */
  ghost predicate Undecided(t: Tree) {
    forall alpha, beta :: -AlphaBeta(t, alpha, beta) < WIN_SCORE
  }

  lemma UndecidedIsNoWin(t: Tree)
    requires Undecided(t)
    ensures !Wins(t)
  {
    assert -AlphaBeta(t, 0, 1) < WIN_SCORE;
  }

  /** Among kids that win at once or stay undecided, every pooled one wins when there is one that does. */
  lemma {:induction false} RootPrefersWins(kids: seq<Tree>)
    requires forall i :: 0 <= i < |kids| ==> Wins(kids[i]) || Undecided(kids[i])
    ensures var root := RootScan(kids);
      && (root.best == WIN_SCORE || root.best < WIN_SCORE)
      && ((exists i :: 0 <= i < |kids| && Wins(kids[i])) ==> root.best == WIN_SCORE && root.pool != [])
      && (root.best == WIN_SCORE ==> forall j | 0 <= j < |root.pool| :: root.pool[j] < |kids| && Wins(kids[root.pool[j]]))
  {
    if kids != [] {
      var n := |kids| - 1;
      RootPrefersWins(kids[..n]);
      var before := RootScan(kids[..n]);
      assert forall i | 0 <= i < n :: kids[..n][i] == kids[i];
      assert Wins(kids[n]) ==> -AlphaBeta(kids[n], MIN_SCORE, -before.alpha) == WIN_SCORE;
      assert Undecided(kids[n]) ==> -AlphaBeta(kids[n], MIN_SCORE, -before.alpha) < WIN_SCORE;
      if i :| 0 <= i < |kids| && Wins(kids[i]) {
        assert i < n ==> Wins(kids[..n][i]);
      }
    }
  }

  // ---- Moves that end the game at once, and those that do not ----

  /** What an accepted try leads to when it ends the game: its mover has won. */
  lemma TryEnds(g: Game, mover: Color, c: Candidate)
    requires g.Valid() && Try(g, mover, c).Ok?
    ensures var h := Try(g, mover, c).value.0;
      mover == g.Current().color && |h.players| == |g.players| && h.config == g.config && (h.Over() ==> h.winner == mover)
    ensures mover != EMPTY && Aligns(g, mover, c.pos) ==> Try(g, mover, c).value.0.Over()
  {
    hide CapturesBy, CountRuns, ContainsRun;
    GridAfterValid(g.grid, Move(mover, c.pos));
    hide GridAfter;
  }

  /** The seat after a player's is another's. */
  lemma NextIsAnother(g: Game, h: Game, m: nat)
    requires Sound(g, m) && |h.players| == |g.players|
    requires forall i :: 0 <= i < |g.players| ==> h.players[i].color == g.players[i].color
    ensures OpponentOf(h.players, g.Current().color) != g.Current().color
  {
    OpponentIsNext(g, h);
    var next := (g.turn + 1) % |g.players|;
    assert next != g.turn;
  }

  lemma TryKeepsColors(g: Game, mover: Color, c: Candidate)
    requires g.Valid() && Try(g, mover, c).Ok?
    ensures var h := Try(g, mover, c).value.0;
      |h.players| == |g.players| && forall i :: 0 <= i < |g.players| ==> h.players[i].color == g.players[i].color
  {
    hide GridAfter, CapturesBy, WinOf;
  }

  /** The tree of a try: a win at once for its mover, or the opponent's tree. */
  lemma TryTree(g: Game, m: nat, mover: Color, c: Candidate, depth: nat)
    requires Sound(g, m) && Try(g, mover, c).Ok?
    ensures var h := Try(g, mover, c).value.0;
      h.Over() ==> Wins(TreeOf(h, OpponentOf(h.players, mover), depth))
  {
    TryEnds(g, mover, c);
    TryKeepsColors(g, mover, c);
    assert SoundPlayer(g, m, g.turn) || g.Over();
    NextIsAnother(g, Try(g, mover, c).value.0, m);
    hide Try;
  }

  /** A reply's leaf is worth less than a win to the player after the replier. */
  lemma ReplyIsNoWin(g: Game, m: nat, replier: Color, c: Candidate)
    requires Sound(g, m) && PairsQuiet(g) && Try(g, replier, c).Ok?
    ensures var h := Try(g, replier, c).value.0;
      var t := TreeOf(h, OpponentOf(h.players, replier), 0);
      t.Leaf? && t.value < WIN_SCORE
  {
    hide Try, PositionScore;
    TryKeepsSound(g, replier, c, m);
    var h := Try(g, replier, c).value.0;
    if h.Over() {
      TryTree(g, m, replier, c, 0);
    } else {
      TryKeepsPairsQuiet(g, replier, c);
      StaticScoreBelowWin(h, m + 1, OpponentOf(h.players, replier));
    }
  }

  /** A side-11 board never fills up: there are fewer gems than intersections. */
  lemma NeverFull(g: Game, m: nat) returns (p: Position)
    requires Sound(g, m)
    ensures g.grid.Has(p, EMPTY)
  {
    var t := g.grid;
    forall i | 0 <= i < |g.players| ensures g.players[i].gemsRemaining >= 0 && g.players[i].capturedPairs >= 0 {
      assert SoundPlayer(g, m, i);
    }
    SumGemsAtLeast(g.players, 0);
    SumPairsAtLeast(g.players, 0);
    HexagonSize(t.side);
    p := StrictlyMore(t.Occupied(), Positions(t.side));
    PositionsAreIn(t.side, p);
  }

  lemma FirstKid(g: Game, m: nat, cs: seq<Candidate>, depth: nat)
    requires Sound(g, m) && !g.Over() && cs != [] && depth > 0 && Try(g, g.Current().color, cs[0]).Ok?
    ensures var mover := g.Current().color;
      var h := Try(g, mover, cs[0]).value.0;
      var kids := Kids(g, mover, cs, depth);
      kids != [] && kids[0] == TreeOf(h, OpponentOf(h.players, mover), depth - 1)
  {
    hide Try, TreeOf;
    KidsPrefix(g, g.Current().color, cs, 1, depth);
    assert cs[..1][..0] == [] && cs[..1][0] == cs[0];
  }

  /** A position that is on, with a gem left: the search one ply deep never takes it for a win of the player who moved. */
  lemma OnIsUndecided(g: Game, m: nat)
    requires Sound(g, m) && PairsQuiet(g) && !g.Over() && m < GEMS_PER_PLAYER * |g.players|
    ensures Undecided(TreeOf(g, g.Current().color, 1))
  {
    var mover := g.Current().color;
    var cs := Ranked(g, mover, INNER_CANDIDATES);
    var p := NeverFull(g, m);
    CandidatesAreFree(g, mover, INNER_CANDIDATES);
    assert cs != [];
    MoverMayPlay(g, m, cs[0]);
    FirstKid(g, m, cs, 1);
    ReplyIsNoWin(g, m, mover, cs[0]);
    var kids := Kids(g, mover, cs, 1);
    assert TreeOf(g, mover, 1) == Node(kids);
    hide Try, TreeOf, Ranked, Kids;
    forall alpha, beta
      ensures -AlphaBeta(Node(kids), alpha, beta) < WIN_SCORE
    {
      ScanAtLeastFirst(kids, alpha, beta);
    }
  }

  /** Each kid of the root wins at once or stays undecided, and belongs to the legal move in its place. */
  lemma {:induction false} KidsWinOrNot(g: Game, m: nat, cs: seq<Candidate>)
    requires Sound(g, m) && PairsQuiet(g) && !g.Over() && m + SEARCH_DEPTH <= GEMS_PER_PLAYER * |g.players|
    ensures var mover := g.Current().color;
      var kids, moves := Kids(g, mover, cs, SEARCH_DEPTH), Legal(g, mover, cs);
      && |moves| == |kids|
      && forall i | 0 <= i < |kids| ::
        (Wins(kids[i]) && WonBy(g, moves[i])) || (!Wins(kids[i]) && Undecided(kids[i]))
  {
    hide Try, TreeOf, Undecided, WonBy;
    var mover := g.Current().color;
    if cs != [] {
      KidsWinOrNot(g, m, cs[..|cs| - 1]);
      var c := cs[|cs| - 1];
      if Try(g, mover, c).Ok? {
        KidWinsOrNot(g, m, c);
      }
    }
  }

  /** The accepted placement on p ends the game in its mover's favour. */
  ghost predicate WonBy(g: Game, p: Position)
    requires g.Valid()
  {
    var r := Apply(g.(history := []), Move(g.Current().color, p), g.turnStartedAt);
    r.Ok? && r.value.0.Over() && r.value.0.winner == g.Current().color
  }

  lemma KidWinsOrNot(g: Game, m: nat, c: Candidate)
    requires Sound(g, m) && PairsQuiet(g) && !g.Over() && m + SEARCH_DEPTH <= GEMS_PER_PLAYER * |g.players|
    requires Try(g, g.Current().color, c).Ok?
    ensures var mover := g.Current().color;
      var h := Try(g, mover, c).value.0;
      var t := TreeOf(h, OpponentOf(h.players, mover), SEARCH_DEPTH - 1);
      (Wins(t) && WonBy(g, c.pos)) || (!Wins(t) && Undecided(t))
  {
    hide Apply, TreeOf;
    var mover := g.Current().color;
    TryKeepsSound(g, mover, c, m);
    TryEnds(g, mover, c);
    var h := Try(g, mover, c).value.0;
    if h.Over() {
      TryTree(g, m, mover, c, SEARCH_DEPTH - 1);
    } else {
      TryKeepsPairsQuiet(g, mover, c);
      OnIsUndecided(h, m + 1);
      UndecidedIsNoWin(TreeOf(h, OpponentOf(h.players, mover), SEARCH_DEPTH - 1));
    }
  }

  /** The clone's game and the live one end alike, whatever the clock says when the move is really made. */
  lemma WonLive(g: Game, p: Position, now: Time)
    requires g.Valid() && WonBy(g, p) && Apply(g, Move(g.Current().color, p), now).Ok?
    ensures var h := Apply(g, Move(g.Current().color, p), now).value.0; h.Over() && h.winner == g.Current().color
  {
    hide GridAfter, CapturesBy, CountRuns, ContainsRun;
  }

  /** The game is on with gems for the search's plies, and the player to move wins by alignment on p. */
  ghost predicate CanAlign(t: Trace, p: Position) {
    && t.game.Valid() && !t.game.Over() && |t.log| + SEARCH_DEPTH <= GEMS_PER_PLAYER * |t.game.players|
    && t.game.grid.Has(p, EMPTY) && Aligns(t.game, t.game.Current().color, p)
  }

  /** Playing on q at any time at which it is accepted wins the game for the player to move. */
  ghost predicate WinsLive(g: Game, q: Position)
    requires g.Valid()
  {
    forall now :: Apply(g, Move(g.Current().color, q), now).Ok? ==>
      (var h := Apply(g, Move(g.Current().color, q), now).value.0; h.Over() && h.winner == g.Current().color)
  }

  lemma WonIsWonLive(g: Game, q: Position)
    requires g.Valid() && WonBy(g, q)
    ensures WinsLive(g, q)
  {
    hide Apply, WonBy;
    forall now | Apply(g, Move(g.Current().color, q), now).Ok?
      ensures var h := Apply(g, Move(g.Current().color, q), now).value.0; h.Over() && h.winner == g.Current().color
    {
      WonLive(g, q, now);
    }
  }

  /** In any position that can arise, on and with two gems left in all: when the player to move has a placement that wins
      by alignment, the bot has a choice, and every move it may choose wins the game at once. */
  lemma {:induction false} WinIsTaken(colors: seq<Color>, cfg: Config, acts: seq<Action>, p: Position)
    requires Playable(colors, cfg) && cfg.incrementMs >= 0
    requires cfg.boardSide == DEFAULT_BOARD_SIDE && 2 <= |colors| <= MAX_PLAYERS
    ensures var g := Exec(colors, cfg, acts).game;
      CanAlign(Exec(colors, cfg, acts), p) ==>
        Choices(g, g.Current().color) != [] && forall q | q in Choices(g, g.Current().color) :: WinsLive(g, q)
  {
    hide Exec, Aligns, Apply, WonBy, Sound, WinsLive, Choices;
    var t := Exec(colors, cfg, acts);
    if CanAlign(t, p) {
      RosterLaw(colors, cfg, acts);
      ReachableIsSound(colors, cfg, acts);
      QuietLaw(colors, cfg, acts);
      ChoicesWin(t.game, |t.log|, p);
    }
  }

  lemma {:induction false} ChoicesWin(g: Game, m: nat, p: Position)
    requires Sound(g, m) && PairsQuiet(g) && !g.Over() && m + SEARCH_DEPTH <= GEMS_PER_PLAYER * |g.players|
    requires g.grid.Has(p, EMPTY) && Aligns(g, g.Current().color, p)
    ensures Choices(g, g.Current().color) != [] && forall q | q in Choices(g, g.Current().color) :: WinsLive(g, q)
  {
    hide Ranked, Kids, Legal, Try, Apply, RootScan, Aligns, WonBy, WinsLive;
    var cs := Ranked(g, g.Current().color, ROOT_CANDIDATES);
    FirstCandidateAligns(g, g.Current().color, ROOT_CANDIDATES, p);
    WinIsPooled(g, m, cs, 0);
    forall j | 0 <= j < |Choices(g, g.Current().color)|
      ensures WinsLive(g, Choices(g, g.Current().color)[j])
    {
      WinIsPooled(g, m, cs, j);
      WonIsWonLive(g, Choices(g, g.Current().color)[j]);
    }
  }

  lemma {:induction false} WinIsPooled(g: Game, m: nat, cs: seq<Candidate>, j: nat)
    requires Sound(g, m) && PairsQuiet(g) && !g.Over() && m + SEARCH_DEPTH <= GEMS_PER_PLAYER * |g.players|
    requires cs != [] && g.grid.Has(cs[0].pos, EMPTY) && Aligns(g, g.Current().color, cs[0].pos)
    ensures var moves := Legal(g, g.Current().color, cs);
      var pool := RootScan(Kids(g, g.Current().color, cs, SEARCH_DEPTH)).pool;
      pool != [] && (j < |pool| ==> pool[j] < |moves| && WonBy(g, moves[pool[j]]))
  {
    hide Kids, Legal, Try, Apply, RootScan, Aligns, Undecided, WonBy, TreeOf;
    var mover := g.Current().color;
    assert SoundPlayer(g, m, g.turn);
    MoverMayPlay(g, m, cs[0]);
    TryEnds(g, mover, cs[0]);
    TryTree(g, m, mover, cs[0], SEARCH_DEPTH - 1);
    FirstKid(g, m, cs, SEARCH_DEPTH);
    KidsWinOrNot(g, m, cs);
    RootPrefersWins(Kids(g, mover, cs, SEARCH_DEPTH));
  }
}
