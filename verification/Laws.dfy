/** Laws of every run: the turn and stock law, progress, quietness while the game is on, finality once it is over. */
module Laws {
  import opened Wrappers
  import opened Arith
  import opened Hex
  import opened Boards
  import opened Captures
  import opened Runs
  import opened Engine
  import opened Play

  // ---- Turns and stocks ----

  /** The number of logged moves of colour c. */
  function MovesOf(log: seq<Entry>, c: Color): nat {
    if log == [] then 0
    else MovesOf(log[..|log| - 1], c) + if log[|log| - 1].move.player == c then 1 else 0
  }

  /** ceil((m - i) / n): how many of m moves in rotation among n players are player i's. */
  function Share(m: nat, i: nat, n: nat): int
    requires i < n
  {
    (m + n - 1 - i) / n
  }

  lemma ShareSplit(m: nat, i: nat, n: nat)
    requires i < n
    ensures Share(m, i, n) == m / n + if i < m % n then 1 else 0
  {
    var k, t := m / n, m % n;
    QuotientRemainder(m, n);
    if i < t {
      OneMore(k, n);
      DivModUnique(k + 1, t - 1 - i, n);
    } else {
      DivModUnique(k, t + n - 1 - i, n);
    }
  }

  lemma NextTurn(m: nat, n: nat)
    requires n > 0
    ensures (m + 1) % n == (m % n + 1) % n
    ensures (m + 1) / n == m / n + if m % n == n - 1 then 1 else 0
  {
    SuccessorDivMod(m, n);
    SuccessorDivMod(m % n, n);
    QuotientRemainder(m, n);
    DivModUnique(0, m % n, n);
  }

  lemma ShareStep(m: nat, i: nat, n: nat)
    requires i < n
    ensures Share(m + 1, i, n) == Share(m, i, n) + if m % n == i then 1 else 0
  {
    ShareSplit(m, i, n);
    ShareSplit(m + 1, i, n);
    NextTurn(m, n);
  }

  /** No logged move has won. */
  predicate NoMoveWon(t: Trace) {
    t.log == [] || t.log[|t.log| - 1].result.winKind == NoWin
  }

  /** After m accepted moves the turn is m mod n, one less when the last one won, and player i has placed
      ceil((m - i) / n) stones, which is what its stock lacks. */
  ghost predicate InRotation(t: Trace, n: nat) {
    var m := |t.log|;
    && |t.game.players| == n > 0
    && t.game.turn == (if NoMoveWon(t) then m else m - 1) % n
    && (!NoMoveWon(t) ==> t.game.Over())
    && forall i :: 0 <= i < n ==> StockOf(t, i, n)
  }

  ghost predicate StockOf(t: Trace, i: nat, n: nat)
    requires i < n == |t.game.players|
  {
    var p := t.game.players[i];
    && MovesOf(t.log, p.color) == Share(|t.log|, i, n)
    && p.gemsRemaining == GEMS_PER_PLAYER - MovesOf(t.log, p.color)
    && p.gemsRemaining >= 0
  }

  lemma MoveKeepsStock(t: Trace, m: Move, now: Time, colors: seq<Color>, cfg: Config, i: nat)
    requires Playable(colors, cfg) && RosterKept(t, colors, cfg) && InRotation(t, |colors|)
    requires Refusal(t.game, m, now) == None && i < |colors|
    ensures StockOf(Do(t, PlayMove(m, now)), i, |colors|)
  {
    hide CapturesOf, GridAfter, WinOf, Share;
    var u := Do(t, PlayMove(m, now));
    assert StockOf(t, i, |colors|);
    assert u.log[..|u.log| - 1] == t.log;
    assert m.player == colors[t.game.turn];
    ShareStep(|t.log|, i, |colors|);
  }

  lemma DoKeepsRotation(t: Trace, act: Action, colors: seq<Color>, cfg: Config)
    requires Playable(colors, cfg) && RosterKept(t, colors, cfg) && InRotation(t, |colors|)
    ensures InRotation(Do(t, act), |colors|)
  {
    hide GridAfter, CapturesBy, WinOf, Share;
    var u := Do(t, act);
    if act.PlayMove? {
      if Refusal(t.game, act.move, act.now) == None {
        NextTurn(|t.log|, |colors|);
        forall i | 0 <= i < |colors| ensures StockOf(u, i, |colors|) {
          MoveKeepsStock(t, act.move, act.now, colors, cfg, i);
        }
      }
    } else {
      OthersKeepStocks(t.game, act);
      forall i | 0 <= i < |colors| ensures StockOf(u, i, |colors|) {
        assert StockOf(t, i, |colors|);
        assert u.game.players[i].(timeRemainingMs := 0) == t.game.players[i].(timeRemainingMs := 0);
      }
    }
  }

  lemma {:induction false} RotationLaw(colors: seq<Color>, cfg: Config, acts: seq<Action>)
    requires Playable(colors, cfg)
    ensures InRotation(Exec(colors, cfg, acts), |colors|)
  {
    if acts == [] {
      var t := Exec(colors, cfg, []);
      forall i | 0 <= i < |colors| ensures StockOf(t, i, |colors|) {
        ShareSplit(0, i, |colors|);
      }
    } else {
      RotationLaw(colors, cfg, acts[..|acts| - 1]);
      RosterLaw(colors, cfg, acts[..|acts| - 1]);
      DoKeepsRotation(Exec(colors, cfg, acts[..|acts| - 1]), acts[|acts| - 1], colors, cfg);
    }
  }

  /** A move can be refused for want of gems only when every player's stock is empty. */
  lemma OutOfGemsTogether(colors: seq<Color>, cfg: Config, acts: seq<Action>, m: Move, now: Time, i: nat)
    requires Playable(colors, cfg) && i < |colors|
    requires Refusal(Exec(colors, cfg, acts).game, m, now) == Some(NoGemsLeft)
    ensures Exec(colors, cfg, acts).game.players[i].gemsRemaining == 0
  {
    var t := Exec(colors, cfg, acts);
    RotationLaw(colors, cfg, acts);
    var n := |colors|;
    var turn := t.game.turn;
    ShareSplit(|t.log|, turn, n);
    ShareSplit(|t.log|, 0, n);
    ShareSplit(|t.log|, i, n);
    assert StockOf(t, turn, n) && StockOf(t, 0, n) && StockOf(t, i, n);
  }

  /** No run has more than 50 accepted moves per player. */
  lemma RunLengthBound(colors: seq<Color>, cfg: Config, acts: seq<Action>)
    requires Playable(colors, cfg)
    ensures |Exec(colors, cfg, acts).log| <= GEMS_PER_PLAYER * |colors|
  {
    var t := Exec(colors, cfg, acts);
    RotationLaw(colors, cfg, acts);
    assert StockOf(t, 0, |colors|);
    ShareBound(|t.log|, |colors|, GEMS_PER_PLAYER);
  }

  lemma ShareBound(m: nat, n: nat, most: nat)
    requires n > 0 && Share(m, 0, n) <= most
    ensures m <= most * n
  {
    var k := (m + n - 1) / n;
    QuotientRemainder(m + n - 1, n);
    MulMonotone(k, most, n);
  }

  // ---- Progress ----

  lemma {:induction false} SumGemsAtLeast(players: seq<Player>, i: nat)
    requires i < |players| && forall k :: 0 <= k < |players| ==> players[k].gemsRemaining >= 0
    ensures SumGems(players) >= players[i].gemsRemaining
  {
    if i < |players| - 1 {
      SumGemsAtLeast(players[..|players| - 1], i);
    } else if |players| > 1 {
      SumGemsAtLeast(players[..|players| - 1], 0);
    }
  }

  /** No player has a negative number of captured pairs. */
  ghost predicate PairsCounted(t: Trace) {
    forall i :: 0 <= i < |t.game.players| ==> t.game.players[i].capturedPairs >= 0
  }

  lemma {:induction false} PairsLaw(colors: seq<Color>, cfg: Config, acts: seq<Action>)
    requires colors != [] && cfg.boardSide >= 1
    ensures PairsCounted(Exec(colors, cfg, acts))
  {
    if acts != [] {
      PairsLaw(colors, cfg, acts[..|acts| - 1]);
      var t := Exec(colors, cfg, acts[..|acts| - 1]);
      var act := acts[|acts| - 1];
      if !act.PlayMove? {
        OthersKeepStocks(t.game, act);
        var u := Do(t, act);
        forall i | 0 <= i < |u.game.players| ensures u.game.players[i].capturedPairs >= 0 {
          assert u.game.players[i].(timeRemainingMs := 0) == t.game.players[i].(timeRemainingMs := 0);
        }
      }
    }
  }

  lemma {:induction false} SumPairsAtLeast(players: seq<Player>, i: nat)
    requires i < |players| && forall k :: 0 <= k < |players| ==> players[k].capturedPairs >= 0
    ensures SumPairs(players) >= players[i].capturedPairs
  {
    if i < |players| - 1 {
      SumPairsAtLeast(players[..|players| - 1], i);
    } else if |players| > 1 {
      SumPairsAtLeast(players[..|players| - 1], 0);
    }
  }

  /** On a board with at least as many intersections as there are gems in the game, the player to move
      finds an empty intersection as long as it has a gem to place. */
  lemma EmptyCellExists(colors: seq<Color>, cfg: Config, acts: seq<Action>) returns (p: Position)
    requires Playable(colors, cfg)
    requires GEMS_PER_PLAYER * |colors| <= 3 * cfg.boardSide * (cfg.boardSide - 1) + 1
    requires Exec(colors, cfg, acts).game.Current().gemsRemaining > 0
    ensures Exec(colors, cfg, acts).game.grid.Has(p, EMPTY)
  {
    hide Exec, Conserved;
    var t := Exec(colors, cfg, acts);
    ConservationLaw(colors, cfg, acts);
    RotationLaw(colors, cfg, acts);
    RosterLaw(colors, cfg, acts);
    PairsLaw(colors, cfg, acts);
    forall i | 0 <= i < |colors| ensures t.game.players[i].gemsRemaining >= 0 {
      assert StockOf(t, i, |colors|);
    }
    p := CellLeft(t);
  }

  /** Fewer stones lie on the board than it has intersections. */
  lemma CellLeft(t: Trace) returns (p: Position)
    requires t.game.Valid() && Conserved(t) && PairsCounted(t)
    requires forall i :: 0 <= i < |t.game.players| ==> t.game.players[i].gemsRemaining >= 0
    requires t.game.Current().gemsRemaining > 0
    requires GEMS_PER_PLAYER * |t.game.players| <= 3 * t.game.grid.side * (t.game.grid.side - 1) + 1
    ensures t.game.grid.Has(p, EMPTY)
  {
    var g := t.game.grid;
    SumGemsAtLeast(t.game.players, t.game.turn);
    SumPairsAtLeast(t.game.players, 0);
    HexagonSize(g.side);
    p := StrictlyMore(g.Occupied(), Positions(g.side));
    PositionsAreIn(g.side, p);
  }

  lemma {:induction false} StrictlyMore(small: set<Position>, big: set<Position>) returns (p: Position)
    requires |small| < |big|
    ensures p in big && p !in small
  {
    p :| p in big;
    if p in small {
      p := StrictlyMore(small - {p}, big - {p});
    }
  }

  /** Progress: in every game of 2 to 6 players on the side-11 board, as long as the game is on, either every
      stock is empty or the player to move has a placement that is accepted (given time on its clock). */
  lemma Progress(colors: seq<Color>, cfg: Config, acts: seq<Action>, now: Time) returns (m: Move)
    requires Playable(colors, cfg) && cfg.boardSide == DEFAULT_BOARD_SIDE && 2 <= |colors| <= MAX_PLAYERS
    requires !Exec(colors, cfg, acts).game.Over()
    requires exists i :: 0 <= i < |colors| && Exec(colors, cfg, acts).game.players[i].gemsRemaining != 0
    requires var g := Exec(colors, cfg, acts).game; ClockRuns(g) ==> Charged(g, now) <= g.Current().timeRemainingMs
    ensures Apply(Exec(colors, cfg, acts).game, m, now).Ok?
  {
    var g := Exec(colors, cfg, acts).game;
    RosterLaw(colors, cfg, acts);
    RotationLaw(colors, cfg, acts);
    assert StockOf(Exec(colors, cfg, acts), g.turn, |colors|);
    if g.Current().gemsRemaining == 0 {
      SomeStockEmpty(colors, cfg, acts);
      assert false;
    }
    var p := EmptyCellExists(colors, cfg, acts);
    m := Move(g.Current().color, p);
  }

  /** Nothing else stands in the way: while the game is on, the player to move may use any empty intersection as long as it
      has a gem and its clock covers the time, and only those. */
  lemma AnyFreeCellWillDo(colors: seq<Color>, cfg: Config, acts: seq<Action>, pos: Position, now: Time)
    requires Playable(colors, cfg) && !Exec(colors, cfg, acts).game.Over()
    ensures var g := Exec(colors, cfg, acts).game;
      Apply(g, Move(colors[g.turn], pos), now).Ok? <==>
        && g.grid.Has(pos, EMPTY) && (exists i :: 0 <= i < |colors| && g.players[i].gemsRemaining != 0)
        && (ClockRuns(g) ==> Charged(g, now) <= g.Current().timeRemainingMs)
  {
    var t := Exec(colors, cfg, acts);
    RosterLaw(colors, cfg, acts);
    RotationLaw(colors, cfg, acts);
    assert StockOf(t, t.game.turn, |colors|);
    if t.game.Current().gemsRemaining == 0 {
      SomeStockEmpty(colors, cfg, acts);
    }
    hide Exec, Charged;
  }

  lemma SomeStockEmpty(colors: seq<Color>, cfg: Config, acts: seq<Action>)
    requires Playable(colors, cfg) && !Exec(colors, cfg, acts).game.Over()
    requires Exec(colors, cfg, acts).game.Current().gemsRemaining == 0
    ensures forall i :: 0 <= i < |colors| ==> Exec(colors, cfg, acts).game.players[i].gemsRemaining == 0
  {
    var t := Exec(colors, cfg, acts);
    RotationLaw(colors, cfg, acts);
    var n := |colors|;
    forall i | 0 <= i < n ensures t.game.players[i].gemsRemaining == 0 {
      ShareSplit(|t.log|, t.game.turn, n);
      ShareSplit(|t.log|, 0, n);
      ShareSplit(|t.log|, i, n);
      assert StockOf(t, t.game.turn, n) && StockOf(t, 0, n) && StockOf(t, i, n);
    }
  }

  // ---- While the game is on ----

  /** No player has reached a positive capture threshold. */
  ghost predicate PairsQuiet(g: Game) {
    g.config.capturePairsWin > 0 ==>
      forall i :: 0 <= i < |g.players| ==> g.players[i].capturedPairs < g.config.capturePairsWin
  }

  /** No colour has a run of six or more, and no player has reached a positive capture threshold. */
  ghost predicate Quiet(g: Game) {
    (forall c :: c != EMPTY ==> !ContainsRun(g.grid, c, 6)) && PairsQuiet(g)
  }

  /** Placing one's own stone cannot lengthen another colour's runs. */
  lemma OthersGainNoRun(g: Grid, m: Move, c: Color, len: nat)
    requires g.Valid() && m.pos in g.cell && c != EMPTY && c != m.player
    requires ContainsRun(GridAfter(g, m), c, len)
    ensures ContainsRun(g, c, len)
  {
    GridAfterValid(g, m);
    var p, a, n: nat :| n >= 1 && n >= len && Segment(GridAfter(g, m), c, p, a, n);
    assert Segment(g, c, p, a, n);
  }

  lemma DoKeepsQuiet(t: Trace, act: Action, colors: seq<Color>, cfg: Config)
    requires Playable(colors, cfg) && RosterKept(t, colors, cfg)
    requires !t.game.Over() ==> Quiet(t.game)
    ensures !Do(t, act).game.Over() ==> Quiet(Do(t, act).game)
  {
    var u := Do(t, act);
    if act.PlayMove? && Refusal(t.game, act.move, act.now) == None && !u.game.Over() {
      var m := act.move;
      assert m.player == colors[t.game.turn] && m.player in colors;
      forall c | c != EMPTY ensures !ContainsRun(u.game.grid, c, 6) {
        if c != m.player && ContainsRun(u.game.grid, c, 6) {
          OthersGainNoRun(t.game.grid, m, c, 6);
        }
      }
    }
  }

  /** In every reachable state of a game that is on, nobody has six in line nor enough captured pairs. */
  lemma {:induction false} QuietLaw(colors: seq<Color>, cfg: Config, acts: seq<Action>)
    requires Playable(colors, cfg)
    ensures !Exec(colors, cfg, acts).game.Over() ==> Quiet(Exec(colors, cfg, acts).game)
  {
    if acts == [] {
      var g := NewGame(colors, cfg).grid;
      forall c | c != EMPTY ensures !ContainsRun(g, c, 6) {
        if ContainsRun(g, c, 6) {
          var p, a, n: nat :| n >= 1 && n >= 6 && Segment(g, c, p, a, n);
          NoStonesYet(cfg.boardSide, Along(p, a, 0), c);
          assert false;
        }
      }
    } else {
      QuietLaw(colors, cfg, acts[..|acts| - 1]);
      RosterLaw(colors, cfg, acts[..|acts| - 1]);
      DoKeepsQuiet(Exec(colors, cfg, acts[..|acts| - 1]), acts[|acts| - 1], colors, cfg);
    }
  }

  // ---- Once the game is over ----

  lemma NoStonesYet(side: int, p: Position, c: Color)
    requires side >= 1 && c != EMPTY
    ensures !EmptyGrid(side).Has(p, c)
  {
  }

  ghost predicate SameOutcome(t: Trace, u: Trace) {
    && u.log == t.log
    && u.game.grid == t.game.grid
    && u.game.players == t.game.players
    && u.game.turn == t.game.turn
    && u.game.history == t.game.history
    && u.game.winner == t.game.winner
    && u.game.winKind == t.game.winKind
  }

  lemma OverStays(t: Trace, act: Action)
    requires t.game.Valid() && t.game.Over()
    ensures SameOutcome(t, Do(t, act))
  {
  }

  /** Once a game is over, no further sequence of actions changes its board, log, stocks, winner or kind of win. */
  lemma {:induction false} OverIsFinal(colors: seq<Color>, cfg: Config, acts: seq<Action>, more: seq<Action>)
    requires colors != [] && cfg.boardSide >= 1 && Exec(colors, cfg, acts).game.Over()
    ensures SameOutcome(Exec(colors, cfg, acts), Exec(colors, cfg, acts + more))
  {
    if more == [] {
      assert acts + more == acts;
    } else {
      OverIsFinal(colors, cfg, acts, more[..|more| - 1]);
      assert (acts + more)[..|acts + more| - 1] == acts + more[..|more| - 1];
      OverStays(Exec(colors, cfg, acts + more[..|more| - 1]), more[|more| - 1]);
    }
  }

  // ---- Which win is reported ----

  const PRECEDENCE: seq<WinKind> := [Alignment6, Alignment5, Alignment4, CaptureWin]

  /** The player has reached this kind of win. */
  ghost predicate Reached(cfg: Config, g: Grid, p: Player, kind: WinKind)
    requires g.Valid()
  {
    match kind
    case Alignment6 => exists start, a :: Segment(g, p.color, start, a, 6)
    case Alignment5 => 0 < cfg.align5ToWin <= |RunsOfLength(g, p.color, 5)|
    case Alignment4 => 0 < cfg.align4ToWin <= |RunsOfLength(g, p.color, 4)|
    case CaptureWin => 0 < cfg.capturePairsWin <= p.capturedPairs
    case _ => false
  }

  lemma SixIsReached(cfg: Config, g: Grid, p: Player)
    requires g.Valid()
    ensures Reached(cfg, g, p, Alignment6) <==> ContainsRun(g, p.color, 6)
  {
    if ContainsRun(g, p.color, 6) {
      var start, a, n: nat :| n >= 1 && n >= 6 && Segment(g, p.color, start, a, n);
      assert Segment(g, p.color, start, a, 6);
    }
  }

  /** When several thresholds are met at once, the one that stands first in the order of precedence is reported, and no win
      exactly when none is met. */
  lemma PrecedenceLaw(cfg: Config, g: Grid, p: Player)
    requires g.Valid()
    ensures forall i | 0 <= i < |PRECEDENCE| ::
      WinOf(cfg, g, p) == PRECEDENCE[i] <==> Reached(cfg, g, p, PRECEDENCE[i]) && forall j | 0 <= j < i :: !Reached(cfg, g, p, PRECEDENCE[j])
    ensures WinOf(cfg, g, p) == NoWin <==> forall i | 0 <= i < |PRECEDENCE| :: !Reached(cfg, g, p, PRECEDENCE[i])
  {
    SixIsReached(cfg, g, p);
    var six, five, four, pairs := Reached(cfg, g, p, Alignment6), Reached(cfg, g, p, Alignment5), Reached(cfg, g, p, Alignment4),
      Reached(cfg, g, p, CaptureWin);
    assert WinOf(cfg, g, p) == if six then Alignment6 else if five then Alignment5 else if four then Alignment4
                               else if pairs then CaptureWin else NoWin;
    hide WinOf, Reached;
    assert PRECEDENCE[0] == Alignment6 && PRECEDENCE[1] == Alignment5 && PRECEDENCE[2] == Alignment4 && PRECEDENCE[3] == CaptureWin;
  }
}
