/** Loading a game: its stored moves are re-run at their stored times, then the stored outcome is laid over. */
module Load {
  import opened Wrappers
  import opened Hex
  import opened Boards
  import opened Captures
  import opened Runs
  import opened Engine
  import opened Play
  import opened Laws
  import opened Replay

  /** A game whose clock has not been read yet starts it at the stored time of its first move. */
  function ClockSeeded(g: Game, playedAt: Time): (h: Game) {
    if g.turnStartedAt == ZERO_TIME then g.(turnStartedAt := playedAt) else g
  }

  ghost function LoadFrom(start: Game, history: seq<Move>, times: seq<Time>): (r: Result<Trace, MoveError>)
    requires start.Valid() && |times| == |history|
    ensures r.Ok? ==> r.value.game.Valid()
  {
    if history == [] then Ok(Trace(start, []))
    else
      var n := |history| - 1;
      var before := LoadFrom(start, history[..n], times[..n]);
      if before.Err? then before
      else
        match Apply(ClockSeeded(before.value.game, times[n]), history[n], times[n])
        case Err(e) => Err(e)
        case Ok(after) => Ok(Trace(after.0, before.value.log + [Entry(history[n], after.1, after.0.Core())]))
  }

  // ---- The clocks of a loaded game, without the board ----

  /** What move k is charged: the time since the previous stored move, nothing for the first. */
  function ChargeOf(times: seq<Time>, k: nat): int
    requires k < |times|
  {
    if k == 0 || ElapsedMs(times[k], times[k - 1]) < 0 then 0 else ElapsedMs(times[k], times[k - 1])
  }

  /** Player p's clock before move k of n players moving in rotation at the stored times. */
  function Budget(cfg: Config, n: nat, times: seq<Time>, k: nat, p: nat): int
    requires n > 0 && k <= |times|
  {
    if k == 0 then cfg.initialTimeMs
    else Budget(cfg, n, times, k - 1, p) + if (k - 1) % n == p then cfg.incrementMs - ChargeOf(times, k - 1) else 0
  }

  /** Every move's charge fits in its player's clock. */
  predicate ClockAdmits(cfg: Config, n: nat, times: seq<Time>)
    requires n > 0
  {
    cfg.initialTimeMs > 0 ==> forall k :: 0 <= k < |times| ==> ChargeOf(times, k) <= Budget(cfg, n, times, k, k % n)
  }

  lemma {:induction false} BudgetPrefix(cfg: Config, n: nat, times: seq<Time>, m: nat, k: nat, p: nat)
    requires n > 0 && k <= m <= |times|
    ensures Budget(cfg, n, times[..m], k, p) == Budget(cfg, n, times, k, p)
  {
    if k > 0 {
      BudgetPrefix(cfg, n, times, m, k - 1, p);
    }
  }

  lemma AdmitsStep(cfg: Config, n: nat, times: seq<Time>)
    requires n > 0 && times != []
    ensures var k := |times| - 1;
      ClockAdmits(cfg, n, times) <==>
      ClockAdmits(cfg, n, times[..k]) && (cfg.initialTimeMs > 0 ==> ChargeOf(times, k) <= Budget(cfg, n, times, k, k % n))
  {
    var m := |times| - 1;
    forall k | 0 <= k < m
      ensures Budget(cfg, n, times[..m], k, k % n) == Budget(cfg, n, times, k, k % n)
      ensures ChargeOf(times[..m], k) == ChargeOf(times, k)
    {
      BudgetPrefix(cfg, n, times, m, k, k % n);
    }
  }

  /** The loaded clocks are the budgets, and the running clock started at the last stored move. */
  ghost predicate ClocksAre(u: Trace, cfg: Config, n: nat, times: seq<Time>)
    requires n > 0
  {
    && |u.game.players| == n
    && u.game.config == cfg
    && (cfg.initialTimeMs > 0 ==> forall p :: 0 <= p < n ==> u.game.players[p].timeRemainingMs == Budget(cfg, n, times, |times|, p))
    && (NoMoveWon(u) ==> u.game.turnStartedAt == if times == [] || cfg.initialTimeMs <= 0 then u.game.turnStartedAt else times[|times| - 1])
    && (times == [] ==> u.game.turnStartedAt == ZERO_TIME)
  }

  /** Loading either repeats the run, exactly when the stored times fit the clocks, or reports a fallen flag. */
  ghost predicate LoadedFrom(t: Trace, cfg: Config, n: nat, times: seq<Time>, r: Result<Trace, MoveError>)
    requires n > 0
  {
    match r
    case Err(e) => e == Flagged && !ClockAdmits(cfg, n, times)
    case Ok(u) => ClockAdmits(cfg, n, times) && Repeats(t, u) && ClocksAre(u, cfg, n, times)
  }

  ghost predicate Stored(times: seq<Time>) {
    forall i :: 0 <= i < |times| ==> times[i] != ZERO_TIME
  }

  lemma OthersStayLoaded(t: Trace, act: Action, cfg: Config, n: nat, times: seq<Time>, r: Result<Trace, MoveError>)
    requires n > 0 && t.game.Valid() && !act.PlayMove? && LoadedFrom(t, cfg, n, times, r)
    ensures LoadedFrom(Do(t, act), cfg, n, times, r)
  {
    if r.Ok? {
      OtherActionsRepeat(t, r.value, act);
    }
  }

  /** One more stored move, seen from the clocks. */
  lemma MoveStaysLoaded(s: Trace, u: Trace, m: Move, now: Time, cfg: Config, n: nat, times: seq<Time>)
    requires n > 0 && times != [] && Stored(times) && s.game.Valid() && u.game.Valid()
    requires Repeats(s, u) && InRotation(s, n) && |s.log| == |times| - 1 && Apply(s.game, m, now).Ok?
    requires ClocksAre(u, cfg, n, times[..|times| - 1])
    ensures var k := |times| - 1;
      var h := ClockSeeded(u.game, times[k]);
      && h.Valid() && h.Core() == s.game.Core() && h.turn == k % n
      && (ClockRuns(h) <==> cfg.initialTimeMs > 0)
      && (ClockRuns(h) ==> Charged(h, times[k]) == ChargeOf(times, k))
      && (ClockRuns(h) ==> h.Current().timeRemainingMs == Budget(cfg, n, times, k, k % n))
  {
    hide Accept;
    var k := |times| - 1;
    assert NoMoveWon(s) && NoMoveWon(u);
    BudgetPrefix(cfg, n, times, k, k, k % n);
    var h := ClockSeeded(u.game, times[k]);
    assert h.turn == s.game.turn;
    if k == 0 {
      assert times[..k] == [];
    } else {
      assert times[..k][k - 1] == times[k - 1];
    }
  }

  lemma ClocksMoveOn(u: Trace, h: Game, m: Move, cfg: Config, n: nat, times: seq<Time>, v: Trace)
    requires n > 0 && times != [] && u.game.Valid() && ClocksAre(u, cfg, n, times[..|times| - 1])
    requires h == ClockSeeded(u.game, times[|times| - 1]) && h.turn == (|times| - 1) % n
    requires ClockRuns(h) <==> cfg.initialTimeMs > 0
    requires ClockRuns(h) ==> Charged(h, times[|times| - 1]) == ChargeOf(times, |times| - 1)
    requires Apply(h, m, times[|times| - 1]).Ok? && v.game == Apply(h, m, times[|times| - 1]).value.0
    requires v.log != [] && v.log[|v.log| - 1].result == Apply(h, m, times[|times| - 1]).value.1
    ensures ClocksAre(v, cfg, n, times)
  {
    var k := |times| - 1;
    forall p | 0 <= p < n ensures Budget(cfg, n, times[..k], k, p) == Budget(cfg, n, times, k, p) {
      BudgetPrefix(cfg, n, times, k, k, p);
    }
  }

  lemma NewGameLoaded(colors: seq<Color>, cfg: Config)
    requires Playable(colors, cfg)
    ensures LoadedFrom(Exec(colors, cfg, []), cfg, |colors|, [], LoadFrom(NewGame(colors, cfg), [], []))
  {
    var g := NewGame(colors, cfg);
    assert StopClocks(g.players) == g.Core().players;
  }

  /** The loading law, for every run and every list of stored times: loading reproduces the run move by move if
      and only if every stored interval fits in the clocks; otherwise it fails, and only with a fallen flag. */
  lemma {:induction false} LoadLaw(colors: seq<Color>, cfg: Config, acts: seq<Action>, times: seq<Time>)
    requires Playable(colors, cfg) && Stored(times)
    requires |times| == |Exec(colors, cfg, acts).game.history|
    ensures LoadedFrom(Exec(colors, cfg, acts), cfg, |colors|, times,
                       LoadFrom(NewGame(colors, cfg), Exec(colors, cfg, acts).game.history, times))
  {
    hide LoadedFrom;
    if acts == [] {
      NewGameLoaded(colors, cfg);
      assert times == [];
    } else {
      var s := Exec(colors, cfg, acts[..|acts| - 1]);
      var act := acts[|acts| - 1];
      if act.PlayMove? && Apply(s.game, act.move, act.now).Ok? {
        var k := |times| - 1;
        assert Do(s, act).game.history == s.game.history + [act.move];
        LoadLaw(colors, cfg, acts[..|acts| - 1], times[..k]);
        RotationLaw(colors, cfg, acts[..|acts| - 1]);
        RosterLaw(colors, cfg, acts[..|acts| - 1]);
        LoadMove(NewGame(colors, cfg), s, act.move, act.now, cfg, |colors|, times);
      } else {
        LoadLaw(colors, cfg, acts[..|acts| - 1], times);
        if !act.PlayMove? {
          OthersStayLoaded(s, act, cfg, |colors|, times, LoadFrom(NewGame(colors, cfg), s.game.history, times));
        }
      }
    }
  }

  lemma LoadMove(start: Game, s: Trace, m: Move, now: Time, cfg: Config, n: nat, times: seq<Time>)
    requires n > 0 && times != [] && Stored(times) && start.Valid() && s.game.Valid()
    requires InRotation(s, n) && |s.log| == |s.game.history| == |times| - 1 && Apply(s.game, m, now).Ok?
    requires LoadedFrom(s, cfg, n, times[..|times| - 1], LoadFrom(start, s.game.history, times[..|times| - 1]))
    ensures LoadedFrom(Do(s, PlayMove(m, now)), cfg, n, times, LoadFrom(start, s.game.history + [m], times))
  {
    var k := |times| - 1;
    var h := s.game.history + [m];
    assert h[..|h| - 1] == s.game.history;
    AdmitsStep(cfg, n, times);
    var r := LoadFrom(start, s.game.history, times[..k]);
    if r.Ok? {
      LoadOneMore(s, r.value, m, now, cfg, n, times, LoadFrom(start, h, times));
    }
  }

  lemma LoadOneMore(s: Trace, u: Trace, m: Move, now: Time, cfg: Config, n: nat, times: seq<Time>, r: Result<Trace, MoveError>)
    requires n > 0 && times != [] && Stored(times) && s.game.Valid() && u.game.Valid()
    requires Repeats(s, u) && InRotation(s, n) && |s.log| == |times| - 1 && Apply(s.game, m, now).Ok?
    requires ClocksAre(u, cfg, n, times[..|times| - 1]) && ClockAdmits(cfg, n, times[..|times| - 1])
    requires r == match Apply(ClockSeeded(u.game, times[|times| - 1]), m, times[|times| - 1])
                  case Err(e) => Err(e)
                  case Ok(after) => Ok(Trace(after.0, u.log + [Entry(m, after.1, after.0.Core())]))
    ensures LoadedFrom(Do(s, PlayMove(m, now)), cfg, n, times, r)
  {
    var k := |times| - 1;
    var h := ClockSeeded(u.game, times[k]);
    MoveStaysLoaded(s, u, m, now, cfg, n, times);
    AdmitsStep(cfg, n, times);
    ApplySimulates(s.game, h, m, now, times[k]);
    if r.Ok? {
      ClocksMoveOn(u, h, m, cfg, n, times, r.value);
    }
  }

  // ---- A run that does not load ----

  /** The rulebook of two players: ten minutes each. */
  const RULEBOOK := DefaultConfig(2)

  /** Red opens, then blue answers with its ten minutes used up. */
  function LastMomentRun(): seq<Action> {
    [StartClock(1), PlayMove(RED_OPENS, 1), PlayMove(BLUE_ANSWERS, 600_000_000_001)]
  }

  const RED_OPENS := Move(1, Position(0, 0))
  const BLUE_ANSWERS := Move(2, Position(1, 0))

  lemma OpeningWinsNothing(p: Player)
    requires p.color == 1 && p.capturedPairs == |CapturesBy(EmptyGrid(DEFAULT_BOARD_SIDE), RED_OPENS)|
    ensures GridAfter(EmptyGrid(DEFAULT_BOARD_SIDE), RED_OPENS).Valid()
    ensures WinOf(RULEBOOK, GridAfter(EmptyGrid(DEFAULT_BOARD_SIDE), RED_OPENS), p) == NoWin
  {
    var g := EmptyGrid(DEFAULT_BOARD_SIDE);
    assert g.Stones(1) == {};
    MoveSizes(g, RED_OPENS, 1);
    GridAfterValid(g, RED_OPENS);
    CapturesDisjoint(g.Put(RED_OPENS.pos, 1), RED_OPENS.pos, 1);
    hide ContainsRun, CountRuns, GridAfter, CapturesOf;
    var after := GridAfter(g, RED_OPENS);
    OneStoneNoRun(after, 1, 6);
    OneStoneNoRun(after, 1, 5);
    OneStoneNoRun(after, 1, 4);
  }

  lemma RedOpens(g: Game)
    requires g == ClockStarted(NewGame([1, 2], RULEBOOK), 1)
    ensures var r := Apply(g, RED_OPENS, 1);
      && r.Ok?
      && !r.value.0.Over()
      && r.value.0.turn == 1 && r.value.0.history == [RED_OPENS] && r.value.0.turnStartedAt == 1
      && r.value.0.players == g.players[0 := r.value.0.players[0]]
      && r.value.0.grid == GridAfter(g.grid, RED_OPENS)
  {
    hide WinOf, GridAfter, CapturesBy;
    GridAfterValid(g.grid, RED_OPENS);
    var p := Scored(Timed(g, g.players[0], 1), |CapturesBy(g.grid, RED_OPENS)|);
    OpeningWinsNothing(p);
    assert ElapsedMs(1, 1) == 0;
  }

  lemma CenterLeavesNeighbourFree()
    ensures GridAfter(EmptyGrid(DEFAULT_BOARD_SIDE), RED_OPENS).Has(BLUE_ANSWERS.pos, EMPTY)
  {
    var g := EmptyGrid(DEFAULT_BOARD_SIDE);
    GridAfterValid(g, RED_OPENS);
    var after := GridAfter(g, RED_OPENS);
    assert In(DEFAULT_BOARD_SIDE, BLUE_ANSWERS.pos);
    assert g.Has(BLUE_ANSWERS.pos, EMPTY);
    assert after.Has(BLUE_ANSWERS.pos, after.cell[BLUE_ANSWERS.pos]);
  }

  lemma RedHasOpened() returns (t: Trace)
    ensures t == Exec([1, 2], RULEBOOK, [StartClock(1), PlayMove(RED_OPENS, 1)])
    ensures !t.game.Over() && t.game.turn == 1 && t.game.turnStartedAt == 1 && t.game.config == RULEBOOK
    ensures t.game.history == [RED_OPENS] && |t.game.players| == 2 && t.game.players[1] == NewPlayer(2, RULEBOOK)
    ensures t.game.grid.Has(BLUE_ANSWERS.pos, EMPTY)
  {
    ExecStep([1, 2], RULEBOOK, [], StartClock(1));
    ExecStep([1, 2], RULEBOOK, [StartClock(1)], PlayMove(RED_OPENS, 1));
    assert [] + [StartClock(1)] == [StartClock(1)];
    assert [StartClock(1)] + [PlayMove(RED_OPENS, 1)] == [StartClock(1), PlayMove(RED_OPENS, 1)];
    RedOpens(ClockStarted(NewGame([1, 2], RULEBOOK), 1));
    CenterLeavesNeighbourFree();
    t := Exec([1, 2], RULEBOOK, [StartClock(1), PlayMove(RED_OPENS, 1)]);
  }

  lemma LastMomentIsAccepted()
    ensures Exec([1, 2], RULEBOOK, LastMomentRun()).game.history == [RED_OPENS, BLUE_ANSWERS]
  {
    var t := RedHasOpened();
    var blue := PlayMove(BLUE_ANSWERS, 600_000_000_001);
    ExecStep([1, 2], RULEBOOK, [StartClock(1), PlayMove(RED_OPENS, 1)], blue);
    assert [StartClock(1), PlayMove(RED_OPENS, 1)] + [blue] == LastMomentRun();
    BlueAnswers(t.game);
  }

  lemma BlueAnswers(g: Game)
    requires g.Valid() && !g.Over() && g.turn == 1 && g.turnStartedAt == 1 && g.config == RULEBOOK
    requires |g.players| == 2 && g.players[1] == NewPlayer(2, RULEBOOK) && g.grid.Has(BLUE_ANSWERS.pos, EMPTY)
    ensures Apply(g, BLUE_ANSWERS, 600_000_000_001).Ok?
    ensures Apply(g, BLUE_ANSWERS, 600_000_000_001).value.0.history == g.history + [BLUE_ANSWERS]
  {
    assert ElapsedMs(600_000_000_001, 1) == 600_000;
  }

  const STORED_LATE: seq<Time> := [1, 600_001_000_001]

  lemma LateIsNotAdmitted()
    ensures Stored(STORED_LATE) && !ClockAdmits(RULEBOOK, 2, STORED_LATE)
  {
    assert ChargeOf(STORED_LATE, 1) == 600_001;
    assert Budget(RULEBOOK, 2, STORED_LATE, 0, 1) == 600_000;
    assert Budget(RULEBOOK, 2, STORED_LATE, 1, 1) == 600_000;
  }

  /** Loading can fail although play was accepted: when blue's move is stored one millisecond after it was made,
      its clock no longer covers the interval. */
  lemma AcceptedRunMayNotLoad()
    ensures var t := Exec([1, 2], RULEBOOK, LastMomentRun());
      |t.game.history| == 2 && LoadFrom(NewGame([1, 2], RULEBOOK), t.game.history, STORED_LATE) == Err(Flagged)
  {
    hide LoadFrom, LastMomentRun, ClockAdmits, Stored, NewGame;
    LastMomentIsAccepted();
    LateIsNotAdmitted();
    LoadLaw([1, 2], RULEBOOK, LastMomentRun(), STORED_LATE);
  }

  // ---- The loader itself ----

  datatype MoveRow = MoveRow(color: Color, q: int, r: int, playedAt: Time)

  function MoveOf(row: MoveRow): Move {
    Move(row.color, Position(row.q, row.r))
  }

  function MovesOfRows(rows: seq<MoveRow>): seq<Move> {
    seq(|rows|, i requires 0 <= i < |rows| => MoveOf(rows[i]))
  }

  function TimesOfRows(rows: seq<MoveRow>): seq<Time> {
    seq(|rows|, i requires 0 <= i < |rows| => rows[i].playedAt)
  }

  /** A live game with no stored move restarts its clock at now; then the stored outcome replaces the replayed one. */
  function Overlaid(g: Game, unplayed: bool, now: Time, winner: Color, winKind: WinKind): Game {
    g.(turnStartedAt := if unplayed && g.ClockEnabled() then now else g.turnStartedAt, winner := winner, winKind := winKind)
  }

  /** The whole of loading: nothing when a stored move is refused, else the re-run game with the stored outcome. */
  ghost function Loaded(colors: seq<Color>, cfg: Config, rows: seq<MoveRow>, playing: bool,
                        winner: Color, winKind: WinKind, now: Time): Option<Game>
    requires colors != [] && cfg.boardSide >= 1
  {
    match LoadFrom(NewGame(colors, cfg), MovesOfRows(rows), TimesOfRows(rows))
    case Err(_) => None
    case Ok(u) => Some(Overlaid(u.game, playing && rows == [], now, winner, winKind))
  }

  method LoadGame(colors: seq<Color>, cfg: Config, rows: seq<MoveRow>, playing: bool,
                  winner: Color, winKind: WinKind, now: Time) returns (state: GameState?)
    requires colors != [] && cfg.boardSide >= 1 && Stored(TimesOfRows(rows))
    ensures state == null <==> Loaded(colors, cfg, rows, playing, winner, winKind, now).None?
    ensures state != null ==> state.Valid() && Some(state.View()) == Loaded(colors, cfg, rows, playing, winner, winKind, now)
  {
    hide Apply;
    var game := new GameState(colors, cfg);
    var lastPlayed := ZERO_TIME;
    ghost var start := NewGame(colors, cfg);
    for i := 0 to |rows|
      invariant game.Valid() && fresh(game) && fresh(game.board) && fresh(game.board.cells)
      invariant LoadFrom(start, MovesOfRows(rows[..i]), TimesOfRows(rows[..i])).Ok?
      invariant LoadFrom(start, MovesOfRows(rows[..i]), TimesOfRows(rows[..i])).value.game == game.View()
      invariant lastPlayed == ZERO_TIME <==> i == 0
    {
      PrefixRows(rows, i);
      if game.turnStartedAt == ZERO_TIME {
        game.turnStartedAt := rows[i].playedAt;
      }
      var res := game.ApplyMove(MoveOf(rows[i]), rows[i].playedAt);
      if res.Err? {
        FailedForGood(start, rows, i + 1);
        return null;
      }
      lastPlayed := rows[i].playedAt;
      assert TimesOfRows(rows)[i] != ZERO_TIME;
    }
    assert rows[..|rows|] == rows;
    if playing && lastPlayed == ZERO_TIME && cfg.initialTimeMs > 0 {
      game.turnStartedAt := now;
    }
    game.winner, game.winKind := winner, winKind;
    return game;
  }

  lemma PrefixRows(rows: seq<MoveRow>, i: nat)
    requires i < |rows|
    ensures MovesOfRows(rows[..i + 1])[..i] == MovesOfRows(rows[..i])
    ensures TimesOfRows(rows[..i + 1])[..i] == TimesOfRows(rows[..i])
  {
  }

  lemma {:induction false} FailedForGood(start: Game, rows: seq<MoveRow>, i: nat)
    requires start.Valid() && i <= |rows| && LoadFrom(start, MovesOfRows(rows[..i]), TimesOfRows(rows[..i])).Err?
    ensures LoadFrom(start, MovesOfRows(rows), TimesOfRows(rows)).Err?
    decreases |rows| - i
  {
    if i < |rows| {
      PrefixRows(rows, i);
      FailedForGood(start, rows, i + 1);
    } else {
      assert rows[..i] == rows;
    }
  }

  // ---- What loading gives back ----

  /** Each player's clock is its budget, and the clock of the player to move has been running since the last stored
      move; before any move, since now if the game is on, so that the full time is still there. */
  ghost predicate ClocksResume(g: Game, cfg: Config, n: nat, times: seq<Time>, playing: bool, now: Time)
    requires n > 0 && cfg.initialTimeMs > 0
  {
    && |g.players| == n && 0 <= g.turn < n
    && (forall p :: 0 <= p < n ==> g.players[p].timeRemainingMs == Budget(cfg, n, times, |times|, p))
    && (times != [] && !g.Over() ==> g.turnStartedAt == times[|times| - 1])
    && (times == [] ==> Remaining(g, now) == cfg.initialTimeMs)
    && (times == [] && playing ==> g.turnStartedAt == now)
  }

  /** Loading the rows that a run stored, with the outcome that it stored: a game comes back if and only if every stored
      interval fits in the clocks, and it is the live game, clocks apart, over exactly when that is, with clocks that go on
      from the stored times. */
  lemma LoadedIsLive(colors: seq<Color>, cfg: Config, acts: seq<Action>, rows: seq<MoveRow>, playing: bool, now: Time)
    requires Playable(colors, cfg) && Stored(TimesOfRows(rows))
    requires MovesOfRows(rows) == Exec(colors, cfg, acts).game.history
    ensures var live := Exec(colors, cfg, acts).game;
      var r := Loaded(colors, cfg, rows, playing, live.winner, live.winKind, now);
      && (r.Some? <==> ClockAdmits(cfg, |colors|, TimesOfRows(rows)))
      && (r.Some? ==>
            && r.value.Core() == live.Core() && (r.value.Over() <==> live.Over())
            && (cfg.initialTimeMs > 0 ==> ClocksResume(r.value, cfg, |colors|, TimesOfRows(rows), playing, now)))
  {
    hide Exec, LoadFrom, ClockAdmits, Budget;
    var times := TimesOfRows(rows);
    assert |MovesOfRows(rows)| == |rows| == |times|;
    LoadLaw(colors, cfg, acts, times);
    var r := LoadFrom(NewGame(colors, cfg), MovesOfRows(rows), times);
    if r.Ok? && rows == [] {
      BudgetOfNone(cfg, |colors|);
    }
  }

  lemma BudgetOfNone(cfg: Config, n: nat)
    requires n > 0
    ensures forall p: nat :: Budget(cfg, n, [], 0, p) == cfg.initialTimeMs
  {
  }
}
