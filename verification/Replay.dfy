/** Rebuilding games from their move log: the replay view re-runs the moves at zero time, the client
    rebuilds the cells from the recorded captures, and the loader re-runs them at their stored times. */
module Replay {
  import opened Wrappers
  import opened Arith
  import opened Hex
  import opened Boards
  import opened Captures
  import opened Engine
  import opened Play
  import opened Laws

  // ---- One move, two clocks ----

  /** Two games that differ only in their clocks accept the same moves with the same effect, unless the
      second one's clock is exhausted. */
  lemma ApplySimulates(g: Game, h: Game, m: Move, now: Time, now': Time)
    requires g.Valid() && h.Valid() && g.Core() == h.Core()
    requires Apply(g, m, now).Ok?
    ensures ClockRuns(h) && Charged(h, now') > h.Current().timeRemainingMs ==> Apply(h, m, now') == Err(Flagged)
    ensures !(ClockRuns(h) && Charged(h, now') > h.Current().timeRemainingMs) ==>
      && Apply(h, m, now').Ok?
      && Apply(h, m, now').value.1 == Apply(g, m, now).value.1
      && Apply(h, m, now').value.0.Core() == Apply(g, m, now).value.0.Core()
  {
    hide GridAfter, WinOf, CapturesOf;
    assert StopClocks(g.players)[g.turn] == StopClocks(h.players)[h.turn];
    if !(ClockRuns(h) && Charged(h, now') > h.Current().timeRemainingMs) {
      GridAfterValid(g.grid, m);
      var p := Scored(Timed(g, g.Current(), now), |CapturesBy(g.grid, m)|);
      var q := Scored(Timed(h, h.Current(), now'), |CapturesBy(h.grid, m)|);
      assert p.(timeRemainingMs := 0) == q.(timeRemainingMs := 0);
      WinIgnoresClock(g.config, GridAfter(g.grid, m), p, q);
      StopClocksUpdate(g.players, g.turn, p);
      StopClocksUpdate(h.players, h.turn, q);
    }
  }

  lemma WinIgnoresClock(cfg: Config, g: Grid, p: Player, q: Player)
    requires g.Valid() && p.(timeRemainingMs := 0) == q.(timeRemainingMs := 0)
    ensures WinOf(cfg, g, p) == WinOf(cfg, g, q)
  {
    assert p.color == q.color && p.capturedPairs == q.capturedPairs;
  }

  lemma StopClocksUpdate(players: seq<Player>, i: nat, p: Player)
    requires i < |players|
    ensures StopClocks(players[i := p]) == StopClocks(players)[i := p.(timeRemainingMs := 0)]
  {
  }

  // ---- Replay at zero time ----

  /** Re-running moves from a given game, every one at zero time; None when a move is refused. */
  ghost function ReplayFrom(start: Game, history: seq<Move>): (t: Option<Trace>)
    requires start.Valid()
    ensures t.Some? ==> t.value.game.Valid() && |t.value.log| == |history|
  {
    if history == [] then Some(Trace(start, []))
    else
      var before := ReplayFrom(start, history[..|history| - 1]);
      if before.None? then None
      else
        var m := history[|history| - 1];
        match Apply(before.value.game, m, ZERO_TIME)
        case Err(_) => None
        case Ok(after) => Some(Trace(after.0, before.value.log + [Entry(m, after.1, after.0.Core())]))
  }

  /** The outcome a game has from its moves alone: an ending by clock, resignation or draw is set aside. */
  ghost function MovesOnly(t: Trace): Game {
    if NoMoveWon(t) then t.game.Core().(winner := EMPTY, winKind := NoWin) else t.game.Core()
  }

  /** u repeats t: the same moves with the same results and positions, and the same game up to clocks. */
  ghost predicate Repeats(t: Trace, u: Trace) {
    && u.log == t.log
    && u.game.Core() == MovesOnly(t)
    && (!NoMoveWon(t) ==> t.game.Over())
  }

  lemma OtherActionsRepeat(t: Trace, u: Trace, act: Action)
    requires t.game.Valid() && !act.PlayMove? && Repeats(t, u)
    ensures Repeats(Do(t, act), u)
  {
    var v := Do(t, act);
    if act.Forfeit? && !t.game.Over() {
      assert StopClocks(v.game.players) == StopClocks(t.game.players);
    }
  }

  /** Re-running the history of any run through a fresh game at zero time never fails and reproduces every
      step: captures, board, turn, stocks and, when a move decided the game, the winner; whatever the live
      clock did. */
  lemma {:induction false} ReplayLaw(colors: seq<Color>, cfg: Config, acts: seq<Action>)
    requires colors != [] && cfg.boardSide >= 1
    ensures var t := Exec(colors, cfg, acts);
      var u := ReplayFrom(NewGame(colors, cfg), t.game.history);
      u.Some? && Repeats(t, u.value) && u.value.game.turnStartedAt == ZERO_TIME
  {
    if acts != [] {
      hide Repeats, NewGame, Accept, Refusal;
      ReplayLaw(colors, cfg, acts[..|acts| - 1]);
      var s := Exec(colors, cfg, acts[..|acts| - 1]);
      var act := acts[|acts| - 1];
      if act.PlayMove? && Apply(s.game, act.move, act.now).Ok? {
        MoveRepeats(NewGame(colors, cfg), s, act.move, act.now);
      } else if !act.PlayMove? {
        OtherActionsRepeat(s, ReplayFrom(NewGame(colors, cfg), s.game.history).value, act);
      }
    } else {
      NewGameRepeats(colors, cfg);
    }
  }

  lemma NewGameRepeats(colors: seq<Color>, cfg: Config)
    requires colors != [] && cfg.boardSide >= 1
    ensures Repeats(Exec(colors, cfg, []), Trace(NewGame(colors, cfg), []))
    ensures NewGame(colors, cfg).turnStartedAt == ZERO_TIME && Exec(colors, cfg, []).game.history == []
  {
    assert StopClocks(NewGame(colors, cfg).players) == NewGame(colors, cfg).Core().players;
  }

  lemma MoveRepeats(start: Game, s: Trace, m: Move, now: Time)
    requires start.Valid() && s.game.Valid() && Apply(s.game, m, now).Ok?
    requires ReplayFrom(start, s.game.history).Some?
    requires var u := ReplayFrom(start, s.game.history).value; Repeats(s, u) && u.game.turnStartedAt == ZERO_TIME
    ensures var t := Do(s, PlayMove(m, now));
      var v := ReplayFrom(start, t.game.history);
      v.Some? && Repeats(t, v.value) && v.value.game.turnStartedAt == ZERO_TIME
  {
    hide GridAfter, WinOf, CapturesOf, CapturesBy, Timed, Charged;
    var t := Do(s, PlayMove(m, now));
    assert t.game.history[..|t.game.history| - 1] == s.game.history;
    assert NoMoveWon(s);
    ApplySimulates(s.game, ReplayFrom(start, s.game.history).value.game, m, now, ZERO_TIME);
  }

  /** One step of the replay view. */
  datatype Step = Step(player: Color, pos: Position, captures: seq<Capture>)

  function StepOf(e: Entry): Step {
    Step(e.move.player, e.move.pos, e.result.captures)
  }

  function StepsOf(log: seq<Entry>): seq<Step> {
    seq(|log|, i requires 0 <= i < |log| => StepOf(log[i]))
  }

  /** The replay endpoint: None when some move is refused. */
  method GetReplay(colors: seq<Color>, cfg: Config, history: seq<Move>) returns (steps: Option<seq<Step>>)
    requires colors != [] && cfg.boardSide >= 1
    ensures var t := ReplayFrom(NewGame(colors, cfg), history);
      steps == if t.Some? then Some(StepsOf(t.value.log)) else None
  {
    hide Apply, NewGame;
    var replay := new GameState(colors, cfg);
    var out: seq<Step> := [];
    var refused := false;
    for i := 0 to |history|
      invariant replay.Valid() && fresh(replay) && fresh(replay.board) && fresh(replay.board.cells)
      invariant ReplayFrom(NewGame(colors, cfg), history[..i]).Some?
      invariant ReplayFrom(NewGame(colors, cfg), history[..i]).value.game == replay.View()
      invariant out == StepsOf(ReplayFrom(NewGame(colors, cfg), history[..i]).value.log)
    {
      assert history[..i + 1][..i] == history[..i];
      var res := replay.ApplyMove(history[i], ZERO_TIME);
      if res.Err? {
        RefusedForGood(NewGame(colors, cfg), history, i + 1);
        return None;
      }
      out := out + [Step(history[i].player, history[i].pos, res.value.captures)];
    }
    assert history[..|history|] == history;
    return Some(out);
  }

  /** A refused move makes the whole replay fail. */
  lemma {:induction false} RefusedForGood(start: Game, history: seq<Move>, i: nat)
    requires start.Valid() && i <= |history| && ReplayFrom(start, history[..i]).None?
    ensures ReplayFrom(start, history).None?
  {
    if i < |history| {
      assert history[..|history| - 1][..i] == history[..i];
      RefusedForGood(start, history[..|history| - 1], i);
    } else {
      assert history[..i] == history;
    }
  }

  // ---- The client's cells ----

  ghost function GridFrom(g: Grid, steps: seq<Step>): Grid {
    if steps == [] then g
    else
      var s := steps[|steps| - 1];
      Lift(GridFrom(g, steps[..|steps| - 1]).Put(s.pos, s.player), s.captures)
  }

  ghost predicate StepsOnBoard(side: int, steps: seq<Step>) {
    forall i :: 0 <= i < |steps| ==>
      && In(side, steps[i].pos)
      && forall c :: c in steps[i].captures ==> In(side, c.first) && In(side, c.second)
  }

  /** Rebuilds the cell array after `step` steps (clamped to the steps there are) from the recorded captures alone. */
  method CellsAtStep(side: int, steps: seq<Step>, step: int) returns (cells: array<Color>)
    requires side >= 1 && StepsOnBoard(side, steps)
    ensures var upto := if step < 0 then 0 else if step > |steps| then |steps| else step;
      GridFrom(EmptyGrid(side), steps[..upto]).Valid() && Holds(cells[..], GridFrom(EmptyGrid(side), steps[..upto]))
  {
    cells := EmptyCells(side);
    var upto := if step < 0 then 0 else if step > |steps| then |steps| else step;
    ghost var g := EmptyGrid(side);
    for i := 0 to upto
      invariant fresh(cells) && g == GridFrom(EmptyGrid(side), steps[..i])
      invariant g.Valid() && g.side == side && Holds(cells[..], g)
    {
      assert steps[..i + 1][..i] == steps[..i];
      g := PlayStep(cells, side, g, steps[i]);
    }
  }

  method PlayStep(cells: array<Color>, side: int, ghost g: Grid, s: Step) returns (ghost h: Grid)
    requires g.Valid() && g.side == side && Holds(cells[..], g)
    requires In(side, s.pos) && forall c :: c in s.captures ==> In(side, c.first) && In(side, c.second)
    modifies cells
    ensures h == Lift(g.Put(s.pos, s.player), s.captures)
    ensures h.Valid() && h.side == side && Holds(cells[..], h)
  {
    hide Holds;
    h := WriteCell(cells, side, g, s.pos, s.player);
    ghost var placed := h;
    for k := 0 to |s.captures|
      invariant h == Lift(placed, s.captures[..k])
      invariant h.Valid() && h.side == side && Holds(cells[..], h)
    {
      assert s.captures[..k + 1][..k] == s.captures[..k];
      assert s.captures[k] in s.captures;
      h := WriteCell(cells, side, h, s.captures[k].first, EMPTY);
      h := WriteCell(cells, side, h, s.captures[k].second, EMPTY);
    }
    assert s.captures[..|s.captures|] == s.captures;
  }

  method WriteCell(cells: array<Color>, side: int, ghost g: Grid, p: Position, c: Color) returns (ghost h: Grid)
    requires g.Valid() && g.side == side && Holds(cells[..], g) && In(side, p)
    modifies cells
    ensures h == g.Put(p, c) && h.Valid() && Holds(cells[..], h)
  {
    HoldsPut(cells[..], g, p, c);
    ghost var was := cells[..];
    cells[Idx(side, p)] := c;
    h := g.Put(p, c);
    assert cells[..] == was[Idx(side, p) := c];
  }

  /** p comes before (q, r) when rows of constant r are filled one after the other. */
  predicate ScannedBefore(p: Position, q: int, r: int) {
    p.r < r || (p.r == r && p.q < q)
  }

  method EmptyCells(side: int) returns (cells: array<Color>)
    requires side >= 1
    ensures fresh(cells) && Holds(cells[..], EmptyGrid(side))
  {
    hide SlotPosition, EmptyGrid;
    var span := 2 * side - 1;
    MulBounds(0, 0, span);
    cells := new Color[span * span];
    forall i | 0 <= i < cells.Length ensures InSquare(side, SlotPosition(side, i)) {
      SlotBijective(side, i);
    }
    for r := -(side - 1) to side
      invariant Filled(cells[..], side, -(side - 1), r)
    {
      FillRow(cells, side, r);
    }
    SideOfEmptyGrid(side);
  }

  lemma SideOfEmptyGrid(side: int)
    requires side >= 1
    ensures EmptyGrid(side).side == side
  {
  }

  /** The slots scanned before (q, r) hold the empty board. */
  ghost predicate Filled(cells: seq<Color>, side: int, q: int, r: int)
    requires side >= 1
  {
    forall i :: 0 <= i < |cells| && ScannedBefore(SlotPosition(side, i), q, r) ==> cells[i] == SlotColor(EmptyGrid(side), i)
  }

  method FillRow(cells: array<Color>, side: int, r: int)
    requires side >= 1 && -side < r < side && cells.Length == Span(side) * Span(side)
    requires Filled(cells[..], side, -(side - 1), r)
    modifies cells
    ensures Filled(cells[..], side, -(side - 1), r + 1)
  {
    hide SlotPosition, EmptyGrid, Idx, In;
    for q := -(side - 1) to side
      invariant Filled(cells[..], side, q, r)
    {
      FillCell(cells, side, q, r);
    }
    forall i | 0 <= i < cells.Length ensures -side < SlotPosition(side, i).q < side {
      SlotBijective(side, i);
    }
  }

  method FillCell(cells: array<Color>, side: int, q: int, r: int)
    requires side >= 1 && -side < r < side && -side < q < side && cells.Length == Span(side) * Span(side)
    requires Filled(cells[..], side, q, r)
    modifies cells
    ensures Filled(cells[..], side, q + 1, r)
  {
    hide SlotPosition, Idx;
    var p := Position(q, r);
    IdxBijective(side, p);
    forall i | 0 <= i < cells.Length && SlotPosition(side, i) == p ensures i == Idx(side, p) {
      SlotBijective(side, i);
    }
    cells[Idx(side, p)] := if In(side, p) then EMPTY else OFF_BOARD;
  }

  /** The engine's grid after k replayed moves. */
  ghost function GridAfterMoves(start: Game, history: seq<Move>, k: nat): Grid
    requires start.Valid() && ReplayFrom(start, history).Some? && k <= |history|
  {
    if k == 0 then start.grid else ReplayFrom(start, history).value.log[k - 1].position.grid
  }

  lemma {:induction false} FinalGrid(start: Game, history: seq<Move>)
    requires start.Valid() && ReplayFrom(start, history).Some?
    ensures ReplayFrom(start, history).value.game.grid == GridAfterMoves(start, history, |history|)
    ensures ReplayFrom(start, history).value.game.grid.side == start.grid.side
  {
    if history != [] {
      FinalGrid(start, history[..|history| - 1]);
      GridAfterValid(ReplayFrom(start, history[..|history| - 1]).value.game.grid, history[|history| - 1]);
    }
  }

  lemma MoveStaysOnBoard(g: Grid, m: Move)
    requires g.Valid() && m.pos in g.cell
    ensures forall c :: c in CapturesBy(g, m) ==> In(g.side, c.first) && In(g.side, c.second)
  {
    var placed := g.Put(m.pos, m.player);
    forall c | c in CapturesBy(g, m) ensures In(g.side, c.first) && In(g.side, c.second) {
      CaptureTakesOpponents(placed, m.pos, m.player, c);
      assert c.first in placed.cell && c.second in placed.cell;
    }
  }

  lemma {:induction false} RebuiltGrid(start: Game, history: seq<Move>)
    requires start.Valid() && ReplayFrom(start, history).Some?
    ensures var t := ReplayFrom(start, history).value; GridFrom(start.grid, StepsOf(t.log)) == t.game.grid
  {
    if history != [] {
      var rest := history[..|history| - 1];
      RebuiltGrid(start, rest);
      var s := ReplayFrom(start, rest).value;
      var t := ReplayFrom(start, history).value;
      assert StepsOf(t.log)[..|t.log| - 1] == StepsOf(s.log);
    }
  }

  lemma {:induction false} StepsStayOnBoard(start: Game, history: seq<Move>)
    requires start.Valid() && ReplayFrom(start, history).Some?
    ensures StepsOnBoard(start.grid.side, StepsOf(ReplayFrom(start, history).value.log))
  {
    if history != [] {
      var rest := history[..|history| - 1];
      StepsStayOnBoard(start, rest);
      FinalGrid(start, rest);
      var s := ReplayFrom(start, rest).value;
      var steps := StepsOf(ReplayFrom(start, history).value.log);
      MoveStaysOnBoard(s.game.grid, history[|history| - 1]);
      forall i | 0 <= i < |steps|
        ensures In(start.grid.side, steps[i].pos)
        ensures forall c :: c in steps[i].captures ==> In(start.grid.side, c.first) && In(start.grid.side, c.second)
      {
        assert i < |rest| ==> steps[i] == StepsOf(s.log)[i];
      }
    }
  }

  lemma {:induction false} ReplayPrefix(start: Game, history: seq<Move>, k: nat)
    requires start.Valid() && ReplayFrom(start, history).Some? && k <= |history|
    ensures ReplayFrom(start, history[..k]).Some?
    ensures ReplayFrom(start, history[..k]).value.log == ReplayFrom(start, history).value.log[..k]
  {
    hide Apply;
    if k == |history| {
      assert history[..k] == history;
    } else {
      ReplayPrefix(start, history[..|history| - 1], k);
      assert history[..|history| - 1][..k] == history[..k];
    }
  }

  /** Rebuilding from the recorded captures gives the engine's own grid after every prefix of the moves. */
  lemma RebuiltGridLaw(start: Game, history: seq<Move>, k: nat)
    requires start.Valid() && ReplayFrom(start, history).Some? && k <= |history|
    ensures GridFrom(start.grid, StepsOf(ReplayFrom(start, history).value.log)[..k]) == GridAfterMoves(start, history, k)
    ensures StepsOnBoard(start.grid.side, StepsOf(ReplayFrom(start, history).value.log))
  {
    StepsStayOnBoard(start, history);
    ReplayPrefix(start, history, k);
    RebuiltGrid(start, history[..k]);
    FinalGrid(start, history[..k]);
    var log := ReplayFrom(start, history).value.log;
    assert StepsOf(log)[..k] == StepsOf(log[..k]);
  }

  /** For every run, the client's cells after k steps of the replay view are, slot by slot, the array of any engine
      board that stands where the live game stood after its k-th move. */
  lemma ClientCellsMatchEngine(colors: seq<Color>, cfg: Config, acts: seq<Action>, k: nat, cells: seq<Color>, engine: seq<Color>)
    requires colors != [] && cfg.boardSide >= 1 && k <= |Exec(colors, cfg, acts).log|
    requires Holds(cells, GridFrom(EmptyGrid(cfg.boardSide), StepsOf(Exec(colors, cfg, acts).log)[..k]))
    requires Holds(engine, if k == 0 then EmptyGrid(cfg.boardSide) else Exec(colors, cfg, acts).log[k - 1].position.grid)
    ensures cells == engine
  {
    ReplayLaw(colors, cfg, acts);
    RebuiltGridLaw(NewGame(colors, cfg), Exec(colors, cfg, acts).game.history, k);
    LoggedGridsValid(colors, cfg, acts, k);
    var grid := if k == 0 then EmptyGrid(cfg.boardSide) else Exec(colors, cfg, acts).log[k - 1].position.grid;
    HoldsIsOneToOne(cells, engine, grid, grid);
  }

  /** Every logged position stands on a well-formed grid. */
  lemma {:induction false} LoggedGridsValid(colors: seq<Color>, cfg: Config, acts: seq<Action>, k: nat)
    requires colors != [] && cfg.boardSide >= 1 && k <= |Exec(colors, cfg, acts).log|
    ensures k > 0 ==> Exec(colors, cfg, acts).log[k - 1].position.grid.Valid()
  {
    hide Accept;
    if acts != [] {
      var before := Exec(colors, cfg, acts[..|acts| - 1]);
      if k <= |before.log| {
        LoggedGridsValid(colors, cfg, acts[..|acts| - 1], k);
      }
    }
  }
}
