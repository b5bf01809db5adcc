/** The rules engine: placements, captures, win thresholds, stocks, turns and chess clocks.
    A Game is a value; GameState is the mutable object whose methods the rest of the server calls. */
module Engine {
  import opened Wrappers
  import opened Hex
  import opened Boards
  import opened Captures
  import opened Runs

  const MAX_PLAYERS := 6
  const GEMS_PER_PLAYER := 50
  const DEFAULT_BOARD_SIDE := 11
  const DEFAULT_INITIAL_TIME_MS := 10 * 60 * 1000

  /** Nanoseconds since the zero time; ZERO_TIME means "no clock reading". */
  type Time = int

  const ZERO_TIME: Time := 0
  const MAX_DURATION := 0x7fff_ffff_ffff_ffff

  datatype Config = Config(
    boardSide: int,
    capturePairsWin: int,
    align4ToWin: int,
    align5ToWin: int,
    initialTimeMs: int,
    incrementMs: int)

  datatype WinKind =
    | NoWin
    | Alignment6
    | Alignment5
    | Alignment4
    | CaptureWin
    | Timeout
    | Resignation
    | DrawAgreed

  datatype Player = Player(color: Color, gemsRemaining: int, capturedPairs: int, timeRemainingMs: int)

  datatype Move = Move(player: Color, pos: Position)

  datatype MoveResult = MoveResult(captures: seq<Capture>, winner: Color, winKind: WinKind)

  datatype MoveError = GameOver | WrongTurn | OutOfBounds | CellOccupied | NoGemsLeft | Flagged

  function DefaultConfig(numPlayers: int): Config {
    var base := Config(DEFAULT_BOARD_SIDE, 12, 8, 3, DEFAULT_INITIAL_TIME_MS, 0);
    match numPlayers
    case 3 => base.(capturePairsWin := 10, align4ToWin := 6, align5ToWin := 3)
    case 4 => base.(capturePairsWin := 9, align4ToWin := 5, align5ToWin := 2)
    case 5 => base.(capturePairsWin := 7, align4ToWin := 4, align5ToWin := 2)
    case 6 => base.(capturePairsWin := 6, align4ToWin := 4, align5ToWin := 2)
    case _ => base
  }

  /** The rulebook thresholds for numPlayers with base's time control and, when it has one, its board side. */
  function ConfigFor(numPlayers: int, base: Config): Config {
    DefaultConfig(numPlayers).(
      initialTimeMs := base.initialTimeMs,
      incrementMs := base.incrementMs,
      boardSide := if base.boardSide > 0 then base.boardSide else DEFAULT_BOARD_SIDE)
  }

  datatype Game = Game(
    config: Config,
    grid: Grid,
    players: seq<Player>,
    turn: int,
    history: seq<Move>,
    winner: Color,
    winKind: WinKind,
    turnStartedAt: Time)
  {
    ghost predicate Valid() {
      grid.Valid() && 0 <= turn < |players|
    }

    predicate Over() {
      winner != EMPTY || winKind != NoWin
    }

    predicate ClockEnabled() {
      config.initialTimeMs > 0
    }

    /** The game with every clock field erased: board, stocks, captures, turn, history and outcome. */
    function Core(): Game {
      this.(players := StopClocks(players), turnStartedAt := ZERO_TIME)
    }

    function Current(): Player
      requires 0 <= turn < |players|
    {
      players[turn]
    }
  }

  function StopClocks(players: seq<Player>): seq<Player> {
    seq(|players|, i requires 0 <= i < |players| => players[i].(timeRemainingMs := 0))
  }

  function NewPlayer(color: Color, cfg: Config): Player {
    Player(color, GEMS_PER_PLAYER, 0, cfg.initialTimeMs)
  }

  function NewGame(colors: seq<Color>, cfg: Config): (g: Game)
    requires colors != [] && cfg.boardSide >= 1
    ensures g.Valid()
  {
    Game(cfg, EmptyGrid(cfg.boardSide), seq(|colors|, i requires 0 <= i < |colors| => NewPlayer(colors[i], cfg)),
         0, [], EMPTY, NoWin, ZERO_TIME)
  }

  // ---- Clock arithmetic ----

  /** The whole milliseconds from `since` to `now`: the difference saturates at 64 bits and truncates toward zero. */
  function ElapsedMs(now: Time, since: Time): int {
    var d := now - since;
    var s := if d > MAX_DURATION then MAX_DURATION else if d < -MAX_DURATION - 1 then -MAX_DURATION - 1 else d;
    if s >= 0 then s / 1_000_000 else -((-s) / 1_000_000)
  }

  /** The clock reading of the player to move. */
  function Remaining(g: Game, now: Time): int
    requires 0 <= g.turn < |g.players|
  {
    var stored := g.Current().timeRemainingMs;
    if !g.ClockEnabled() || g.Over() || g.turnStartedAt == ZERO_TIME then stored
    else
      var r := stored - ElapsedMs(now, g.turnStartedAt);
      if r < 0 then 0 else r
  }

  predicate ClockRuns(g: Game) {
    g.ClockEnabled() && g.turnStartedAt != ZERO_TIME
  }

  /** The time charged for a move played at now; skew backwards is forgiven. */
  function Charged(g: Game, now: Time): int {
    var e := ElapsedMs(now, g.turnStartedAt);
    if e < 0 then 0 else e
  }

  // ---- Placing a stone ----

  /** Why a move is refused, in the order in which it is tested; None when it is accepted. */
  function Refusal(g: Game, m: Move, now: Time): Option<MoveError>
    requires 0 <= g.turn < |g.players|
  {
    if g.Over() then Some(GameOver)
    else if g.Current().color != m.player then Some(WrongTurn)
    else if m.pos !in g.grid.cell then Some(OutOfBounds)
    else if g.grid.cell[m.pos] != EMPTY then Some(CellOccupied)
    else if g.Current().gemsRemaining <= 0 then Some(NoGemsLeft)
    else if ClockRuns(g) && Charged(g, now) > g.Current().timeRemainingMs then Some(Flagged)
    else None
  }

  /** The grid with both stones of every capture lifted. */
  function Lift(g: Grid, cs: seq<Capture>): Grid {
    if cs == [] then g
    else
      var last := cs[|cs| - 1];
      Lift(g, cs[..|cs| - 1]).Put(last.first, EMPTY).Put(last.second, EMPTY)
  }

  /** The grid after m: the stone is placed, then everything it captures is lifted. */
  function GridAfter(g: Grid, m: Move): Grid {
    var placed := g.Put(m.pos, m.player);
    Lift(placed, CapturesOf(placed, m.pos, m.player))
  }

  function CapturesBy(g: Grid, m: Move): seq<Capture> {
    CapturesOf(g.Put(m.pos, m.player), m.pos, m.player)
  }

  /** The mover after m, apart from the clock: one stone fewer, the captured pairs credited. */
  function Scored(p: Player, pairs: nat): Player {
    p.(gemsRemaining := p.gemsRemaining - 1, capturedPairs := p.capturedPairs + pairs)
  }

  function Timed(g: Game, p: Player, now: Time): Player {
    if ClockRuns(g)
    then p.(timeRemainingMs := p.timeRemainingMs - Charged(g, now) + g.config.incrementMs)
    else p
  }

  /** The win the player has achieved on this grid, by precedence, or NoWin. */
  ghost function WinOf(cfg: Config, g: Grid, p: Player): WinKind
    requires g.Valid()
  {
    if ContainsRun(g, p.color, 6) then Alignment6
    else if cfg.align5ToWin > 0 && CountRuns(g, p.color, 5) >= cfg.align5ToWin then Alignment5
    else if cfg.align4ToWin > 0 && CountRuns(g, p.color, 4) >= cfg.align4ToWin then Alignment4
    else if cfg.capturePairsWin > 0 && p.capturedPairs >= cfg.capturePairsWin then CaptureWin
    else NoWin
  }

  /** The captures of a move on an empty cell lie on the board, so the grid stays well-formed. */
  lemma {:induction false} LiftValid(g: Grid, cs: seq<Capture>)
    requires g.Valid() && forall c :: c in cs ==> c.first in g.cell && c.second in g.cell
    ensures Lift(g, cs).Valid() && Lift(g, cs).side == g.side
    ensures forall p, c :: Lift(g, cs).Has(p, c) && c != EMPTY ==> g.Has(p, c)
  {
    if cs != [] {
      LiftValid(g, cs[..|cs| - 1]);
    }
  }

  lemma GridAfterValid(g: Grid, m: Move)
    requires g.Valid() && m.pos in g.cell
    ensures GridAfter(g, m).Valid() && GridAfter(g, m).side == g.side
    ensures forall p, c :: GridAfter(g, m).Has(p, c) && c != EMPTY && c != m.player ==> g.Has(p, c)
    ensures forall p :: GridAfter(g, m).Has(p, m.player) && m.player != EMPTY ==> p == m.pos || g.Has(p, m.player)
  {
    var placed := g.Put(m.pos, m.player);
    forall c | c in CapturesOf(placed, m.pos, m.player)
      ensures c.first in placed.cell && c.second in placed.cell
    {
      CaptureTakesOpponents(placed, m.pos, m.player, c);
    }
    LiftValid(placed, CapturesOf(placed, m.pos, m.player));
  }

  /** The state after an accepted move, and what the mover is told. */
  ghost function Accept(g: Game, m: Move, now: Time): (Game, MoveResult)
    requires g.Valid() && m.pos in g.grid.cell
  {
    GridAfterValid(g.grid, m);
    var grid := GridAfter(g.grid, m);
    var captures := CapturesBy(g.grid, m);
    var mover := Scored(Timed(g, g.Current(), now), |captures|);
    var moved := g.(grid := grid, players := g.players[g.turn := mover], history := g.history + [m]);
    var kind := WinOf(g.config, grid, mover);
    if kind != NoWin then
      (moved.(winner := mover.color, winKind := kind), MoveResult(captures, mover.color, kind))
    else
      (moved.(turn := (g.turn + 1) % |g.players|, turnStartedAt := if g.ClockEnabled() then now else g.turnStartedAt),
       MoveResult(captures, EMPTY, NoWin))
  }

  ghost function Apply(g: Game, m: Move, now: Time): (r: Result<(Game, MoveResult), MoveError>)
    requires g.Valid()
    ensures r.Ok? ==> r.value.0.Valid()
  {
    match Refusal(g, m, now)
    case Some(e) => Err(e)
    case None =>
      GridAfterValid(g.grid, m);
      Ok(Accept(g, m, now))
  }

  // ---- Endings that are not moves ----

  function FirstOther(players: seq<Player>, loser: Color): Option<Color> {
    if players == [] then None
    else if players[0].color != loser then Some(players[0].color)
    else FirstOther(players[1..], loser)
  }

  function ZeroClock(players: seq<Player>, loser: Color): seq<Player> {
    seq(|players|, i requires 0 <= i < |players| =>
      if players[i].color == loser then players[i].(timeRemainingMs := 0) else players[i])
  }

  /** loser ran out of time: with two players the other one wins, with more nobody does. */
  function Forfeited(g: Game, loser: Color): Game {
    if g.Over() then g
    else if |g.players| == 2 && FirstOther(g.players, loser).Some?
    then g.(winKind := Timeout, winner := FirstOther(g.players, loser).value)
    else g.(winKind := Timeout, winner := EMPTY, players := ZeroClock(g.players, loser))
  }

  function Resigned(g: Game, loser: Color): Game {
    if g.Over() then g
    else if |g.players| == 2 && FirstOther(g.players, loser).Some?
    then g.(winKind := Resignation, winner := FirstOther(g.players, loser).value)
    else g.(winKind := Resignation, winner := EMPTY)
  }

  function AgreedDraw(g: Game): Game {
    if g.Over() then g else g.(winKind := DrawAgreed, winner := EMPTY)
  }

  function ClockStarted(g: Game, now: Time): Game {
    if g.ClockEnabled() then g.(turnStartedAt := now) else g
  }

  // ---- The object ----

  /** Sets the stone, then lifts every captured pair. */
  method PlaceStone(board: Board, m: Move) returns (captures: seq<Capture>)
    requires board.Valid() && In(board.side, m.pos)
    modifies board`view, board.cells
    ensures board.Valid() && board.view == GridAfter(old(board.view), m)
    ensures captures == CapturesBy(old(board.view), m)
  {
    board.Set(m.pos, m.player);
    ghost var placed := board.view;
    captures := DetectCaptures(board, m.pos, m.player);
    for i := 0 to |captures|
      invariant board.Valid() && board.view == Lift(placed, captures[..i])
    {
      CaptureTakesOpponents(placed, m.pos, m.player, captures[i]);
      assert captures[..i + 1][..i] == captures[..i];
      board.Set(captures[i].first, EMPTY);
      board.Set(captures[i].second, EMPTY);
    }
    assert captures[..|captures|] == captures;
  }

  class GameState {
    const config: Config
    const board: Board
    var players: seq<Player>
    var turn: int
    var history: seq<Move>
    var winner: Color
    var winKind: WinKind
    var turnStartedAt: Time

    ghost function View(): Game
      reads this, board
    {
      Game(config, board.view, players, turn, history, winner, winKind, turnStartedAt)
    }

    ghost predicate Valid()
      reads this, board, board.cells
    {
      board.Valid() && View().Valid()
    }

    constructor (colors: seq<Color>, cfg: Config)
      requires colors != [] && cfg.boardSide >= 1
      ensures Valid() && fresh(board) && fresh(board.cells)
      ensures View() == NewGame(colors, cfg)
    {
      config := cfg;
      board := new Board(cfg.boardSide);
      players := seq(|colors|, i requires 0 <= i < |colors| => NewPlayer(colors[i], cfg));
      turn, history, winner, winKind, turnStartedAt := 0, [], EMPTY, NoWin, ZERO_TIME;
    }

    /** A deep copy for speculative play; the history is not copied. */
    constructor Clone(other: GameState)
      requires other.Valid()
      ensures Valid() && fresh(board) && fresh(board.cells)
      ensures View() == other.View().(history := [])
    {
      config := other.config;
      board := new Board.Clone(other.board);
      players, turn, history := other.players, other.turn, [];
      winner, winKind, turnStartedAt := other.winner, other.winKind, other.turnStartedAt;
    }

    method StartClock(now: Time)
      requires Valid()
      modifies this`turnStartedAt
      ensures View() == ClockStarted(old(View()), now)
    {
      if config.initialTimeMs > 0 {
        turnStartedAt := now;
      }
    }

    predicate IsOver()
      reads this
      ensures IsOver() == View().Over()
    {
      winner != EMPTY || winKind != NoWin
    }

    /** The clock of the player to move, as it reads now. */
    method RemainingForActive(now: Time) returns (ms: int)
      requires Valid()
      ensures ms == Remaining(View(), now)
    {
      var stored := players[turn].timeRemainingMs;
      if config.initialTimeMs <= 0 || IsOver() {
        return stored;
      }
      if turnStartedAt == ZERO_TIME {
        return stored;
      }
      ms := stored - ElapsedMs(now, turnStartedAt);
      if ms < 0 {
        ms := 0;
      }
    }

    method ApplyMove(m: Move, now: Time) returns (r: Result<MoveResult, MoveError>)
      requires Valid()
      modifies this, board, board.cells
      ensures Valid()
      ensures match Apply(old(View()), m, now)
              case Ok(after) => View() == after.0 && r == Ok(after.1)
              case Err(e) => View() == old(View()) && r == Err(e)
    {
      hide WinOf, GridAfter, CapturesBy, Timed, Charged;
      if IsOver() {
        return Err(GameOver);
      }
      var cur := players[turn];
      if cur.color != m.player {
        return Err(WrongTurn);
      }
      if !In(board.side, m.pos) {
        return Err(OutOfBounds);
      }
      var there := board.At(m.pos);
      if there != EMPTY {
        return Err(CellOccupied);
      }
      if cur.gemsRemaining <= 0 {
        return Err(NoGemsLeft);
      }
      var charged := ChargeClock(now);
      if charged.None? {
        return Err(Flagged);
      }
      cur := charged.value;
      var captures := Place(m);
      history := history + [m];
      var result := Finish(cur.(gemsRemaining := cur.gemsRemaining - 1), captures, now);
      return Ok(result);
    }

    /** The mover with the elapsed time deducted and the increment added; None when the clock is exhausted. */
    method ChargeClock(now: Time) returns (charged: Option<Player>)
      requires Valid()
      ensures charged == if ClockRuns(View()) && Charged(View(), now) > players[turn].timeRemainingMs then None
                         else Some(Timed(View(), players[turn], now))
    {
      var cur := players[turn];
      if config.initialTimeMs > 0 && turnStartedAt != ZERO_TIME {
        var elapsed := ElapsedMs(now, turnStartedAt);
        if elapsed < 0 {
          elapsed := 0;
        }
        if elapsed > cur.timeRemainingMs {
          return None;
        }
        cur := cur.(timeRemainingMs := cur.timeRemainingMs - elapsed);
        cur := cur.(timeRemainingMs := cur.timeRemainingMs + config.incrementMs);
      }
      return Some(cur);
    }

    /** The end of ApplyMove: credits the captures, tests for a win, and otherwise passes the turn. */
    method Finish(placer: Player, captures: seq<Capture>, now: Time) returns (res: MoveResult)
      requires Valid()
      modifies this
      ensures Valid()
      ensures var g := old(View());
        var mover := placer.(capturedPairs := placer.capturedPairs + |captures|);
        var kind := WinOf(g.config, g.grid, mover);
        var scored := g.(players := g.players[g.turn := mover]);
        && View() == (if kind != NoWin then scored.(winner := mover.color, winKind := kind)
                      else scored.(turn := (g.turn + 1) % |g.players|,
                                   turnStartedAt := if g.ClockEnabled() then now else g.turnStartedAt))
        && res == (if kind != NoWin then MoveResult(captures, mover.color, kind) else MoveResult(captures, EMPTY, NoWin))
    {
      var cur := placer.(capturedPairs := placer.capturedPairs + |captures|);
      players := players[turn := cur];
      var kind := CheckWin(cur);
      if kind != NoWin {
        winner, winKind := cur.color, kind;
        return MoveResult(captures, cur.color, kind);
      }
      turn := (turn + 1) % |players|;
      if config.initialTimeMs > 0 {
        turnStartedAt := now;
      }
      return MoveResult(captures, EMPTY, NoWin);
    }

    /** The board half of ApplyMove. */
    method Place(m: Move) returns (captures: seq<Capture>)
      requires Valid() && In(board.side, m.pos)
      modifies board, board.cells
      ensures Valid() && board.view == GridAfter(old(board.view), m)
      ensures captures == CapturesBy(old(board.view), m)
    {
      captures := PlaceStone(board, m);
    }

    method CheckWin(p: Player) returns (kind: WinKind)
      requires Valid()
      ensures kind == WinOf(config, board.view, p)
    {
      var six := HasRun(board, p.color, 6);
      if six {
        return Alignment6;
      }
      if config.align5ToWin > 0 {
        var fives := CountMaximalRuns(board, p.color, 5);
        if fives >= config.align5ToWin {
          return Alignment5;
        }
      }
      if config.align4ToWin > 0 {
        var fours := CountMaximalRuns(board, p.color, 4);
        if fours >= config.align4ToWin {
          return Alignment4;
        }
      }
      if config.capturePairsWin > 0 && p.capturedPairs >= config.capturePairsWin {
        return CaptureWin;
      }
      return NoWin;
    }

    method Forfeit(loser: Color)
      requires Valid()
      modifies this
      ensures Valid() && View() == Forfeited(old(View()), loser)
    {
      if IsOver() {
        return;
      }
      winKind := Timeout;
      if |players| == 2 {
        var other := FindOther(loser);
        if other.Some? {
          winner := other.value;
          return;
        }
      }
      winner := EMPTY;
      ZeroLoserClock(loser);
    }

    method ZeroLoserClock(loser: Color)
      modifies this`players
      ensures players == ZeroClock(old(players), loser)
    {
      ghost var was := players;
      for i := 0 to |players|
        invariant |players| == |was|
        invariant forall k :: 0 <= k < i ==> players[k] == ZeroClock(was, loser)[k]
        invariant forall k :: i <= k < |was| ==> players[k] == was[k]
      {
        if players[i].color == loser {
          players := players[i := players[i].(timeRemainingMs := 0)];
        }
      }
    }

    method FindOther(loser: Color) returns (other: Option<Color>)
      ensures other == FirstOther(players, loser)
    {
      for i := 0 to |players|
        invariant FirstOther(players, loser) == FirstOther(players[i..], loser)
      {
        if players[i].color != loser {
          return Some(players[i].color);
        }
      }
      return None;
    }

    method Resign(loser: Color)
      requires Valid()
      modifies this
      ensures Valid() && View() == Resigned(old(View()), loser)
    {
      if IsOver() {
        return;
      }
      winKind := Resignation;
      if |players| == 2 {
        var other := FindOther(loser);
        if other.Some? {
          winner := other.value;
          return;
        }
      }
      winner := EMPTY;
    }

    method AgreeDraw()
      requires Valid()
      modifies this
      ensures Valid() && View() == AgreedDraw(old(View()))
    {
      if IsOver() {
        return;
      }
      winKind, winner := DrawAgreed, EMPTY;
    }
  }
}
