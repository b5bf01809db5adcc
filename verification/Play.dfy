/** Whole games: any sequence of moves, clock starts, forfeits, resignations and draws applied to a new
    game, refused moves included. The laws below hold after every such sequence. */
module Play {
  import opened Wrappers
  import opened Hex
  import opened Boards
  import opened Captures
  import opened Runs
  import opened Engine

  datatype Action =
    | PlayMove(move: Move, now: Time)
    | StartClock(at: Time)
    | Forfeit(loser: Color)
    | Resign(quitter: Color)
    | AgreeDraw

  /** One accepted move, its result, and the game it left, clocks apart. */
  datatype Entry = Entry(move: Move, result: MoveResult, position: Game)

  /** A game in progress and the log of its accepted moves. */
  datatype Trace = Trace(game: Game, log: seq<Entry>)

  ghost function Do(t: Trace, act: Action): (u: Trace)
    requires t.game.Valid()
    ensures u.game.Valid() && |u.game.players| == |t.game.players|
  {
    match act
    case PlayMove(m, now) =>
      (match Apply(t.game, m, now)
       case Ok(after) => Trace(after.0, t.log + [Entry(m, after.1, after.0.Core())])
       case Err(_) => t)
    case StartClock(now) => t.(game := ClockStarted(t.game, now))
    case Forfeit(c) => t.(game := Forfeited(t.game, c))
    case Resign(c) => t.(game := Resigned(t.game, c))
    case AgreeDraw => t.(game := AgreedDraw(t.game))
  }

  ghost predicate Playable(colors: seq<Color>, cfg: Config) {
    && colors != []
    && cfg.boardSide >= 1
    && NoDuplicates(colors)
    && EMPTY !in colors
  }

  ghost function Exec(colors: seq<Color>, cfg: Config, acts: seq<Action>): (t: Trace)
    requires colors != [] && cfg.boardSide >= 1
    ensures t.game.Valid() && |t.game.players| == |colors|
  {
    if acts == [] then Trace(NewGame(colors, cfg), [])
    else Do(Exec(colors, cfg, acts[..|acts| - 1]), acts[|acts| - 1])
  }

  lemma ExecStep(colors: seq<Color>, cfg: Config, acts: seq<Action>, act: Action)
    requires colors != [] && cfg.boardSide >= 1
    ensures Exec(colors, cfg, acts + [act]) == Do(Exec(colors, cfg, acts), act)
  {
    assert (acts + [act])[..|acts|] == acts;
  }

  // ---- Lifting captured stones ----

  function VictimCount(cs: seq<Capture>, c: Color): nat {
    if cs == [] then 0
    else VictimCount(cs[..|cs| - 1], c) + if cs[|cs| - 1].victim == c then 1 else 0
  }

  /** Every listed pair holds two stones of its victim, and no stone is listed twice. */
  ghost predicate Liftable(g: Grid, cs: seq<Capture>) {
    && PairwiseDisjoint(cs)
    && forall i :: 0 <= i < |cs| ==>
      && cs[i].victim != EMPTY
      && cs[i].first != cs[i].second
      && g.Has(cs[i].first, cs[i].victim)
      && g.Has(cs[i].second, cs[i].victim)
  }

  lemma CapturesLiftable(g: Grid, from: Position, mover: Color)
    requires g.Has(from, mover)
    ensures Liftable(g, CapturesOf(g, from, mover))
    ensures forall i :: 0 <= i < |CapturesOf(g, from, mover)| ==> CapturesOf(g, from, mover)[i].victim != mover
  {
    var cs := CapturesOf(g, from, mover);
    CapturesDisjoint(g, from, mover);
    forall i | 0 <= i < |cs|
      ensures cs[i].victim != EMPTY && cs[i].victim != mover && cs[i].first != cs[i].second
      ensures g.Has(cs[i].first, cs[i].victim) && g.Has(cs[i].second, cs[i].victim)
    {
      CaptureTakesOpponents(g, from, mover, cs[i]);
    }
  }

  lemma {:induction false} LiftElsewhere(g: Grid, cs: seq<Capture>, p: Position)
    requires forall i :: 0 <= i < |cs| ==> p != cs[i].first && p != cs[i].second
    ensures p in Lift(g, cs).cell <==> p in g.cell
    ensures p in g.cell ==> Lift(g, cs).cell[p] == g.cell[p]
  {
    if cs != [] {
      LiftElsewhere(g, cs[..|cs| - 1], p);
    }
  }

  lemma PutEmptySizes(g: Grid, p: Position, v: Color, c: Color)
    requires g.Has(p, v) && v != EMPTY && c != EMPTY
    ensures |g.Put(p, EMPTY).Stones(c)| == |g.Stones(c)| - (if c == v then 1 else 0)
    ensures |g.Put(p, EMPTY).Occupied()| == |g.Occupied()| - 1
  {
    var h := g.Put(p, EMPTY);
    assert h.Occupied() == g.Occupied() - {p};
    assert h.Stones(c) == g.Stones(c) - {p};
  }

  lemma PutStoneSizes(g: Grid, p: Position, m: Color, c: Color)
    requires g.Has(p, EMPTY) && m != EMPTY && c != EMPTY
    ensures |g.Put(p, m).Stones(c)| == |g.Stones(c)| + (if c == m then 1 else 0)
    ensures |g.Put(p, m).Occupied()| == |g.Occupied()| + 1
  {
    var h := g.Put(p, m);
    assert h.Occupied() == g.Occupied() + {p};
    if c == m {
      assert h.Stones(c) == g.Stones(c) + {p};
    } else {
      assert h.Stones(c) == g.Stones(c);
    }
  }

  lemma {:induction false} LiftSizes(g: Grid, cs: seq<Capture>, c: Color)
    requires Liftable(g, cs) && c != EMPTY
    ensures |Lift(g, cs).Stones(c)| == |g.Stones(c)| - 2 * VictimCount(cs, c)
    ensures |Lift(g, cs).Occupied()| == |g.Occupied()| - 2 * |cs|
  {
    if cs != [] {
      var rest := cs[..|cs| - 1];
      var last := cs[|cs| - 1];
      LiftSizes(g, rest, c);
      var h := Lift(g, rest);
      forall i | 0 <= i < |rest|
        ensures last.first != rest[i].first && last.first != rest[i].second
        ensures last.second != rest[i].first && last.second != rest[i].second
      {
        assert Disjoint(cs[i], cs[|cs| - 1]);
        assert cs[i].first in {cs[i].first, cs[i].second} && cs[i].second in {cs[i].first, cs[i].second};
      }
      LiftElsewhere(g, rest, last.first);
      LiftElsewhere(g, rest, last.second);
      PutEmptySizes(h, last.first, last.victim, c);
      PutEmptySizes(h.Put(last.first, EMPTY), last.second, last.victim, c);
    }
  }

  /** What one accepted move does to the stone counts. */
  lemma MoveSizes(g: Grid, m: Move, c: Color)
    requires g.Valid() && g.Has(m.pos, EMPTY) && m.player != EMPTY && c != EMPTY
    ensures |GridAfter(g, m).Stones(c)| ==
            |g.Stones(c)| + (if c == m.player then 1 else 0) - 2 * VictimCount(CapturesBy(g, m), c)
    ensures |GridAfter(g, m).Occupied()| == |g.Occupied()| + 1 - 2 * |CapturesBy(g, m)|
  {
    PutStoneSizes(g, m.pos, m.player, c);
    CapturesLiftable(g.Put(m.pos, m.player), m.pos, m.player);
    LiftSizes(g.Put(m.pos, m.player), CapturesBy(g, m), c);
  }

  // ---- The roster ----

  /** The players keep their colours and order, and the history is the log's moves. */
  ghost predicate RosterKept(t: Trace, colors: seq<Color>, cfg: Config) {
    && t.game.Valid()
    && t.game.config == cfg
    && t.game.grid.side == cfg.boardSide
    && |t.game.players| == |colors|
    && (forall i :: 0 <= i < |colors| ==> t.game.players[i].color == colors[i])
    && |t.game.history| == |t.log|
    && (forall i :: 0 <= i < |t.log| ==> t.game.history[i] == t.log[i].move)
  }

  lemma DoKeepsRoster(t: Trace, act: Action, colors: seq<Color>, cfg: Config)
    requires RosterKept(t, colors, cfg)
    ensures RosterKept(Do(t, act), colors, cfg)
  {
    if act.PlayMove? && Apply(t.game, act.move, act.now).Ok? {
      GridAfterValid(t.game.grid, act.move);
    }
  }

  lemma {:induction false} RosterLaw(colors: seq<Color>, cfg: Config, acts: seq<Action>)
    requires colors != [] && cfg.boardSide >= 1
    ensures RosterKept(Exec(colors, cfg, acts), colors, cfg)
  {
    if acts != [] {
      RosterLaw(colors, cfg, acts[..|acts| - 1]);
      DoKeepsRoster(Exec(colors, cfg, acts[..|acts| - 1]), acts[|acts| - 1], colors, cfg);
    }
  }

  // ---- Conservation ----

  function SumGems(players: seq<Player>): int {
    if players == [] then 0 else SumGems(players[..|players| - 1]) + players[|players| - 1].gemsRemaining
  }

  function SumPairs(players: seq<Player>): int {
    if players == [] then 0 else SumPairs(players[..|players| - 1]) + players[|players| - 1].capturedPairs
  }

  lemma {:induction false} SumsUpdate(players: seq<Player>, i: nat, p: Player)
    requires i < |players|
    ensures SumGems(players[i := p]) == SumGems(players) - players[i].gemsRemaining + p.gemsRemaining
    ensures SumPairs(players[i := p]) == SumPairs(players) - players[i].capturedPairs + p.capturedPairs
  {
    var rest := players[..|players| - 1];
    if i < |rest| {
      SumsUpdate(rest, i, p);
      assert players[i := p][..|players| - 1] == rest[i := p];
    } else {
      assert players[i := p][..|players| - 1] == rest;
    }
  }

  /** The stones of colour c that the logged moves captured. */
  function Taken(log: seq<Entry>, c: Color): nat {
    if log == [] then 0
    else Taken(log[..|log| - 1], c) + 2 * VictimCount(log[|log| - 1].result.captures, c)
  }

  /** 50 gems per player are always in stock, on the board or captured, in total and colour by colour. */
  ghost predicate Conserved(t: Trace) {
    && SumGems(t.game.players) + |t.game.grid.Occupied()| + 2 * SumPairs(t.game.players)
       == GEMS_PER_PLAYER * |t.game.players|
    && forall i :: 0 <= i < |t.game.players| ==> ColorConserved(t, i)
  }

  ghost predicate ColorConserved(t: Trace, i: nat)
    requires i < |t.game.players|
  {
    var p := t.game.players[i];
    p.gemsRemaining + |t.game.grid.Stones(p.color)| + Taken(t.log, p.color) == GEMS_PER_PLAYER
  }

  lemma NewGameConserved(colors: seq<Color>, cfg: Config)
    requires Playable(colors, cfg)
    ensures Conserved(Trace(NewGame(colors, cfg), []))
  {
    var t := Trace(NewGame(colors, cfg), []);
    assert t.game.grid.Occupied() == {};
    NewGameSums(t.game.players);
    forall i | 0 <= i < |t.game.players| ensures ColorConserved(t, i) {
      assert t.game.grid.Stones(colors[i]) == {};
    }
  }

  lemma {:induction false} NewGameSums(players: seq<Player>)
    requires forall i :: 0 <= i < |players| ==> players[i].gemsRemaining == GEMS_PER_PLAYER && players[i].capturedPairs == 0
    ensures SumGems(players) == GEMS_PER_PLAYER * |players| && SumPairs(players) == 0
  {
    if players != [] {
      NewGameSums(players[..|players| - 1]);
    }
  }

  lemma MoveConservesTotal(t: Trace, m: Move, now: Time, colors: seq<Color>, cfg: Config)
    requires Playable(colors, cfg) && RosterKept(t, colors, cfg) && Conserved(t)
    requires Refusal(t.game, m, now) == None
    ensures var u := Accept(t.game, m, now).0;
      SumGems(u.players) + |u.grid.Occupied()| + 2 * SumPairs(u.players) == GEMS_PER_PLAYER * |u.players|
  {
    var g := t.game;
    assert m.player == colors[g.turn];
    MoveSizes(g.grid, m, m.player);
    SumsUpdate(g.players, g.turn, Scored(Timed(g, g.Current(), now), |CapturesBy(g.grid, m)|));
  }

  lemma MoveConservesColor(t: Trace, m: Move, now: Time, colors: seq<Color>, cfg: Config, i: nat)
    requires Playable(colors, cfg) && RosterKept(t, colors, cfg) && Conserved(t)
    requires Refusal(t.game, m, now) == None && i < |colors|
    ensures ColorConserved(Do(t, PlayMove(m, now)), i)
  {
    var g := t.game;
    var u := Do(t, PlayMove(m, now));
    assert ColorConserved(t, i);
    assert u.log[..|u.log| - 1] == t.log;
    assert m.player == colors[g.turn] && (i != g.turn ==> colors[i] != m.player);
    assert m.player in colors && colors[i] in colors;
    MoveSizes(g.grid, m, colors[i]);
    CapturesLiftable(g.grid.Put(m.pos, m.player), m.pos, m.player);
  }

  /** Endings and clock starts touch neither stocks, captures nor the board. */
  lemma OthersKeepStocks(g: Game, act: Action)
    requires g.Valid() && !act.PlayMove?
    ensures var u := Do(Trace(g, []), act).game;
      && u.grid == g.grid && u.turn == g.turn && u.history == g.history && |u.players| == |g.players|
      && forall i :: 0 <= i < |g.players| ==>
        u.players[i].(timeRemainingMs := 0) == g.players[i].(timeRemainingMs := 0)
  {
  }

  lemma {:induction false} SumsIgnoreClocks(a: seq<Player>, b: seq<Player>)
    requires |a| == |b|
    requires forall i :: 0 <= i < |a| ==> a[i].(timeRemainingMs := 0) == b[i].(timeRemainingMs := 0)
    ensures SumGems(a) == SumGems(b) && SumPairs(a) == SumPairs(b)
  {
    if a != [] {
      SumsIgnoreClocks(a[..|a| - 1], b[..|b| - 1]);
      assert a[|a| - 1].(timeRemainingMs := 0) == b[|b| - 1].(timeRemainingMs := 0);
    }
  }

  lemma DoConserves(t: Trace, act: Action, colors: seq<Color>, cfg: Config)
    requires Playable(colors, cfg) && RosterKept(t, colors, cfg) && Conserved(t)
    ensures Conserved(Do(t, act))
  {
    var u := Do(t, act);
    if act.PlayMove? {
      if Refusal(t.game, act.move, act.now) == None {
        MoveConservesTotal(t, act.move, act.now, colors, cfg);
        forall i | 0 <= i < |u.game.players| ensures ColorConserved(u, i) {
          MoveConservesColor(t, act.move, act.now, colors, cfg, i);
        }
      }
    } else {
      OthersKeepStocks(t.game, act);
      SumsIgnoreClocks(u.game.players, t.game.players);
      forall i | 0 <= i < |u.game.players| ensures ColorConserved(u, i) {
        assert ColorConserved(t, i);
        assert u.game.players[i].(timeRemainingMs := 0) == t.game.players[i].(timeRemainingMs := 0);
      }
    }
  }

  /** Gems are conserved over every run, in total and colour by colour. */
  lemma {:induction false} ConservationLaw(colors: seq<Color>, cfg: Config, acts: seq<Action>)
    requires Playable(colors, cfg)
    ensures Conserved(Exec(colors, cfg, acts))
  {
    if acts == [] {
      NewGameConserved(colors, cfg);
    } else {
      ConservationLaw(colors, cfg, acts[..|acts| - 1]);
      RosterLaw(colors, cfg, acts[..|acts| - 1]);
      DoConserves(Exec(colors, cfg, acts[..|acts| - 1]), acts[|acts| - 1], colors, cfg);
    }
  }
}
