/** Chess clocks: how a reading relates to the time that passed, to the charge that a move pays and to the flag. */
module Clocks {
  import opened Wrappers
  import opened Boards
  import opened Engine
  import opened Play

  const MILLISECOND := 1_000_000

  /** Elapsed milliseconds never shrink as time goes on, and reach a count when that many have passed in full. */
  lemma ElapsedGrows(now: Time, later: Time, since: Time)
    requires now <= later
    ensures ElapsedMs(now, since) <= ElapsedMs(later, since)
  {
  }

  lemma ElapsedReaches(now: Time, since: Time, ms: int)
    requires 0 <= now - since <= MAX_DURATION
    ensures ElapsedMs(now, since) >= ms <==> now - since >= ms * MILLISECOND
  {
  }

  /** Differences beyond 64 bits of nanoseconds count as the largest, and a clock that went backwards counts in the same
      whole milliseconds, negative. */
  lemma ElapsedSaturates(now: Time, since: Time)
    ensures now - since >= MAX_DURATION ==> ElapsedMs(now, since) == ElapsedMs(MAX_DURATION, 0) == 9_223_372_036_854
    ensures now - since < -MAX_DURATION ==> ElapsedMs(now, since) == -9_223_372_036_854
    ensures -MAX_DURATION <= now - since <= MAX_DURATION ==> ElapsedMs(since, now) == -ElapsedMs(now, since)
  {
  }

  /** Once the turn has begun, a running clock reads 0 exactly when at least the stored milliseconds have passed since. */
  lemma EmptyIff(g: Game, now: Time)
    requires g.Valid() && !g.Over() && ClockRuns(g) && 0 <= now - g.turnStartedAt <= MAX_DURATION
    ensures Remaining(g, now) >= 0
    ensures Remaining(g, now) == 0 <==> now - g.turnStartedAt >= g.Current().timeRemainingMs * MILLISECOND
  {
    ElapsedReaches(now, g.turnStartedAt, g.Current().timeRemainingMs);
    hide ElapsedMs;
  }

  /** The reading falls by one for every full millisecond until it is 0, and never rises. */
  lemma ReadingFalls(g: Game, now: Time, later: Time)
    requires g.Valid() && now <= later
    ensures Remaining(g, later) <= Remaining(g, now)
    ensures !g.Over() && ClockRuns(g) && g.turnStartedAt <= now && later == now + MILLISECOND
            && later - g.turnStartedAt <= MAX_DURATION && Remaining(g, now) > 0 ==>
      Remaining(g, later) == Remaining(g, now) - 1
  {
    ElapsedGrows(now, later, g.turnStartedAt);
    if g.turnStartedAt <= now && later == now + MILLISECOND {
      assert (now - g.turnStartedAt + MILLISECOND) / MILLISECOND == (now - g.turnStartedAt) / MILLISECOND + 1;
    }
  }

  /** The clock of a player who does not move, or of a game without clocks, stands still. */
  lemma ReadingStandsStill(g: Game, now: Time)
    requires g.Valid() && (g.Over() || !ClockRuns(g))
    ensures Remaining(g, now) == g.Current().timeRemainingMs
  {
  }

  /** An accepted move leaves its player what the clock read when it was made, plus the increment, and the other players
      what they had; the next player's clock starts at full. */
  lemma MoveKeepsReading(g: Game, m: Move, now: Time)
    requires g.Valid() && Apply(g, m, now).Ok? && (ClockRuns(g) ==> now >= g.turnStartedAt)
    ensures var h := Apply(g, m, now).value.0;
      && |h.players| == |g.players|
      && h.players[g.turn].timeRemainingMs == Remaining(g, now) + (if ClockRuns(g) then g.config.incrementMs else 0)
      && (forall i :: 0 <= i < |g.players| && i != g.turn ==> h.players[i].timeRemainingMs == g.players[i].timeRemainingMs)
      && (!h.Over() && g.ClockEnabled() ==> h.turnStartedAt == now)
      && (!h.Over() && h.Current().timeRemainingMs >= 0 ==> Remaining(h, now) == h.Current().timeRemainingMs)
  {
    hide GridAfter, CapturesBy, WinOf;
    if ClockRuns(g) {
      ElapsedGrows(g.turnStartedAt, now, g.turnStartedAt);
    }
  }

  /** A move is refused with a fallen flag exactly when nothing else is wrong with it and more than the stored
      milliseconds have passed; the clock then reads 0. */
  lemma FlaggedIff(g: Game, m: Move, now: Time)
    requires g.Valid() && (ClockRuns(g) ==> now >= g.turnStartedAt)
    ensures Apply(g, m, now) == Err(Flagged) <==>
      && Refusal(g.(config := g.config.(initialTimeMs := 0)), m, now) == None
      && ClockRuns(g) && ElapsedMs(now, g.turnStartedAt) > g.Current().timeRemainingMs
    ensures Apply(g, m, now) == Err(Flagged) ==> Remaining(g, now) == 0
  {
    hide GridAfter, CapturesBy, WinOf;
    if ClockRuns(g) {
      ElapsedGrows(g.turnStartedAt, now, g.turnStartedAt);
    }
  }

  /** Running out of time: with two players the other one wins and no clock changes; with more nobody wins and the loser's
      clock is emptied, whoever is to move. A resignation or an agreed draw never touches a clock. */
  lemma ForfeitReading(g: Game, loser: nat)
    requires g.Valid() && !g.Over() && loser < |g.players|
    requires forall i, j | 0 <= i < j < |g.players| :: g.players[i].color != g.players[j].color
    ensures var h := Forfeited(g, g.players[loser].color);
      && h.winKind == Timeout && |h.players| == |g.players|
      && (if |g.players| == 2 then h.winner == g.players[1 - loser].color else h.winner == EMPTY)
      && (forall i | 0 <= i < |g.players| :: h.players[i] ==
            if i == loser && |g.players| != 2 then g.players[i].(timeRemainingMs := 0) else g.players[i])
    ensures Resigned(g, g.players[loser].color).players == AgreedDraw(g).players == g.players
  {
    if |g.players| == 2 {
      var ps := g.players;
      assert FirstOther(ps[1..], ps[loser].color) == if loser == 1 then FirstOther(ps[1..][1..], ps[1].color) else Some(ps[1].color);
    }
  }

  // ---- Over whole games ----

  /** When the running turn began: the last start of the clock or accepted move. */
  ghost function TurnBegan(colors: seq<Color>, cfg: Config, acts: seq<Action>): Time
    requires colors != [] && cfg.boardSide >= 1
  {
    if acts == [] then ZERO_TIME
    else
      var before := Exec(colors, cfg, acts[..|acts| - 1]);
      match acts[|acts| - 1]
      case StartClock(at) => at
      case PlayMove(m, now) =>
        if Apply(before.game, m, now).Ok? then now else TurnBegan(colors, cfg, acts[..|acts| - 1])
      case _ => TurnBegan(colors, cfg, acts[..|acts| - 1])
  }

  /** In every reachable state of a game with clocks that is on, the clock has been running since the last start or move. */
  lemma {:induction false} TurnLaw(colors: seq<Color>, cfg: Config, acts: seq<Action>)
    requires Playable(colors, cfg) && cfg.initialTimeMs > 0
    ensures var g := Exec(colors, cfg, acts).game;
      g.config == cfg && (!g.Over() ==> g.turnStartedAt == TurnBegan(colors, cfg, acts))
  {
    hide GridAfter, CapturesBy, WinOf, Playable;
    if acts != [] {
      TurnLaw(colors, cfg, acts[..|acts| - 1]);
    }
  }
}
