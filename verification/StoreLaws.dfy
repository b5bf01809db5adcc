/** What every sequence of operations on a hosted game keeps. */
module StoreLaws {
  import opened Wrappers
  import opened Hex
  import opened Boards
  import opened Runs
  import opened Engine
  import opened Play
  import Laws
  import opened Store

  // ---- The invariant ----

  /** Seats are numbered by position and carry different colours, and the game is the outcome of an engine run with
      exactly these colours, in this order. */
  ghost predicate Backed(r: Record) {
    && r.seats != [] && r.game.config.boardSide >= 1
    && (forall i | 0 <= i < |r.seats| :: r.seats[i].index == i)
    && Playable(Colors(r.seats), r.game.config)
    && r.game == Play.Exec(Colors(r.seats), r.game.config, r.acts).game
  }

  ghost predicate StatusSound(r: Record) {
    && (r.status == Playing ==> AllSeated(r.seats))
    && (r.status == Finished <==> r.game.Over())
  }

  /** The events end with an offer by one of the two seats. */
  predicate EndsInOffer(log: seq<Event>, i: nat) {
    i < 2 && log != [] && log[|log| - 1] == Offered(i)
  }

  /** The events end with an offer directly followed by the other seat's acceptance. */
  predicate EndsInAgreement(log: seq<Event>) {
    |log| >= 2 && log[|log| - 1].Accepted?
    && log[|log| - 1].acceptor < 2 && EndsInOffer(log[..|log| - 1], 1 - log[|log| - 1].acceptor)
  }

  ghost predicate DrawSound(r: Record) {
    && (r.drawOfferBy.Some? ==> |r.seats| == 2 && r.status != Waiting)
    && (r.drawOfferBy.Some? && r.status == Playing ==> EndsInOffer(r.log, r.drawOfferBy.value))
    && (r.game.winKind == DrawAgreed ==> |r.seats| == 2 && EndsInAgreement(r.log))
  }

  ghost predicate Coherent(r: Record) {
    Backed(r) && StatusSound(r) && DrawSound(r)
  }

  lemma BackedIsValid(r: Record)
    requires Backed(r)
    ensures r.game.Valid() && |r.game.players| == |r.seats|
    ensures forall i | 0 <= i < |r.seats| :: r.game.players[i].color == r.seats[i].color != EMPTY
  {
    RosterLaw(Colors(r.seats), r.game.config, r.acts);
    hide Play.Exec;
    forall i | 0 <= i < |r.seats|
      ensures r.seats[i].color != EMPTY
    {
      assert Colors(r.seats)[i] in Colors(r.seats);
    }
  }

  /** One more engine action on the game keeps it an engine run. */
  lemma ActKeepsBacked(r: Record, u: Record, act: Action)
    requires Backed(r) && r.game.Valid()
    requires u.acts == r.acts + [act] && Colors(u.seats) == Colors(r.seats)
    requires forall i | 0 <= i < |u.seats| :: u.seats[i].index == i
    requires u.game == Play.Do(Trace(r.game, []), act).game && u.game.config == r.game.config
    ensures Backed(u)
  {
    hide Playable, Apply;
    assert |Colors(u.seats)| == |u.seats| && |Colors(r.seats)| == |r.seats|;
    assert u.acts[..|u.acts| - 1] == r.acts;
  }

  lemma SeatKeepsBacked(r: Record, i: nat, seat: Seat)
    requires Backed(r) && i < |r.seats| && seat.index == i && seat.color == r.seats[i].color
    ensures Backed(SetSeat(r, i, seat))
  {
    hide Playable, Play.Exec;
    assert Colors(r.seats[i := seat]) == Colors(r.seats);
  }

  // ---- Operations on seats ----

  /** Changes to a free seat, or to a seat's name, token or reservation, before play. */
  lemma SetSeatCoherent(r: Record, i: nat, seat: Seat)
    requires Coherent(r) && i < |r.seats| && seat.index == i && seat.color == r.seats[i].color
    requires r.status == Waiting || seat.occupied == r.seats[i].occupied
    ensures Coherent(SetSeat(r, i, seat))
  {
    SeatKeepsBacked(r, i, seat);
    hide Backed;
  }

  lemma FillCoherent(r: Record, i: nat, seat: Seat, now: Time)
    requires Coherent(r) && r.status == Waiting && i < |r.seats| && seat.index == i && seat.color == r.seats[i].color
    ensures Coherent(Fill(r, i, seat, now))
  {
    var s := SetSeat(r, i, seat);
    SetSeatCoherent(r, i, seat);
    BackedIsValid(s);
    if AllSeated(s.seats) {
      ActKeepsBacked(s, Fill(r, i, seat, now), Action.StartClock(now));
    }
    hide Backed;
  }

  lemma {:induction false} TrimmedColors(seats: seq<Seat>)
    requires NoDuplicates(Colors(seats)) && EMPTY !in Colors(seats)
    ensures NoDuplicates(Colors(Trimmed(seats))) && EMPTY !in Colors(Trimmed(seats))
    ensures forall c | c in Colors(Trimmed(seats)) :: c in Colors(seats)
  {
    if seats != [] {
      var rest, last := seats[..|seats| - 1], seats[|seats| - 1];
      assert Colors(seats) == Colors(rest) + [last.color];
      assert NoDuplicates(Colors(rest)) by {
        assert forall i | 0 <= i < |rest| :: Colors(seats)[i] == Colors(rest)[i];
      }
      TrimmedColors(rest);
      if last.occupied {
        assert Colors(Trimmed(seats)) == Colors(Trimmed(rest)) + [last.color];
        assert forall k | 0 <= k < |rest| :: Colors(rest)[k] == Colors(seats)[k] && Colors(seats)[k] != Colors(seats)[|rest|];
        assert last.color !in Colors(rest);
        var kept := Colors(Trimmed(rest));
        assert forall k | 0 <= k < |kept| :: kept[k] in kept && kept[k] != last.color;
      } else {
        assert Trimmed(seats) == Trimmed(rest);
      }
    }
  }

  lemma StartCoherent(r: Record, now: Time)
    requires Coherent(r) && r.game.Valid()
    ensures Coherent(StartInternal(r, now).0)
  {
    var kept := Trimmed(r.seats);
    if r.status == Waiting && |kept| >= 2 {
      TrimmedColors(r.seats);
      var u := StartInternal(r, now).0;
      var cfg := ConfigFor(|kept|, r.game.config);
      assert u.acts == [Action.StartClock(now)] && u.acts[..0] == [];
      assert Play.Exec(Colors(kept), cfg, []).game == NewGame(Colors(kept), cfg);
      assert u.game == Play.Exec(Colors(kept), cfg, u.acts).game;
      assert |Colors(kept)| == |kept|;
    }
  }

  // ---- Operations on the game ----

  lemma MoveCoherent(r: Record, color: Color, pos: Position, now: Time, done: Answer)
    requires Coherent(r) && r.game.Valid() && r.status == Playing
    ensures Coherent(MakeMove(r, color, pos, now, done).0)
  {
    var m := Move(color, pos);
    var u := MakeMove(r, color, pos, now, done).0;
    if Apply(r.game, m, now).Ok? {
      AcceptShape(r.game, m, now);
      ActKeepsBacked(r, u, Action.PlayMove(m, now));
      hide Backed, Apply;
    }
  }

  lemma AcceptShape(g: Game, m: Move, now: Time)
    requires g.Valid() && Apply(g, m, now).Ok?
    ensures var h := Apply(g, m, now).value.0;
      h.config == g.config && h.winKind != DrawAgreed && !g.Over()
  {
    hide GridAfter, CapturesBy;
  }

  lemma EndCoherent(r: Record, u: Record, act: Action)
    requires Coherent(r) && r.game.Valid() && r.status == Playing && act != Action.AgreeDraw
    requires act.Forfeit? || act.Resign?
    requires u.game == Play.Do(Trace(r.game, []), act).game && u.seats == r.seats && u.acts == r.acts + [act] && u.status == Finished
    requires u.drawOfferBy.None? || u.drawOfferBy == r.drawOfferBy
    ensures Coherent(u)
  {
    ActKeepsBacked(r, u, act);
    hide Backed;
  }

  lemma AcceptDrawCoherent(r: Record, i: nat)
    requires Coherent(r) && r.game.Valid() && r.status == Playing && i < |r.seats|
    requires r.drawOfferBy.Some? && r.drawOfferBy != Some(i)
    ensures Coherent(r.(game := AgreedDraw(r.game), status := Finished, drawOfferBy := None,
                        log := r.log + [Accepted(i)], acts := r.acts + [Action.AgreeDraw]))
  {
    var u := r.(game := AgreedDraw(r.game), status := Finished, drawOfferBy := None,
                log := r.log + [Accepted(i)], acts := r.acts + [Action.AgreeDraw]);
    ActKeepsBacked(r, u, Action.AgreeDraw);
    hide Backed;
    assert u.log[..|u.log| - 1] == r.log;
  }

  lemma OfferCoherent(r: Record, u: Record, i: nat)
    requires Coherent(r) && r.status == Playing
    requires u == r.(drawOfferBy := None, log := r.log + [Declined])
             || (|r.seats| == 2 && i < 2 && u == r.(drawOfferBy := Some(i), log := r.log + [Offered(i)]))
    ensures Coherent(u)
  {
    assert !r.game.Over();
    assert Backed(u);
    hide Backed;
  }

  // ---- One command ----

  predicate IsSeatCommand(c: Command) {
    c.Join? || c.ResolveSeat? || c.AddBot? || c.RemoveBot? || c.InviteSeat? || c.CancelSeatInvite? || c.DeclineSeatInvite? || c.LeaveSeat?
  }

  lemma SeatStepCoherent(r: Record, c: Command, saved: bool)
    requires Coherent(r) && r.game.Valid() && IsSeatCommand(c)
    ensures Coherent(Step(r, c, saved).0)
  {
    assert forall i | 0 <= i < |r.seats| :: r.seats[i].index == i;
    hide Coherent, Fill, SetSeat, AllSeated;
    forall i: nat, seat: Seat, now: Time | i < |r.seats| && seat.index == i && seat.color == r.seats[i].color && r.status == Waiting
      ensures Coherent(Fill(r, i, seat, now))
    {
      FillCoherent(r, i, seat, now);
    }
    forall i: nat, seat: Seat | i < |r.seats| && seat.index == i && seat.color == r.seats[i].color
                                && (r.status == Waiting || seat.occupied == r.seats[i].occupied)
      ensures Coherent(SetSeat(r, i, seat))
    {
      SetSeatCoherent(r, i, seat);
    }
  }

  lemma PlayStepCoherent(r: Record, c: Command, saved: bool)
    requires Coherent(r) && r.game.Valid() && (c.Start? || c.PlayMove? || c.BotTurn? || c.Resign? || c.Flag? || c.DisconnectTimeout?)
    ensures Coherent(Step(r, c, saved).0)
  {
    hide Coherent, StartInternal, MakeMove;
    var u := Step(r, c, saved).0;
    if c.Start? {
      StartCoherent(r, c.startedAt);
    } else if c.PlayMove? && r.status == Playing && SeatByToken(r.seats, c.player).Some? {
      var k := SeatByToken(r.seats, c.player).value;
      MoveCoherent(r, r.seats[k].color, c.pos, c.now, Reply(k, saved));
    } else if c.BotTurn? && r.status == Playing && r.game.turn < |r.seats| && c.choice.Some? {
      MoveCoherent(r, r.seats[r.game.turn].color, c.choice.value, c.clock, Ok(0));
    } else if c.Resign? && r.status == Playing && SeatByToken(r.seats, c.resigner).Some? {
      EndCoherent(r, u, Action.Resign(r.seats[SeatByToken(r.seats, c.resigner).value].color));
    } else if c.Flag? && u != r {
      EndCoherent(r, u, Action.Forfeit(r.game.Current().color));
    } else if c.DisconnectTimeout? && u != r {
      EndCoherent(r, u, Action.Forfeit(r.seats[c.seat].color));
    }
  }

  lemma DrawStepCoherent(r: Record, c: Command, saved: bool)
    requires Coherent(r) && r.game.Valid() && (c.OfferDraw? || c.AcceptDraw? || c.DeclineDraw?)
    ensures Coherent(Step(r, c, saved).0)
  {
    assert forall i | 0 <= i < |r.seats| :: r.seats[i].index == i;
    hide Coherent;
    var u := Step(r, c, saved).0;
    match c
    case OfferDraw(token) =>
      if u != r {
        OfferCoherent(r, u, SeatByToken(r.seats, token).value);
      }
    case AcceptDraw(token) =>
      if u != r {
        AcceptDrawCoherent(r, SeatByToken(r.seats, token).value);
      }
    case DeclineDraw(token) =>
      if u != r {
        OfferCoherent(r, u, 0);
      }
  }

  lemma StepCoherent(r: Record, c: Command, saved: bool)
    requires Coherent(r) && r.game.Valid()
    ensures Coherent(Step(r, c, saved).0) && Step(r, c, saved).0.game.Valid()
  {
    if IsSeatCommand(c) {
      SeatStepCoherent(r, c, saved);
    } else if c.OfferDraw? || c.AcceptDraw? || c.DeclineDraw? {
      DrawStepCoherent(r, c, saved);
    } else {
      PlayStepCoherent(r, c, saved);
    }
    hide Step;
    BackedIsValid(Step(r, c, saved).0);
  }

  // ---- Every run ----

  lemma StepStaysValid(r: Record, c: Command, saved: bool)
    requires r.game.Valid()
    ensures Step(r, c, saved).0.game.Valid()
  {
    hide Apply, AllSeated;
  }

  /** Any sequence of commands on a record, each with the repository's answer. */
  ghost function Run(start: Record, cmds: seq<(Command, bool)>): (r: Record)
    requires start.game.Valid()
    ensures r.game.Valid()
  {
    if cmds == [] then start
    else
      var before := Run(start, cmds[..|cmds| - 1]);
      var (c, saved) := cmds[|cmds| - 1];
      StepStaysValid(before, c, saved);
      Step(before, c, saved).0
  }

  /** Every sequence of commands keeps the invariant, whatever the repository answers. */
  lemma {:induction false} RunLaw(start: Record, cmds: seq<(Command, bool)>)
    requires Coherent(start) && start.game.Valid()
    ensures Coherent(Run(start, cmds))
  {
    if cmds != [] {
      hide Coherent, Step;
      RunLaw(start, cmds[..|cmds| - 1]);
      StepCoherent(Run(start, cmds[..|cmds| - 1]), cmds[|cmds| - 1].0, cmds[|cmds| - 1].1);
    }
  }

  /** A created game satisfies the invariant; so does a rematch's. */
  lemma CreatedCoherent(numPlayers: nat, vis: Visibility)
    requires numPlayers >= 1
    ensures Coherent(Created(numPlayers, vis))
    ensures var r := Created(numPlayers, vis);
      && r.status == Waiting && r.visibility == vis && |r.seats| == numPlayers
      && forall i | 0 <= i < numPlayers :: !r.seats[i].occupied && !r.seats[i].isBot && r.seats[i].userId == "" && r.seats[i].token == None
  {
    var r := Created(numPlayers, vis);
    var colors := seq(numPlayers, i requires 0 <= i < numPlayers => i + 1);
    assert Colors(r.seats) == colors;
    forall i, j | 0 <= i < j < |colors|
      ensures colors[i] != colors[j]
    {
    }
  }

  /** In every reachable record the seats match the engine's players one for one and carry their colours, a game that is
      playing has all seats taken, and the status is finished exactly when the engine's game is over, also when the
      repository failed to save. */
  lemma RecordLaw(start: Record, cmds: seq<(Command, bool)>)
    requires Coherent(start) && start.game.Valid()
    ensures var r := Run(start, cmds);
      && |r.seats| == |r.game.players|
      && (forall i | 0 <= i < |r.seats| :: r.seats[i].index == i && r.seats[i].color == r.game.players[i].color)
      && (r.status == Playing ==> AllSeated(r.seats))
      && (r.status == Finished <==> r.game.Over())
  {
    hide Run;
    RunLaw(start, cmds);
    BackedIsValid(Run(start, cmds));
  }

  /** Two seats, and the last two events are one seat's offer and, with no move, decline or other event in between, the
      other seat's acceptance. */
  predicate DrawnByBoth(r: Record) {
    var n := |r.log|;
    && |r.seats| == 2 && n >= 2 && r.log[n - 1].Accepted? && r.log[n - 1].acceptor < 2
    && r.log[n - 2] == Offered(1 - r.log[n - 1].acceptor)
  }

  /** Every game drawn by agreement was drawn by both sides. */
  lemma DrawLaw(start: Record, cmds: seq<(Command, bool)>)
    requires Coherent(start) && start.game.Valid()
    ensures Run(start, cmds).game.winKind == DrawAgreed ==> DrawnByBoth(Run(start, cmds))
  {
    hide Run, Coherent, EndsInAgreement, DrawnByBoth;
    RunLaw(start, cmds);
    if Run(start, cmds).game.winKind == DrawAgreed {
      AgreementEnds(Run(start, cmds));
    }
  }

  lemma AgreementEnds(r: Record)
    requires Coherent(r) && r.game.winKind == DrawAgreed
    ensures DrawnByBoth(r)
  {
    hide Backed, StatusSound;
  }

  function Rank(s: Status): nat {
    match s
    case Waiting => 0
    case Playing => 1
    case Finished => 2
  }

  /** The status only moves forward, and a finished game's position, outcome, seats' holders and events never change. */
  lemma StatusForward(r: Record, c: Command, saved: bool)
    requires Coherent(r) && r.game.Valid()
    ensures var u := Step(r, c, saved).0;
      && Rank(r.status) <= Rank(u.status)
      && (r.status == Finished ==>
            (&& u.game == r.game && u.log == r.log && u.drawOfferBy == r.drawOfferBy && |u.seats| == |r.seats|
             && forall i | 0 <= i < |r.seats| :: u.seats[i].(token := None) == r.seats[i].(token := None)))
  {
    hide Apply, Backed, DrawSound;
  }

  /** The same board and time control, with the thresholds of the rulebook for n players. */
  predicate SameTerms(before: Config, after: Config, n: nat) {
    && after.boardSide == before.boardSide && after.initialTimeMs == before.initialTimeMs && after.incrementMs == before.incrementMs
    && after.align4ToWin == DefaultConfig(n).align4ToWin && after.align5ToWin == DefaultConfig(n).align5ToWin
    && after.capturePairsWin == DefaultConfig(n).capturePairsWin
  }

  // ---- Who may do what ----

  /** Seat k lost: with two seats the other one won, with more nobody did. */
  predicate Lost(r: Record, g: Game, k: nat) {
    k < |r.seats| && g.winner == (if |r.seats| == 2 && k < 2 then r.seats[1 - k].color else EMPTY)
  }

  /** How a game that was on came to its end, by kind of win. */
  ghost predicate EndedProperly(r: Record, c: Command, g: Game)
    requires r.game.Valid()
  {
    match g.winKind
    case Timeout =>
      || (c.Flag? && Remaining(r.game, c.checkedAt) <= 0 && Lost(r, g, r.game.turn))
      || (c.DisconnectTimeout? && c.seat >= 0 && Lost(r, g, c.seat))
    case Resignation => c.Resign? && SeatByToken(r.seats, c.resigner).Some? && Lost(r, g, SeatByToken(r.seats, c.resigner).value)
    case DrawAgreed =>
      c.AcceptDraw? && g.winner == EMPTY && r.drawOfferBy.Some?
      && SeatByToken(r.seats, c.acceptor).Some? && SeatByToken(r.seats, c.acceptor) != r.drawOfferBy
    case _ =>
      r.game.turn < |r.seats| && g.winner == r.seats[r.game.turn].color
      && ((c.PlayMove? && SeatByToken(r.seats, c.player) == Some(r.game.turn as nat)) || (c.BotTurn? && r.seats[r.game.turn].isBot))
  }

  /** A game ends by a winning move of the seat on turn, made with its token or by its bot; by the resignation of the
      token's seat; by the flag of the seat on turn, whose clock is empty, or a disconnected seat's timeout; or by a draw
      that the seat without the standing offer accepts. The seat that gave up or ran out never wins. */
  lemma EndingLaw(r: Record, c: Command, saved: bool)
    requires Coherent(r) && r.game.Valid() && !r.game.Over() && Step(r, c, saved).0.game.Over()
    ensures EndedProperly(r, c, Step(r, c, saved).0.game)
  {
    if c.PlayMove? || c.BotTurn? {
      EndedByMove(r, c, saved);
    } else if c.Resign? || c.Flag? || c.DisconnectTimeout? {
      EndedByLoss(r, c, saved);
    } else if c.AcceptDraw? {
      assert forall i | 0 <= i < |r.seats| :: r.seats[i].index == i;
      hide Backed;
    } else {
      hide Coherent, EndedProperly;
      GoesOn(r, c, saved);
    }
  }

  lemma GoesOn(r: Record, c: Command, saved: bool)
    requires r.game.Valid() && !r.game.Over()
    requires IsSeatCommand(c) || c.Start? || c.OfferDraw? || c.DeclineDraw?
    ensures !Step(r, c, saved).0.game.Over()
  {
    hide AllSeated;
  }

  lemma EndedByMove(r: Record, c: Command, saved: bool)
    requires Coherent(r) && r.game.Valid() && !r.game.Over() && Step(r, c, saved).0.game.Over() && (c.PlayMove? || c.BotTurn?)
    ensures EndedProperly(r, c, Step(r, c, saved).0.game)
  {
    BackedIsValid(r);
    DistinctColors(r);
    hide Coherent, Step, EndedProperly;
    if c.PlayMove? {
      EndedByPlay(r, c, saved);
    } else {
      EndedByBot(r, c, saved);
    }
  }

  /** The seats carry the players' colours, all different. */
  predicate SeatsMatch(r: Record) {
    && |r.game.players| == |r.seats| && 0 <= r.game.turn < |r.seats|
    && (forall i | 0 <= i < |r.seats| :: r.game.players[i].color == r.seats[i].color)
    && (forall i, j | 0 <= i < j < |r.seats| :: r.seats[i].color != r.seats[j].color)
  }

  lemma EndedByPlay(r: Record, c: Command, saved: bool)
    requires SeatsMatch(r) && r.game.Valid() && !r.game.Over() && Step(r, c, saved).0.game.Over() && c.PlayMove?
    ensures EndedProperly(r, c, Step(r, c, saved).0.game)
  {
    hide MakeMove;
    var k := SeatByToken(r.seats, c.player);
    if k.Some? {
      MoveEnds(r, r.seats[k.value].color, c.pos, c.now, Reply(k.value, saved));
    }
  }

  lemma EndedByBot(r: Record, c: Command, saved: bool)
    requires SeatsMatch(r) && r.game.Valid() && !r.game.Over() && Step(r, c, saved).0.game.Over() && c.BotTurn?
    ensures EndedProperly(r, c, Step(r, c, saved).0.game)
  {
    hide MakeMove;
    if c.choice.Some? {
      MoveEnds(r, r.seats[r.game.turn].color, c.choice.value, c.clock, Ok(0));
    }
  }

  /** If the game is over afterwards, the player on turn moved and won by it. */
  predicate MoverWins(g: Game, color: Color, h: Game)
    requires 0 <= g.turn < |g.players|
  {
    h.Over() ==> color == g.Current().color && h.winner == color && h.winKind !in {NoWin, Timeout, Resignation, DrawAgreed}
  }

  lemma MoveEnds(r: Record, color: Color, pos: Position, now: Time, done: Answer)
    requires r.game.Valid() && !r.game.Over()
    ensures MoverWins(r.game, color, MakeMove(r, color, pos, now, done).0.game)
  {
    if Apply(r.game, Move(color, pos), now).Ok? {
      WinningMove(r.game, Move(color, pos), now);
    }
    hide Apply;
  }

  lemma EndedByLoss(r: Record, c: Command, saved: bool)
    requires Coherent(r) && r.game.Valid() && !r.game.Over() && Step(r, c, saved).0.game.Over()
    requires c.Resign? || c.Flag? || c.DisconnectTimeout?
    ensures EndedProperly(r, c, Step(r, c, saved).0.game)
  {
    BackedIsValid(r);
    DistinctColors(r);
    hide Coherent, Step, EndedProperly, Lost, FirstOther, ZeroClock;
    forall k: nat | k < |r.seats|
      ensures Lost(r, Forfeited(r.game, r.seats[k].color), k) && Lost(r, Resigned(r.game, r.seats[k].color), k)
    {
      OtherWins(r, k);
    }
    if c.Resign? {
      EndedByResignation(r, c, saved);
    } else {
      EndedByTime(r, c, saved);
    }
  }

  lemma EndedByResignation(r: Record, c: Command, saved: bool)
    requires r.game.Valid() && !r.game.Over() && Step(r, c, saved).0.game.Over() && c.Resign?
    requires forall k: nat | k < |r.seats| :: Lost(r, Resigned(r.game, r.seats[k].color), k)
    ensures EndedProperly(r, c, Step(r, c, saved).0.game)
  {
    hide Lost, FirstOther;
  }

  lemma EndedByTime(r: Record, c: Command, saved: bool)
    requires SeatsMatch(r) && r.game.Valid() && !r.game.Over() && Step(r, c, saved).0.game.Over() && (c.Flag? || c.DisconnectTimeout?)
    requires forall k: nat | k < |r.seats| :: Lost(r, Forfeited(r.game, r.seats[k].color), k)
    ensures EndedProperly(r, c, Step(r, c, saved).0.game)
  {
    hide Lost, FirstOther, ZeroClock, Remaining;
  }

  lemma DistinctColors(r: Record)
    requires Backed(r)
    ensures forall i, j | 0 <= i < j < |r.seats| :: r.seats[i].color != r.seats[j].color
  {
    assert forall i | 0 <= i < |r.seats| :: Colors(r.seats)[i] == r.seats[i].color;
  }

  lemma OtherWins(r: Record, k: nat)
    requires k < |r.seats| == |r.game.players| && !r.game.Over()
    requires forall i | 0 <= i < |r.seats| :: r.game.players[i].color == r.seats[i].color
    requires forall i, j | 0 <= i < j < |r.seats| :: r.seats[i].color != r.seats[j].color
    ensures Lost(r, Forfeited(r.game, r.seats[k].color), k) && Lost(r, Resigned(r.game, r.seats[k].color), k)
  {
    if |r.seats| == 2 {
      var ps := r.game.players;
      assert FirstOther(ps[1..], r.seats[k].color)
        == if ps[1].color != r.seats[k].color then Some(ps[1].color) else FirstOther(ps[1..][1..], r.seats[k].color);
    }
  }

  lemma WinningMove(g: Game, m: Move, now: Time)
    requires g.Valid() && Apply(g, m, now).Ok?
    ensures var h := Apply(g, m, now).value.0;
      && m.player == g.Current().color
      && (h.Over() ==> h.winner == m.player && h.winKind !in {NoWin, Timeout, Resignation, DrawAgreed})
  {
    hide GridAfter, CapturesBy;
  }

  // ---- Who keeps a seat ----

  /** Somewhere in these seats the holder of seat s sits, with its colour. */
  predicate StillSits(seats: seq<Seat>, s: Seat) {
    exists j :: 0 <= j < |seats| && seats[j].(index := s.index, token := s.token) == s
  }

  lemma {:induction false} TrimmedKeeps(seats: seq<Seat>, i: nat)
    requires i < |seats| && seats[i].occupied
    ensures StillSits(Trimmed(seats), seats[i])
  {
    var rest, last := seats[..|seats| - 1], seats[|seats| - 1];
    if i < |rest| {
      TrimmedKeeps(rest, i);
      var j :| 0 <= j < |Trimmed(rest)| && Trimmed(rest)[j].(index := seats[i].index, token := seats[i].token) == seats[i];
      assert Trimmed(seats)[j] == Trimmed(rest)[j];
    } else {
      var j := |Trimmed(rest)|;
      assert Trimmed(seats)[j] == last.(index := j);
    }
  }

  /** Nobody loses a seat to anybody else: whoever occupies one still sits there after any command, save the holder of
      its token who leaves, and a bot that is removed. */
  lemma SeatHolderLaw(r: Record, c: Command, saved: bool, i: nat)
    requires Coherent(r) && r.game.Valid() && i < |r.seats| && r.seats[i].occupied
    ensures StillSits(Step(r, c, saved).0.seats, r.seats[i])
      || (c.LeaveSeat? && r.seats[i].token == Some(c.leaver))
      || (c.RemoveBot? && c.vacated == i && r.seats[i].isBot)
  {
    assert forall k | 0 <= k < |r.seats| :: r.seats[k].index == k;
    if IsSeatCommand(c) {
      SeatCommandKeepsHolder(r, c, saved, i);
    } else if c.Start? {
      hide Trimmed;
      TrimmedKeeps(r.seats, i);
      SitsAt(r.seats, r.seats[i], i);
    } else {
      OthersKeepSeats(r, c, saved);
      SitsAt(r.seats, r.seats[i], i);
    }
  }

  lemma OthersKeepSeats(r: Record, c: Command, saved: bool)
    requires r.game.Valid() && !IsSeatCommand(c) && !c.Start?
    ensures Step(r, c, saved).0.seats == r.seats
  {
    hide Apply;
  }

  lemma SeatCommandKeepsHolder(r: Record, c: Command, saved: bool, i: nat)
    requires r.game.Valid() && i < |r.seats| && r.seats[i].occupied && IsSeatCommand(c)
    requires forall k | 0 <= k < |r.seats| :: r.seats[k].index == k
    ensures StillSits(Step(r, c, saved).0.seats, r.seats[i])
      || (c.LeaveSeat? && r.seats[i].token == Some(c.leaver))
      || (c.RemoveBot? && c.vacated == i && r.seats[i].isBot)
  {
    hide StillSits, AllSeated;
    var u := Step(r, c, saved).0;
    if u.seats[i].(token := r.seats[i].token) == r.seats[i] {
      SitsAt(u.seats, r.seats[i], i);
    }
  }

  lemma SitsAt(seats: seq<Seat>, s: Seat, j: nat)
    requires j < |seats| && seats[j].(index := s.index, token := s.token) == s
    ensures StillSits(seats, s)
  {
  }

  /** Every hosted game conserves the gems of its engine's run. */
  lemma HostedGameConserves(start: Record, cmds: seq<(Command, bool)>)
    requires Coherent(start) && start.game.Valid()
    ensures var g := Run(start, cmds).game;
      SumGems(g.players) + |g.grid.Occupied()| + 2 * SumPairs(g.players) == GEMS_PER_PLAYER * |g.players|
  {
    hide Run, Play.Exec;
    RunLaw(start, cmds);
    var r := Run(start, cmds);
    ConservationLaw(Colors(r.seats), r.game.config, r.acts);
  }

  ghost predicate StandardBoard(r: Record) {
    r.game.config.boardSide == DEFAULT_BOARD_SIDE && 2 <= |r.seats| <= MAX_PLAYERS
  }

  lemma {:induction false} BoardStaysStandard(start: Record, cmds: seq<(Command, bool)>)
    requires Coherent(start) && start.game.Valid() && StandardBoard(start)
    ensures StandardBoard(Run(start, cmds))
  {
    if cmds != [] {
      BoardStaysStandard(start, cmds[..|cmds| - 1]);
      var before := Run(start, cmds[..|cmds| - 1]);
      var (c, saved) := cmds[|cmds| - 1];
      StepKeepsStandard(before, c, saved);
    }
  }

  lemma StepKeepsStandard(r: Record, c: Command, saved: bool)
    requires r.game.Valid() && StandardBoard(r)
    ensures StandardBoard(Step(r, c, saved).0)
  {
    forall m: Move, now: Time | Apply(r.game, m, now).Ok?
      ensures Apply(r.game, m, now).value.0.config == r.game.config
    {
      AcceptShape(r.game, m, now);
    }
    hide Apply, AllSeated;
  }

  /** No hosted game gets stuck: whenever one is playing and somebody still has a gem, the seat to move, if it is not
      flagged, has a move that its token holder can play and the store accepts. */
  lemma HostedGameProgress(start: Record, cmds: seq<(Command, bool)>, token: Token, now: Time) returns (pos: Position)
    requires Coherent(start) && start.game.Valid() && StandardBoard(start)
    requires var r := Run(start, cmds);
      && r.status == Playing
      && (exists i :: 0 <= i < |r.game.players| && r.game.players[i].gemsRemaining != 0)
      && SeatByToken(r.seats, token) == Some(r.game.turn as nat)
      && (ClockRuns(r.game) ==> Charged(r.game, now) <= r.game.Current().timeRemainingMs)
    ensures Step(Run(start, cmds), Command.PlayMove(token, pos, now), true).1.Ok?
  {
    hide Run, Step, Play.Exec, Playable, Apply;
    BoardStaysStandard(start, cmds);
    RunLaw(start, cmds);
    var r := Run(start, cmds);
    BackedIsValid(r);
    var m := Laws.Progress(Colors(r.seats), r.game.config, r.acts, now);
    ProgressMover(r.game, m, now);
    AcceptedIsStored(r, token, m, now);
    pos := m.pos;
  }

  lemma ProgressMover(g: Game, m: Move, now: Time)
    requires g.Valid() && Apply(g, m, now).Ok?
    ensures m.player == g.Current().color
  {
  }

  lemma AcceptedIsStored(r: Record, token: Token, m: Move, now: Time)
    requires r.game.Valid() && r.status == Playing && r.game.turn < |r.seats| && Apply(r.game, m, now).Ok?
    requires SeatByToken(r.seats, token) == Some(r.game.turn as nat) && m.player == r.seats[r.game.turn].color
    ensures Step(r, Command.PlayMove(token, m.pos, now), true).1.Ok?
  {
    hide Apply;
    assert m == Move(r.seats[r.game.turn].color, m.pos);
  }
}
