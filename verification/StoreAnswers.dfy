/** What a command on a hosted game has achieved when it is answered, when it is answered, and when the clock ends a game. */
module StoreAnswers {
  import opened Wrappers
  import opened Hex
  import opened Boards
  import opened Engine
  import opened Play
  import opened Clocks
  import opened Store
  import opened StoreLaws

  // ---- Seats ----

  predicate OpenTo(s: Seat, user: string) {
    !s.occupied && (s.userId == "" || s.userId == user)
  }

  predicate ReservedFor(s: Seat, user: string) {
    !s.occupied && user != "" && s.userId == user
  }

  /** Only seat i differs. */
  predicate OnlySeat(r: Record, u: Record, i: int) {
    |u.seats| == |r.seats| && forall k | 0 <= k < |r.seats| && k != i :: u.seats[k] == r.seats[k]
  }

  /** The joiner holds seat i under the new token: the wished one, else one reserved for the user when there is one. */
  predicate Joined(r: Record, u: Record, i: nat, name: string, user: string, want: int, token: Token) {
    && i < |r.seats| && OnlySeat(r, u, i) && OpenTo(r.seats[i], user)
    && u.seats[i].occupied && u.seats[i].name == name && u.seats[i].userId == user && u.seats[i].token == Some(token)
    && u.seats[i].color == r.seats[i].color && u.seats[i].index == r.seats[i].index
    && (want >= 0 ==> i == want)
    && (want < 0 && !ReservedFor(r.seats[i], user) ==> r.seats[i].userId == "" && forall k | 0 <= k < |r.seats| :: !ReservedFor(r.seats[k], user))
    && (u.status == Playing <==> forall k | 0 <= k < |r.seats| && k != i :: r.seats[k].occupied)
  }

  predicate CanJoin(r: Record, user: string, want: int) {
    && r.status == Waiting && (r.visibility == Public ==> user != "")
    && if want < 0 then exists k :: 0 <= k < |r.seats| && OpenTo(r.seats[k], user)
       else want < |r.seats| && OpenTo(r.seats[want], user)
  }

  lemma JoinAnswered(r: Record, name: string, user: string, want: int, token: Token, now: Time)
    requires r.game.Valid()
    ensures var (u, a) := Step(r, Command.Join(name, user, want, token, now), true);
      && (a.Ok? <==> CanJoin(r, user, want))
      && (a.Ok? ==> Joined(r, u, a.value, name, user, want, token))
  {
  }

  /** Seats that are changed before play in a private game. */
  predicate Changeable(r: Record, i: int) {
    r.status == Waiting && r.visibility == Private && 0 <= i < |r.seats|
  }

  predicate Reserved(s: Seat) {
    !s.occupied && !s.isBot && s.userId != ""
  }

  /** Whether the repository-willing answer to a seat command is yes. */
  predicate SeatAsk(r: Record, c: Command) {
    match c
    case ResolveSeat(user, _) => user != "" && exists k :: 0 <= k < |r.seats| && HeldBy(r.seats[k], user)
    case AddBot(i, _, _, _) => Changeable(r, i) && !r.seats[i].occupied
    case RemoveBot(i) => Changeable(r, i) && r.seats[i].occupied && r.seats[i].isBot
    case InviteSeat(i, invitee, name) => Changeable(r, i) && !r.seats[i].occupied && invitee != "" && name != ""
    case CancelSeatInvite(i) => Changeable(r, i) && Reserved(r.seats[i])
    case DeclineSeatInvite(i, user) => Changeable(r, i) && Reserved(r.seats[i]) && r.seats[i].userId == user
    case LeaveSeat(token) => r.status == Waiting && SeatByToken(r.seats, token).Some?
    case _ => true
  }

  predicate HeldBy(s: Seat, user: string) {
    s.occupied && !s.isBot && s.userId == user
  }

  /** What the seat command has done to the seat it was answered with. */
  predicate SeatDone(r: Record, u: Record, c: Command, i: nat) {
    && i < |r.seats| && OnlySeat(r, u, i) && u.seats[i].index == i && u.seats[i].color == r.seats[i].color
    && match c
       case ResolveSeat(user, token) => HeldBy(r.seats[i], user) && HeldBy(u.seats[i], user) && u.seats[i].token == Some(token)
       case AddBot(k, name, token, _) =>
         k == i && u.seats[i].occupied && u.seats[i].isBot && u.seats[i].name == name && u.seats[i].token == Some(token)
         && (u.status == Playing <==> forall j | 0 <= j < |r.seats| && j != i :: r.seats[j].occupied)
       case RemoveBot(k) => k == i && !u.seats[i].occupied && !u.seats[i].isBot && u.seats[i].token == None && u.status == Waiting
       case InviteSeat(k, invitee, name) =>
         k == i && Reserved(u.seats[i]) && u.seats[i].userId == invitee && u.seats[i].name == name && u.status == Waiting
       case CancelSeatInvite(k) => k == i && u.seats[i] == EmptySeat(i, r.seats[i].color) && u.status == Waiting
       case DeclineSeatInvite(k, _) => k == i && u.seats[i] == EmptySeat(i, r.seats[i].color) && u.status == Waiting
       case LeaveSeat(token) => r.seats[i].token == Some(token) && u.seats[i] == EmptySeat(i, r.seats[i].color) && u.status == Waiting
       case _ => true
  }

  predicate Numbered(r: Record) {
    forall i | 0 <= i < |r.seats| :: r.seats[i].index == i
  }

  ghost predicate SeatAnswered(r: Record, c: Command)
    requires r.game.Valid()
  {
    var (u, a) := Step(r, c, true);
    (a.Ok? <==> SeatAsk(r, c)) && (a.Ok? ==> SeatDone(r, u, c, a.value))
  }

  lemma ResolveOrBotAnswered(r: Record, c: Command)
    requires r.game.Valid() && Numbered(r) && (c.ResolveSeat? || c.AddBot?)
    ensures SeatAnswered(r, c)
  {
  }

  lemma VacateAnswered(r: Record, c: Command)
    requires r.game.Valid() && Numbered(r) && (c.RemoveBot? || c.LeaveSeat?)
    ensures SeatAnswered(r, c)
  {
  }

  lemma InviteAnswered(r: Record, c: Command)
    requires r.game.Valid() && Numbered(r) && (c.InviteSeat? || c.CancelSeatInvite? || c.DeclineSeatInvite?)
    ensures SeatAnswered(r, c)
  {
  }

  /** A seat command is answered exactly when it may be, and has then done what it is for. */
  lemma SeatCommandAnswered(r: Record, c: Command)
    requires Coherent(r) && r.game.Valid() && IsSeatCommand(c) && !c.Join?
    ensures SeatAnswered(r, c)
  {
    assert Numbered(r);
    hide Coherent, SeatAnswered;
    if c.ResolveSeat? || c.AddBot? {
      ResolveOrBotAnswered(r, c);
    } else if c.RemoveBot? || c.LeaveSeat? {
      VacateAnswered(r, c);
    } else {
      InviteAnswered(r, c);
    }
  }

  // ---- The game ----

  /** Whether a command on the game may have its effect. */
  ghost predicate PlayAsk(r: Record, c: Command)
    requires r.game.Valid()
  {
    match c
    case Start(_) => r.status == Waiting && exists i, k :: 0 <= i < k < |r.seats| && r.seats[i].occupied && r.seats[k].occupied
    case PlayMove(token, pos, now) =>
      r.status == Playing && SeatOf(r, token).Some?
      && Apply(r.game, Move(r.seats[SeatOf(r, token).value].color, pos), now).Ok?
    case Resign(token) => r.status == Playing && SeatOf(r, token).Some?
    case OfferDraw(token) =>
      |r.seats| == 2 && r.status == Playing && SeatOf(r, token).Some? && (r.drawOfferBy == None || r.drawOfferBy == SeatOf(r, token))
    case AcceptDraw(token) =>
      r.status == Playing && SeatOf(r, token).Some? && r.drawOfferBy.Some? && r.drawOfferBy != SeatOf(r, token)
    case DeclineDraw(token) => r.status == Playing && SeatOf(r, token).Some? && r.drawOfferBy.Some?
    case _ => true
  }

  function SeatOf(r: Record, token: Token): Option<nat> {
    SeatByToken(r.seats, token)
  }

  /** What it has then done. */
  ghost predicate PlayDone(r: Record, u: Record, c: Command, i: nat)
    requires r.game.Valid()
  {
    match c
    case Start(_) =>
      u.status == Playing && 2 <= |u.seats| == |u.game.players| && u.game.history == [] && AllSeated(u.seats)
      && (r.game.config.boardSide > 0 ==> SameTerms(r.game.config, u.game.config, |u.seats|))
      && (forall k | 0 <= k < |r.seats| && r.seats[k].occupied :: StillSits(u.seats, r.seats[k]))
    case PlayMove(token, pos, _) =>
      SeatOf(r, token) == Some(i) && u.seats == r.seats && u.drawOfferBy == None
      && u.game.history == r.game.history + [Move(r.seats[i].color, pos)] && (u.status == Finished <==> u.game.Over())
    case Resign(token) =>
      SeatOf(r, token) == Some(i) && u.status == Finished && u.game.winKind == Resignation && Lost(r, u.game, i) && u.seats == r.seats
    case OfferDraw(token) => SeatOf(r, token) == Some(i) && u.drawOfferBy == Some(i) && u.game == r.game && u.seats == r.seats
    case AcceptDraw(token) =>
      SeatOf(r, token) == Some(i) && u.status == Finished && u.game.winKind == DrawAgreed && u.game.winner == EMPTY && u.seats == r.seats
    case DeclineDraw(token) => SeatOf(r, token) == Some(i) && u.drawOfferBy == None && u.game == r.game && u.seats == r.seats
    case _ => true
  }

  predicate IsPlayCommand(c: Command) {
    c.Start? || c.PlayMove? || c.Resign? || c.OfferDraw? || c.AcceptDraw? || c.DeclineDraw?
  }

  lemma {:induction false} TrimmedCounts(seats: seq<Seat>)
    ensures |Trimmed(seats)| >= 1 <==> exists i :: 0 <= i < |seats| && seats[i].occupied
    ensures |Trimmed(seats)| >= 2 <==> exists i, k :: 0 <= i < k < |seats| && seats[i].occupied && seats[k].occupied
  {
    if seats != [] {
      var rest, last := seats[..|seats| - 1], seats[|seats| - 1];
      TrimmedCounts(rest);
      assert forall i | 0 <= i < |rest| :: rest[i] == seats[i];
      if last.occupied && exists i :: 0 <= i < |rest| && rest[i].occupied {
        var i :| 0 <= i < |rest| && rest[i].occupied;
        assert seats[i].occupied && seats[|rest|].occupied;
      }
      if i :| 0 <= i < |rest| && rest[i].occupied {
        assert seats[i].occupied;
      }
      if i, k :| 0 <= i < k < |rest| && rest[i].occupied && rest[k].occupied {
        assert seats[i].occupied && seats[k].occupied;
      }
    }
  }

  lemma StartAnswered(r: Record, now: Time)
    requires r.game.Valid()
    ensures var (u, a) := Step(r, Command.Start(now), true);
      && (a.Ok? <==> PlayAsk(r, Command.Start(now))) && (a.Ok? ==> PlayDone(r, u, Command.Start(now), a.value))
  {
    TrimmedCounts(r.seats);
    hide Trimmed, StillSits;
    forall k | 0 <= k < |r.seats| && r.seats[k].occupied
      ensures StillSits(Trimmed(r.seats), r.seats[k])
    {
      TrimmedKeeps(r.seats, k);
    }
  }

  lemma MoveAnswered(r: Record, c: Command)
    requires Coherent(r) && r.game.Valid() && c.PlayMove?
    ensures var (u, a) := Step(r, c, true);
      (a.Ok? <==> PlayAsk(r, c)) && (a.Ok? ==> PlayDone(r, u, c, a.value))
  {
    hide Backed, GridAfter, CapturesBy, WinOf;
  }

  /** A command on the game is answered exactly when it may have its effect, and has then had it. */
  lemma PlayCommandAnswered(r: Record, c: Command)
    requires Coherent(r) && r.game.Valid() && IsPlayCommand(c)
    ensures var (u, a) := Step(r, c, true);
      (a.Ok? <==> PlayAsk(r, c)) && (a.Ok? ==> PlayDone(r, u, c, a.value))
  {
    assert forall i | 0 <= i < |r.seats| :: r.seats[i].index == i;
    BackedIsValid(r);
    DistinctColors(r);
    if c.Start? {
      StartAnswered(r, c.startedAt);
    } else if c.PlayMove? {
      MoveAnswered(r, c);
    } else if c.Resign? && r.status == Playing && SeatOf(r, c.resigner).Some? {
      OtherWins(r, SeatOf(r, c.resigner).value);
    }
    hide Backed;
  }

  /** The host, who may start the game before all seats are taken, is whoever holds the first seat. */
  lemma HostIsFirst(r: Record, token: Token)
    requires Coherent(r)
    ensures StartRefusal(r, token) == None <==> r.visibility == Private && r.status == Waiting && r.seats[0].token == Some(token)
  {
    hide Playable, Play.Exec;
    if r.seats[0].token == Some(token) {
      assert SeatByToken(r.seats, token).Some?;
    }
  }

  /** A bot that is to move plays what its engine chose, exactly as the holder of its seat's token would. */
  lemma BotPlays(r: Record, pos: Position, now: Time, saved: bool, token: Token)
    requires Coherent(r) && r.game.Valid() && r.status == Playing && r.game.turn < |r.seats|
    requires r.seats[r.game.turn].isBot && SeatOf(r, token) == Some(r.game.turn as nat)
    ensures Step(r, Command.BotTurn(Some(pos), now), saved).0 == Step(r, Command.PlayMove(token, pos, now), saved).0
  {
    hide Backed, Apply;
  }

  /** A refused command changes nothing, and a repository that fails to save changes only the answer. */
  lemma RefusalChangesNothing(r: Record, c: Command, saved: bool)
    requires r.game.Valid()
    ensures Step(r, c, true).1.Err? ==> Step(r, c, saved).0 == r
    ensures Step(r, c, saved).0 == Step(r, c, true).0
    ensures Step(r, c, saved).1 == Step(r, c, true).1 || (Step(r, c, true).1.Ok? && Step(r, c, saved).1 == Err(ErrRepo))
  {
    hide Apply, Fill, Trimmed;
  }

  // ---- The clock ----

  /** The clock reading that came with the command. */
  function TimeOf(c: Command): Option<Time> {
    match c
    case Join(_, _, _, _, at) => Some(at)
    case AddBot(_, _, _, at) => Some(at)
    case Start(at) => Some(at)
    case PlayMove(_, _, now) => Some(now)
    case BotTurn(_, now) => Some(now)
    case _ => None
  }

  /** While a game with clocks plays, the clock of the seat to move runs from the command that began the play, or from the
      last move. */
  lemma ClockFollows(r: Record, c: Command, saved: bool)
    requires Coherent(r) && r.game.Valid()
    ensures var u := Step(r, c, saved).0;
      u.status == Playing && u.game.ClockEnabled() ==>
        if r.status == Waiting || u.game.history != r.game.history then Some(u.game.turnStartedAt) == TimeOf(c)
        else u.game.turnStartedAt == r.game.turnStartedAt
  {
    hide Backed, GridAfter, CapturesBy, WinOf, Trimmed;
  }

  /** In every reachable record that plays, when the timer fires, the game ends by timeout, lost by the seat to move, if the
      stored milliseconds have passed since its turn began, and otherwise nothing happens. */
  lemma FlagLaw(start: Record, cmds: seq<(Command, bool)>, now: Time, saved: bool)
    requires Coherent(start) && start.game.Valid()
    requires var r := Run(start, cmds);
      r.status == Playing && ClockRuns(r.game) && 0 <= now - r.game.turnStartedAt <= MAX_DURATION
    ensures var r := Run(start, cmds); var u := Step(r, Command.Flag(now), saved).0;
      if now - r.game.turnStartedAt >= r.game.Current().timeRemainingMs * MILLISECOND
      then u.status == Finished && u.game.winKind == Timeout && Lost(r, u.game, r.game.turn)
      else u == r
  {
    hide Run;
    RunLaw(start, cmds);
    var r := Run(start, cmds);
    BackedIsValid(r);
    DistinctColors(r);
    OtherWins(r, r.game.turn);
    EmptyIff(r.game, now);
    hide Coherent, Lost, Remaining;
  }

  /** A seat whose player stays away too long loses, whoever is to move. */
  lemma DisconnectLaw(r: Record, seat: nat, saved: bool)
    requires Coherent(r) && r.game.Valid() && r.status == Playing && seat < |r.seats|
    ensures var u := Step(r, Command.DisconnectTimeout(seat), saved).0;
      u.status == Finished && u.game.winKind == Timeout && Lost(r, u.game, seat)
  {
    BackedIsValid(r);
    DistinctColors(r);
    OtherWins(r, seat);
    hide Backed, Lost;
  }

  // ---- The rules ----

  ghost predicate ByTheBook(r: Record) {
    |r.seats| >= 1 && r.game.config == DefaultConfig(|r.seats|)
  }

  lemma StepByTheBook(r: Record, c: Command, saved: bool)
    requires r.game.Valid() && ByTheBook(r)
    ensures ByTheBook(Step(r, c, saved).0)
  {
    forall m: Move, now: Time | Apply(r.game, m, now).Ok?
      ensures Apply(r.game, m, now).value.0.config == r.game.config
    {
      AcceptShape(r.game, m, now);
    }
    hide Apply, AllSeated;
  }

  /** Every created game, however its seats change before it starts, is played by the rulebook of the number of seats that it
      has, with the clock budget and on the board that it was created with. */
  lemma {:induction false} RulebookLaw(numPlayers: nat, vis: Visibility, cmds: seq<(Command, bool)>)
    requires numPlayers >= 1
    ensures Created(numPlayers, vis).game.Valid() && ByTheBook(Run(Created(numPlayers, vis), cmds))
  {
    if cmds != [] {
      RulebookLaw(numPlayers, vis, cmds[..|cmds| - 1]);
      var (c, saved) := cmds[|cmds| - 1];
      hide ByTheBook, Step;
      StepByTheBook(Run(Created(numPlayers, vis), cmds[..|cmds| - 1]), c, saved);
    }
  }

  /** The more players, the lower every threshold, never below a pair of fives. */
  lemma RulebookScales(m: nat, n: nat)
    requires 2 <= m <= n <= MAX_PLAYERS
    ensures var few, many := DefaultConfig(m), DefaultConfig(n);
      && 0 < many.capturePairsWin <= few.capturePairsWin && 0 < many.align4ToWin <= few.align4ToWin
      && 2 <= many.align5ToWin <= few.align5ToWin
      && (m < n ==> many.capturePairsWin < few.capturePairsWin)
      && few.boardSide == many.boardSide && few.initialTimeMs == many.initialTimeMs == 600_000
  {
  }
}
