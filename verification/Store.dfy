/** A hosted game: its seats, its status and draw offer around the engine, and every operation on them. Each operation
    is one critical section of the record's lock. Fresh tokens, clock readings and the repository's answers are inputs. */
module Store {
  import opened Wrappers
  import opened Hex
  import opened Boards
  import opened Engine
  import opened Play

  /** Stands for a player token and for its hash, which is what the seat keeps. */
  type Token = string

  datatype Status = Waiting | Playing | Finished

  datatype Visibility = Private | Public

  datatype Seat = Seat(index: nat, color: Color, name: string, token: Option<Token>, userId: string, occupied: bool, isBot: bool)

  datatype StoreError =
    | ErrNotPlaying | ErrAnonymousOnPublic | ErrNoFreeSeat | ErrSeatTaken | ErrSeatReserved | ErrBotsOnPublic
    | ErrBadSeatIndex | ErrSeatNotBot | ErrSeatNotInvited | ErrNotInvitee | ErrBadToken | ErrPublicCannotStart
    | ErrNotHost | ErrTooFewToStart | ErrSeatNotForUser | ErrDrawUnsupported | ErrDrawAlreadyOffered
    | ErrDrawNotOffered | ErrCannotAcceptOwnDrawOffer | ErrMove(cause: MoveError) | ErrRepo

  type Answer = Result<nat, StoreError>

  /** What happened to draw offers and to the game while it was played. */
  datatype Event = Moved(mover: Color) | Offered(offerer: nat) | Declined | Accepted(acceptor: nat) | Quit(quitter: nat) | TimedOut

  /** The record's value. Of its fields, `log` and `acts` are auxiliary: the events so far, and the engine actions since
      the engine was last built. */
  datatype Record = Record(
    game: Game,
    seats: seq<Seat>,
    status: Status,
    visibility: Visibility,
    drawOfferBy: Option<nat>,
    log: seq<Event>,
    acts: seq<Action>)

  function EmptySeat(index: nat, color: Color): Seat {
    Seat(index, color, "", None, "", false, false)
  }

  predicate AllSeated(seats: seq<Seat>) {
    forall i | 0 <= i < |seats| :: seats[i].occupied
  }

  /** The first seat whose token it is. */
  function SeatByToken(seats: seq<Seat>, token: Token): (i: Option<nat>)
    ensures i.Some? ==> i.value < |seats| && seats[i.value].token == Some(token)
  {
    FirstWith(seats, (s: Seat) => s.token == Some(token))
  }

  /** The position of the first seat that qualifies. */
  function FirstWith(seats: seq<Seat>, qualifies: Seat -> bool): (i: Option<nat>)
    ensures i.Some? ==> i.value < |seats| && qualifies(seats[i.value])
                        && forall k | 0 <= k < i.value :: !qualifies(seats[k])
    ensures i.None? ==> forall k | 0 <= k < |seats| :: !qualifies(seats[k])
  {
    if seats == [] then None
    else if FirstWith(seats[..|seats| - 1], qualifies).Some? then FirstWith(seats[..|seats| - 1], qualifies)
    else if qualifies(seats[|seats| - 1]) then Some(|seats| - 1)
    else None
  }

  /** The first seat the user occupies. */
  function SeatOfUser(seats: seq<Seat>, user: string): (i: Option<nat>)
    ensures i.Some? ==> i.value < |seats|
  {
    FirstWith(seats, (s: Seat) => s.occupied && !s.isBot && s.userId == user)
  }

  /** A free seat reserved for the user if there is one, else the first free seat reserved for nobody. */
  function PickSeatForUser(seats: seq<Seat>, user: string): (i: Option<nat>)
    ensures i.Some? ==> i.value < |seats| && !seats[i.value].occupied
                        && (seats[i.value].userId == "" || seats[i.value].userId == user)
  {
    var reserved := FirstWith(seats, (s: Seat) => user != "" && !s.occupied && s.userId == user);
    if reserved.Some? then reserved else FirstWith(seats, (s: Seat) => !s.occupied && s.userId == "")
  }

  /** The seat a joiner gets; a negative wish leaves the choice to the store. */
  function Claim(seats: seq<Seat>, user: string, want: int): (i: Result<nat, StoreError>)
    ensures i.Ok? ==> i.value < |seats| && !seats[i.value].occupied
                      && (seats[i.value].userId == "" || seats[i.value].userId == user)
  {
    if want < 0 then
      match PickSeatForUser(seats, user)
      case None => Err(ErrNoFreeSeat)
      case Some(i) => Ok(i)
    else if want >= |seats| then Err(ErrNoFreeSeat)
    else if seats[want].occupied then Err(ErrSeatTaken)
    else if seats[want].userId != "" && seats[want].userId != user then Err(ErrSeatReserved)
    else Ok(want)
  }

  function Reply(i: nat, saved: bool): Answer {
    if saved then Ok(i) else Err(ErrRepo)
  }

  function SetSeat(r: Record, i: nat, seat: Seat): Record
    requires i < |r.seats|
  {
    r.(seats := r.seats[i := seat])
  }

  /** Occupies a seat; when it was the last free one, play begins. */
  function Fill(r: Record, i: nat, seat: Seat, now: Time): Record
    requires i < |r.seats|
  {
    var s := SetSeat(r, i, seat);
    if AllSeated(s.seats)
    then s.(status := Playing, game := ClockStarted(s.game, now), acts := s.acts + [Action.StartClock(now)])
    else s
  }

  function SeatRefusal(r: Record, i: int): Option<StoreError> {
    if r.status != Waiting then Some(ErrNotPlaying)
    else if r.visibility != Private then Some(ErrBotsOnPublic)
    else if i < 0 || i >= |r.seats| then Some(ErrBadSeatIndex)
    else None
  }

  // ---- The operations on the record's value ----

  datatype Command =
    | Join(name: string, user: string, want: int, issued: Token, at: Time)
    | ResolveSeat(claimant: string, rotated: Token)
    | AddBot(botSeat: int, botName: string, botToken: Token, filledAt: Time)
    | RemoveBot(vacated: int)
    | InviteSeat(invited: int, invitee: string, inviteeName: string)
    | CancelSeatInvite(cancelled: int)
    | DeclineSeatInvite(refused: int, refuser: string)
    | LeaveSeat(leaver: Token)
    | Start(startedAt: Time)
    | PlayMove(player: Token, pos: Position, now: Time)
    | BotTurn(choice: Option<Position>, clock: Time)
    | Resign(resigner: Token)
    | Flag(checkedAt: Time)
    | DisconnectTimeout(seat: int)
    | OfferDraw(offerer: Token)
    | AcceptDraw(acceptor: Token)
    | DeclineDraw(decliner: Token)

  /** The whole semantics of a command: the new record and, the repository willing, the answer. */
  ghost function Step(r: Record, c: Command, saved: bool): (Record, Answer)
    requires r.game.Valid()
  {
    match c
    case Join(name, user, want, token, now) =>
      if r.status != Waiting then (r, Err(ErrNotPlaying))
      else if r.visibility == Public && user == "" then (r, Err(ErrAnonymousOnPublic))
      else (match Claim(r.seats, user, want)
            case Err(e) => (r, Err(e))
            case Ok(i) =>
              (Fill(r, i, r.seats[i].(name := name, token := Some(token), userId := user, occupied := true), now), Reply(i, saved)))
    case ResolveSeat(user, token) =>
      var i := SeatOfUser(r.seats, user);
      if user == "" || i == None then (r, Err(ErrSeatNotForUser))
      else (SetSeat(r, i.value, r.seats[i.value].(token := Some(token))), Reply(i.value, saved))
    case AddBot(i, name, token, now) =>
      if SeatRefusal(r, i).Some? then (r, Err(SeatRefusal(r, i).value))
      else if r.seats[i].occupied then (r, Err(ErrSeatTaken))
      else (Fill(r, i, r.seats[i].(name := name, token := Some(token), occupied := true, isBot := true), now), Reply(i, saved))
    case RemoveBot(i) =>
      if SeatRefusal(r, i).Some? then (r, Err(SeatRefusal(r, i).value))
      else if !r.seats[i].occupied || !r.seats[i].isBot then (r, Err(ErrSeatNotBot))
      else (SetSeat(r, i, r.seats[i].(name := "", token := None, occupied := false, isBot := false)), Reply(i, saved))
    case InviteSeat(i, invitee, name) =>
      if invitee == "" || name == "" then (r, Err(ErrBadSeatIndex))
      else if SeatRefusal(r, i).Some? then (r, Err(SeatRefusal(r, i).value))
      else if r.seats[i].occupied then (r, Err(ErrSeatTaken))
      else (SetSeat(r, i, Seat(r.seats[i].index, r.seats[i].color, name, None, invitee, false, false)), Reply(i, saved))
    case CancelSeatInvite(i) =>
      if SeatRefusal(r, i).Some? then (r, Err(SeatRefusal(r, i).value))
      else if r.seats[i].occupied || r.seats[i].isBot || r.seats[i].userId == "" then (r, Err(ErrSeatNotInvited))
      else (SetSeat(r, i, EmptySeat(r.seats[i].index, r.seats[i].color)), Reply(i, saved))
    case DeclineSeatInvite(i, user) =>
      if user == "" then (r, Err(ErrNotInvitee))
      else if SeatRefusal(r, i).Some? then (r, Err(SeatRefusal(r, i).value))
      else if r.seats[i].occupied || r.seats[i].isBot || r.seats[i].userId == "" then (r, Err(ErrSeatNotInvited))
      else if r.seats[i].userId != user then (r, Err(ErrNotInvitee))
      else (SetSeat(r, i, EmptySeat(r.seats[i].index, r.seats[i].color)), Reply(i, saved))
    case LeaveSeat(token) =>
      (match SeatByToken(r.seats, token)
       case None => (r, Err(ErrBadToken))
       case Some(k) =>
         var i := r.seats[k].index;
         if r.status != Waiting then (r, Err(ErrNotPlaying))
         else if i >= |r.seats| then (r, Err(ErrBadSeatIndex))
         else (SetSeat(r, i, EmptySeat(i, r.seats[k].color)), Reply(i, saved)))
    case Start(now) => StartInternal(r, now)
    case PlayMove(token, pos, now) =>
      (match SeatByToken(r.seats, token)
       case None => (r, Err(ErrBadToken))
       case Some(k) =>
         if r.status != Playing then (r, Err(ErrNotPlaying))
         else MakeMove(r, r.seats[k].color, pos, now, Reply(k, saved)))
    case BotTurn(choice, now) =>
      if r.status != Playing || r.game.Over() || r.game.turn >= |r.seats| || !r.seats[r.game.turn].isBot || choice == None
      then (r, Ok(0))
      else (MakeMove(r, r.seats[r.game.turn].color, choice.value, now, Ok(0)).0, Ok(0))
    case Resign(token) =>
      (match SeatByToken(r.seats, token)
       case None => (r, Err(ErrBadToken))
       case Some(k) =>
         if r.status != Playing then (r, Err(ErrNotPlaying))
         else (r.(game := Resigned(r.game, r.seats[k].color), status := Finished, drawOfferBy := None,
                  log := r.log + [Quit(k)], acts := r.acts + [Action.Resign(r.seats[k].color)]), Ok(k)))
    case Flag(now) =>
      if r.game.Over() || r.status != Playing || Remaining(r.game, now) > 0 then (r, Ok(0))
      else (TimeOut(r, r.game.Current().color), Ok(0))
    case DisconnectTimeout(i) =>
      if r.game.Over() || r.status != Playing || i < 0 || i >= |r.seats| then (r, Ok(0))
      else (TimeOut(r, r.seats[i].color), Ok(0))
    case OfferDraw(token) =>
      if |r.seats| != 2 then (r, Err(ErrDrawUnsupported))
      else (match SeatByToken(r.seats, token)
            case None => (r, Err(ErrBadToken))
            case Some(k) =>
              var i := r.seats[k].index;
              if r.status != Playing then (r, Err(ErrNotPlaying))
              else if r.drawOfferBy == Some(i) then (r, Ok(i))
              else if r.drawOfferBy.Some? then (r, Err(ErrDrawAlreadyOffered))
              else (r.(drawOfferBy := Some(i), log := r.log + [Offered(i)]), Reply(i, saved)))
    case AcceptDraw(token) =>
      (match SeatByToken(r.seats, token)
       case None => (r, Err(ErrBadToken))
       case Some(k) =>
         var i := r.seats[k].index;
         if r.status != Playing then (r, Err(ErrNotPlaying))
         else if r.drawOfferBy == None then (r, Err(ErrDrawNotOffered))
         else if r.drawOfferBy == Some(i) then (r, Err(ErrCannotAcceptOwnDrawOffer))
         else (r.(game := AgreedDraw(r.game), status := Finished, drawOfferBy := None,
                  log := r.log + [Accepted(i)], acts := r.acts + [Action.AgreeDraw]), Ok(i)))
    case DeclineDraw(token) =>
      (match SeatByToken(r.seats, token)
       case None => (r, Err(ErrBadToken))
       case Some(k) =>
         if r.status != Playing then (r, Err(ErrNotPlaying))
         else if r.drawOfferBy == None then (r, Err(ErrDrawNotOffered))
         else (r.(drawOfferBy := None, log := r.log + [Declined]), Reply(k, saved)))
  }

  /** The one place where moves reach the engine; an accepted move rescinds any draw offer. */
  ghost function MakeMove(r: Record, color: Color, pos: Position, now: Time, done: Answer): (Record, Answer)
    requires r.game.Valid()
  {
    match Apply(r.game, Move(color, pos), now)
    case Err(e) => (r, Err(ErrMove(e)))
    case Ok(after) =>
      (r.(game := after.0, status := if after.0.Over() then Finished else r.status, drawOfferBy := None,
          log := r.log + [Moved(color)], acts := r.acts + [Action.PlayMove(Move(color, pos), now)]), done)
  }

  function TimeOut(r: Record, loser: Color): Record {
    r.(game := Forfeited(r.game, loser), status := Finished, log := r.log + [TimedOut], acts := r.acts + [Action.Forfeit(loser)])
  }

  /** The occupied seats, renumbered. */
  function Trimmed(seats: seq<Seat>): (kept: seq<Seat>)
    ensures |kept| <= |seats|
    ensures forall k | 0 <= k < |kept| :: kept[k].index == k && kept[k].occupied
  {
    if seats == [] then []
    else
      var kept := Trimmed(seats[..|seats| - 1]);
      var last := seats[|seats| - 1];
      if last.occupied then kept + [last.(index := |kept|)] else kept
  }

  function Colors(seats: seq<Seat>): seq<Color> {
    seq(|seats|, i requires 0 <= i < |seats| => seats[i].color)
  }

  /** From waiting to playing with the seats taken so far and the rulebook of their number. */
  ghost function StartInternal(r: Record, now: Time): (Record, Answer)
    requires r.game.Valid()
  {
    var kept := Trimmed(r.seats);
    if r.status != Waiting then (r, Err(ErrNotPlaying))
    else if |kept| < 2 then (r, Err(ErrTooFewToStart))
    else
      var newGame := NewGame(Colors(kept), ConfigFor(|kept|, r.game.config));
      (r.(seats := kept, game := ClockStarted(newGame, now), status := Playing, acts := [Action.StartClock(now)]), Ok(0))
  }

  /** Who may start: the holder of seat 0 of a private waiting game. Checked in a critical section of its own, before
      the one that starts the game. */
  function StartRefusal(r: Record, token: Token): Option<StoreError> {
    if r.visibility != Private then Some(ErrPublicCannotStart)
    else if r.status != Waiting then Some(ErrNotPlaying)
    else
      match SeatByToken(r.seats, token)
      case None => Some(ErrBadToken)
      case Some(k) => if r.seats[k].index != 0 then Some(ErrNotHost) else None
  }

  function Created(numPlayers: nat, visibility: Visibility): Record
    requires numPlayers >= 1
  {
    var colors := seq(numPlayers, i requires 0 <= i < numPlayers => i + 1);
    Record(NewGame(colors, DefaultConfig(numPlayers)), seq(numPlayers, i requires 0 <= i < numPlayers => EmptySeat(i, i + 1)),
           Waiting, visibility, None, [], [])
  }

  // ---- The object ----

  class GameRecord {
    var state: GameState
    var seats: seq<Seat>
    var status: Status
    const visibility: Visibility
    var drawOfferBy: Option<nat>
    ghost var log: seq<Event>
    ghost var acts: seq<Action>

    ghost predicate Valid()
      reads this, state, state.board, state.board.cells
    {
      state.Valid()
    }

    ghost function Now(): Record
      reads this, state, state.board
    {
      Record(state.View(), seats, status, visibility, drawOfferBy, log, acts)
    }

    constructor Create(numPlayers: nat, visibility: Visibility)
      requires numPlayers >= 1
      ensures Valid() && Now() == Created(numPlayers, visibility)
      ensures fresh(state) && fresh(state.board) && fresh(state.board.cells)
    {
      var colors := seq(numPlayers, i requires 0 <= i < numPlayers => i + 1);
      state := new GameState(colors, DefaultConfig(numPlayers));
      seats := seq(numPlayers, i requires 0 <= i < numPlayers => EmptySeat(i, i + 1));
      status, this.visibility, drawOfferBy, log, acts := Waiting, visibility, None, [], [];
    }

    method FindByToken(token: Token) returns (i: Option<nat>)
      ensures i == SeatByToken(seats, token)
    {
      for k := 0 to |seats|
        invariant forall j | 0 <= j < k :: seats[j].token != Some(token)
      {
        if seats[k].token == Some(token) {
          return Some(k);
        }
      }
      return None;
    }

    method FindFree(user: string) returns (i: Option<nat>)
      ensures i == PickSeatForUser(seats, user)
    {
      if user != "" {
        for k := 0 to |seats|
          invariant forall j | 0 <= j < k :: seats[j].occupied || seats[j].userId != user
        {
          if !seats[k].occupied && seats[k].userId == user {
            return Some(k);
          }
        }
      }
      for k := 0 to |seats|
        invariant forall j | 0 <= j < k :: seats[j].occupied || seats[j].userId != ""
      {
        if !seats[k].occupied && seats[k].userId == "" {
          return Some(k);
        }
      }
      return None;
    }

    method Full() returns (full: bool)
      ensures full == AllSeated(seats)
    {
      for k := 0 to |seats|
        invariant forall j | 0 <= j < k :: seats[j].occupied
      {
        if !seats[k].occupied {
          return false;
        }
      }
      return true;
    }

    /** Occupies a seat and starts play with the last one. */
    method Occupy(i: nat, seat: Seat, now: Time)
      requires Valid() && i < |seats|
      modifies this, state
      ensures Valid() && state == old(state) && Now() == Fill(old(Now()), i, seat, now)
    {
      seats := seats[i := seat];
      var full := Full();
      if full {
        status := Playing;
        state.StartClock(now);
        acts := acts + [Action.StartClock(now)];
      }
    }

    method Join(name: string, user: string, want: int, token: Token, now: Time, saved: bool) returns (a: Answer)
      requires Valid()
      modifies this, state
      ensures Valid() && state == old(state)
      ensures (Now(), a) == Step(old(Now()), Command.Join(name, user, want, token, now), saved)
    {
      hide PickSeatForUser, Fill;
      if status != Waiting {
        return Err(ErrNotPlaying);
      }
      if visibility == Public && user == "" {
        return Err(ErrAnonymousOnPublic);
      }
      var i := want;
      if want < 0 {
        var free := FindFree(user);
        if free == None {
          return Err(ErrNoFreeSeat);
        }
        i := free.value;
      } else {
        if want >= |seats| {
          return Err(ErrNoFreeSeat);
        }
        if seats[want].occupied {
          return Err(ErrSeatTaken);
        }
        if seats[want].userId != "" && seats[want].userId != user {
          return Err(ErrSeatReserved);
        }
      }
      Occupy(i, seats[i].(name := name, token := Some(token), userId := user, occupied := true), now);
      return Reply(i, saved);
    }

    method ResolveSeat(user: string, token: Token, saved: bool) returns (a: Answer)
      requires Valid()
      modifies this
      ensures Valid() && (Now(), a) == Step(old(Now()), Command.ResolveSeat(user, token), saved)
    {
      if user == "" {
        return Err(ErrSeatNotForUser);
      }
      for k := 0 to |seats|
        invariant forall j | 0 <= j < k :: !(seats[j].occupied && !seats[j].isBot && seats[j].userId == user)
        invariant Now() == old(Now())
      {
        if seats[k].occupied && !seats[k].isBot && seats[k].userId == user {
          seats := seats[k := seats[k].(token := Some(token))];
          return Reply(k, saved);
        }
      }
      return Err(ErrSeatNotForUser);
    }

    /** The checks that changes to a private waiting game's seats share. */
    method CheckSeat(i: int) returns (refusal: Option<StoreError>)
      ensures refusal == SeatRefusal(Now(), i)
    {
      if status != Waiting {
        return Some(ErrNotPlaying);
      }
      if visibility != Private {
        return Some(ErrBotsOnPublic);
      }
      if i < 0 || i >= |seats| {
        return Some(ErrBadSeatIndex);
      }
      return None;
    }

    method AddBot(i: int, name: string, token: Token, now: Time, saved: bool) returns (a: Answer)
      requires Valid()
      modifies this, state
      ensures Valid() && state == old(state)
      ensures (Now(), a) == Step(old(Now()), Command.AddBot(i, name, token, now), saved)
    {
      hide Fill;
      var refusal := CheckSeat(i);
      if refusal.Some? {
        return Err(refusal.value);
      }
      if seats[i].occupied {
        return Err(ErrSeatTaken);
      }
      Occupy(i, seats[i].(name := name, token := Some(token), occupied := true, isBot := true), now);
      return Reply(i, saved);
    }

    method RemoveBot(i: int, saved: bool) returns (a: Answer)
      requires Valid()
      modifies this
      ensures Valid() && (Now(), a) == Step(old(Now()), Command.RemoveBot(i), saved)
    {
      var refusal := CheckSeat(i);
      if refusal.Some? {
        return Err(refusal.value);
      }
      if !seats[i].occupied || !seats[i].isBot {
        return Err(ErrSeatNotBot);
      }
      seats := seats[i := seats[i].(name := "", token := None, occupied := false, isBot := false)];
      return Reply(i, saved);
    }

    method InviteSeat(i: int, invitee: string, name: string, saved: bool) returns (a: Answer)
      requires Valid()
      modifies this
      ensures Valid() && (Now(), a) == Step(old(Now()), Command.InviteSeat(i, invitee, name), saved)
    {
      if invitee == "" || name == "" {
        return Err(ErrBadSeatIndex);
      }
      var refusal := CheckSeat(i);
      if refusal.Some? {
        return Err(refusal.value);
      }
      if seats[i].occupied {
        return Err(ErrSeatTaken);
      }
      seats := seats[i := seats[i].(name := name, userId := invitee, token := None, occupied := false, isBot := false)];
      return Reply(i, saved);
    }

    method CancelSeatInvite(i: int, saved: bool) returns (a: Answer)
      requires Valid()
      modifies this
      ensures Valid() && (Now(), a) == Step(old(Now()), Command.CancelSeatInvite(i), saved)
    {
      var refusal := CheckSeat(i);
      if refusal.Some? {
        return Err(refusal.value);
      }
      if seats[i].occupied || seats[i].isBot || seats[i].userId == "" {
        return Err(ErrSeatNotInvited);
      }
      seats := seats[i := EmptySeat(seats[i].index, seats[i].color)];
      return Reply(i, saved);
    }

    method DeclineSeatInvite(i: int, user: string, saved: bool) returns (a: Answer)
      requires Valid()
      modifies this
      ensures Valid() && (Now(), a) == Step(old(Now()), Command.DeclineSeatInvite(i, user), saved)
    {
      if user == "" {
        return Err(ErrNotInvitee);
      }
      var refusal := CheckSeat(i);
      if refusal.Some? {
        return Err(refusal.value);
      }
      if seats[i].occupied || seats[i].isBot || seats[i].userId == "" {
        return Err(ErrSeatNotInvited);
      }
      if seats[i].userId != user {
        return Err(ErrNotInvitee);
      }
      seats := seats[i := EmptySeat(seats[i].index, seats[i].color)];
      return Reply(i, saved);
    }

    method LeaveSeat(token: Token, saved: bool) returns (a: Answer)
      requires Valid()
      modifies this
      ensures Valid() && (Now(), a) == Step(old(Now()), Command.LeaveSeat(token), saved)
    {
      var k := FindByToken(token);
      if k == None {
        return Err(ErrBadToken);
      }
      if status != Waiting {
        return Err(ErrNotPlaying);
      }
      var i := seats[k.value].index;
      if i >= |seats| {
        return Err(ErrBadSeatIndex);
      }
      seats := seats[i := EmptySeat(i, seats[k.value].color)];
      return Reply(i, saved);
    }

    /** The auth-less start: drops the free seats and rebuilds the engine for the colours that remain. */
    method StartGame(now: Time) returns (a: Answer)
      requires Valid()
      modifies this
      ensures Valid() && (state == old(state) || (fresh(state) && fresh(state.board) && fresh(state.board.cells)))
      ensures (Now(), a) == StartInternal(old(Now()), now)
    {
      if status != Waiting {
        return Err(ErrNotPlaying);
      }
      var kept: seq<Seat> := [];
      for k := 0 to |seats|
        invariant kept == Trimmed(seats[..k])
        invariant Now() == old(Now())
      {
        assert seats[..k + 1][..k] == seats[..k];
        if seats[k].occupied {
          kept := kept + [seats[k].(index := |kept|)];
        }
      }
      assert seats[..|seats|] == seats;
      if |kept| < 2 {
        return Err(ErrTooFewToStart);
      }
      seats := kept;
      state := new GameState(Colors(kept), ConfigFor(|kept|, state.config));
      state.StartClock(now);
      status, acts := Playing, [Action.StartClock(now)];
      return Ok(0);
    }

    method CheckStart(token: Token) returns (refusal: Option<StoreError>)
      ensures refusal == StartRefusal(Now(), token)
    {
      if visibility != Private {
        return Some(ErrPublicCannotStart);
      }
      if status != Waiting {
        return Some(ErrNotPlaying);
      }
      var k := FindByToken(token);
      if k == None {
        return Some(ErrBadToken);
      }
      if seats[k.value].index != 0 {
        return Some(ErrNotHost);
      }
      return None;
    }

    /** Moves of players and bots alike. */
    method ApplyTo(color: Color, pos: Position, now: Time, done: Answer) returns (a: Answer)
      requires Valid()
      modifies this, state, state.board, state.board.cells
      ensures Valid() && state == old(state)
      ensures (Now(), a) == MakeMove(old(Now()), color, pos, now, done)
    {
      hide Apply;
      var r := state.ApplyMove(Move(color, pos), now);
      if r.Err? {
        return Err(ErrMove(r.error));
      }
      if state.IsOver() {
        status := Finished;
      }
      drawOfferBy := None;
      log, acts := log + [Moved(color)], acts + [Action.PlayMove(Move(color, pos), now)];
      return done;
    }

    method PlayMove(token: Token, pos: Position, now: Time, saved: bool) returns (a: Answer)
      requires Valid()
      modifies this, state, state.board, state.board.cells
      ensures Valid() && state == old(state)
      ensures (Now(), a) == Step(old(Now()), Command.PlayMove(token, pos, now), saved)
    {
      hide MakeMove;
      var k := FindByToken(token);
      if k == None {
        return Err(ErrBadToken);
      }
      if status != Playing {
        return Err(ErrNotPlaying);
      }
      a := ApplyTo(seats[k.value].color, pos, now, Reply(k.value, saved));
    }

    /** A scheduled bot turn: `choice` is what the bot engine answers. */
    method PlayBotTurnIfNeeded(choice: Option<Position>, now: Time, saved: bool)
      requires Valid()
      modifies this, state, state.board, state.board.cells
      ensures Valid() && state == old(state)
      ensures Now() == Step(old(Now()), Command.BotTurn(choice, now), saved).0
    {
      hide MakeMove;
      if status != Playing || state.IsOver() {
        return;
      }
      if state.turn >= |seats| || !seats[state.turn].isBot || choice == None {
        return;
      }
      var a := ApplyTo(seats[state.turn].color, choice.value, now, Ok(0));
    }

    method Resign(token: Token, saved: bool) returns (a: Answer)
      requires Valid()
      modifies this, state
      ensures Valid() && state == old(state)
      ensures (Now(), a) == Step(old(Now()), Command.Resign(token), saved)
    {
      var k := FindByToken(token);
      if k == None {
        return Err(ErrBadToken);
      }
      if status != Playing {
        return Err(ErrNotPlaying);
      }
      state.Resign(seats[k.value].color);
      status, drawOfferBy := Finished, None;
      log, acts := log + [Quit(k.value)], acts + [Action.Resign(seats[k.value].color)];
      return Ok(k.value);
    }

    method Forfeit(loser: Color)
      requires Valid()
      modifies this, state
      ensures Valid() && state == old(state) && Now() == TimeOut(old(Now()), loser)
    {
      state.Forfeit(loser);
      status := Finished;
      log, acts := log + [TimedOut], acts + [Action.Forfeit(loser)];
    }

    /** The clock timer fired; a move may have landed since, so the reading is taken again. */
    method HandleFlag(now: Time, saved: bool)
      requires Valid()
      modifies this, state
      ensures Valid() && state == old(state)
      ensures Now() == Step(old(Now()), Command.Flag(now), saved).0
    {
      if state.IsOver() || status != Playing {
        return;
      }
      var remaining := state.RemainingForActive(now);
      if remaining > 0 {
        return;
      }
      Forfeit(state.players[state.turn].color);
    }

    method HandleDisconnectTimeout(seat: int, saved: bool)
      requires Valid()
      modifies this, state
      ensures Valid() && state == old(state)
      ensures Now() == Step(old(Now()), Command.DisconnectTimeout(seat), saved).0
    {
      if state.IsOver() || status != Playing {
        return;
      }
      if seat < 0 || seat >= |seats| {
        return;
      }
      Forfeit(seats[seat].color);
    }

    method OfferDraw(token: Token, saved: bool) returns (a: Answer)
      requires Valid()
      modifies this
      ensures Valid() && (Now(), a) == Step(old(Now()), Command.OfferDraw(token), saved)
    {
      if |seats| != 2 {
        return Err(ErrDrawUnsupported);
      }
      var k := FindByToken(token);
      if k == None {
        return Err(ErrBadToken);
      }
      var i := seats[k.value].index;
      if status != Playing {
        return Err(ErrNotPlaying);
      }
      if drawOfferBy.Some? {
        if drawOfferBy.value == i {
          return Ok(i);
        }
        return Err(ErrDrawAlreadyOffered);
      }
      drawOfferBy, log := Some(i), log + [Offered(i)];
      return Reply(i, saved);
    }

    method AcceptDraw(token: Token, saved: bool) returns (a: Answer)
      requires Valid()
      modifies this, state
      ensures Valid() && state == old(state)
      ensures (Now(), a) == Step(old(Now()), Command.AcceptDraw(token), saved)
    {
      var k := FindByToken(token);
      if k == None {
        return Err(ErrBadToken);
      }
      var i := seats[k.value].index;
      if status != Playing {
        return Err(ErrNotPlaying);
      }
      if drawOfferBy == None {
        return Err(ErrDrawNotOffered);
      }
      if drawOfferBy.value == i {
        return Err(ErrCannotAcceptOwnDrawOffer);
      }
      state.AgreeDraw();
      status, drawOfferBy := Finished, None;
      log, acts := log + [Accepted(i)], acts + [Action.AgreeDraw];
      return Ok(i);
    }

    method DeclineDraw(token: Token, saved: bool) returns (a: Answer)
      requires Valid()
      modifies this
      ensures Valid() && (Now(), a) == Step(old(Now()), Command.DeclineDraw(token), saved)
    {
      var k := FindByToken(token);
      if k == None {
        return Err(ErrBadToken);
      }
      if status != Playing {
        return Err(ErrNotPlaying);
      }
      if drawOfferBy == None {
        return Err(ErrDrawNotOffered);
      }
      drawOfferBy, log := None, log + [Declined];
      return Reply(k.value, saved);
    }
  }
}
