/** Rematches: what is built for one, and the protocol by which several pods agree on a single one. */
module Rematch {
  import opened Wrappers
  import opened Engine
  import opened Play
  import opened Store
  import opened StoreLaws

  type GameId = string
  type PodId = string

  // ---- The follow-up game ----

  /** Bots play again, users find their seat reserved and taken, everybody else's seat is free. */
  function RematchSeat(prior: Seat, i: nat, botName: string, botToken: Token): Seat {
    var seat := EmptySeat(i, i + 1);
    if !prior.occupied then seat
    else if prior.isBot then seat.(name := botName, token := Some(botToken), occupied := true, isBot := true)
    else if prior.userId != "" then seat.(name := prior.name, userId := prior.userId, occupied := true)
    else seat
  }

  function RematchSeats(prior: seq<Seat>, botNames: seq<string>, botTokens: seq<Token>): seq<Seat>
    requires |botNames| == |botTokens| == |prior|
  {
    seq(|prior|, i requires 0 <= i < |prior| => RematchSeat(prior[i], i, botNames[i], botTokens[i]))
  }

  /** The new record: same number of seats and board, colours dealt afresh, playing at once when nobody is missing. */
  function RematchOf(r: Record, botNames: seq<string>, botTokens: seq<Token>, now: Time): Record
    requires r.seats != [] && |botNames| == |botTokens| == |r.seats|
  {
    var seats := RematchSeats(r.seats, botNames, botTokens);
    var game := NewGame(Colors(seats), ConfigFor(|seats|, r.game.config));
    if AllSeated(seats)
    then Record(ClockStarted(game, now), seats, Playing, r.visibility, None, [], [Action.StartClock(now)])
    else Record(game, seats, Waiting, r.visibility, None, [], [])
  }

  /** A bot's seat is an occupied bot's seat again, a user's is the same user's, and any other is open. */
  predicate KeepsPlace(prior: Seat, next: Seat, botToken: Token) {
    if prior.occupied && prior.isBot then next.occupied && next.isBot && next.token == Some(botToken)
    else if prior.occupied && prior.userId != "" then next.occupied && !next.isBot && next.userId == prior.userId && next.name == prior.name
    else next.userId == "" && !next.occupied && !next.isBot
  }

  method BuildSeats(prior: seq<Seat>, botNames: seq<string>, botTokens: seq<Token>) returns (seats: seq<Seat>, allOccupied: bool)
    requires |botNames| == |botTokens| == |prior|
    ensures seats == RematchSeats(prior, botNames, botTokens) && allOccupied == AllSeated(seats)
  {
    seats, allOccupied := [], true;
    for i := 0 to |prior|
      invariant |seats| == i && forall k | 0 <= k < i :: seats[k] == RematchSeat(prior[k], k, botNames[k], botTokens[k])
      invariant allOccupied <==> forall k | 0 <= k < i :: seats[k].occupied
    {
      var seat := EmptySeat(i, i + 1);
      if !prior[i].occupied {
        allOccupied := false;
      } else if prior[i].isBot {
        seat := seat.(name := botNames[i], token := Some(botTokens[i]), occupied := true, isBot := true);
      } else if prior[i].userId != "" {
        seat := seat.(name := prior[i].name, userId := prior[i].userId, occupied := true);
      } else {
        allOccupied := false;
      }
      seats := seats + [seat];
    }
  }

  /** A rematch's record satisfies the invariant of hosted games, so all their laws hold for it; it starts playing
      exactly when every seat of the finished game was held by a bot or a known user, who keep their places; the other
      seats are free for anybody. */
  lemma RematchCoherent(r: Record, botNames: seq<string>, botTokens: seq<Token>, now: Time)
    requires r.seats != [] && |botNames| == |botTokens| == |r.seats|
    ensures var u := RematchOf(r, botNames, botTokens, now);
      && Coherent(u) && (r.game.config.boardSide > 0 ==> SameTerms(r.game.config, u.game.config, |u.seats|))
      && (r.game.config == DefaultConfig(|r.seats|) ==> u.game.config == DefaultConfig(|u.seats|))
      && (u.status == Playing <==> forall i | 0 <= i < |r.seats| :: r.seats[i].occupied && (r.seats[i].isBot || r.seats[i].userId != ""))
      && |u.seats| == |r.seats| && u.visibility == r.visibility && u.game.history == []
      && forall i | 0 <= i < |r.seats| :: KeepsPlace(r.seats[i], u.seats[i], botTokens[i])
  {
    var u := RematchOf(r, botNames, botTokens, now);
    var colors, cfg := Colors(u.seats), ConfigFor(|u.seats|, r.game.config);
    forall i, j | 0 <= i < j < |colors|
      ensures colors[i] != colors[j]
    {
    }
    assert Playable(colors, cfg);
    assert Play.Exec(colors, cfg, []).game == NewGame(colors, cfg);
    assert u.acts != [] ==> u.acts[..0] == [];
    assert u.game == Play.Exec(colors, cfg, u.acts).game;
    forall i | 0 <= i < |r.seats|
      ensures u.seats[i] == RematchSeat(r.seats[i], i, botNames[i], botTokens[i])
    {
    }
  }

  // ---- The row of the finished game ----

  /** The offer lists the seats that have accepted. */
  datatype Row = Row(offer: Option<set<nat>>, link: Option<GameId>)

  function Merged(offer: Option<set<nat>>, bots: set<nat>, seat: nat): set<nat> {
    (if offer.Some? then offer.value else bots) + {seat}
  }

  function Linked(link: Option<GameId>, id: GameId): GameId {
    if link.Some? then link.value else id
  }

  function HumanSeats(seats: seq<Seat>): set<nat> {
    set i: nat | i < |seats| && seats[i].occupied && !seats[i].isBot
  }

  function BotSeats(seats: seq<Seat>): set<nat> {
    set i: nat | i < |seats| && seats[i].occupied && seats[i].isBot
  }

  /** Whether every occupied human seat has accepted, seat by seat. */
  method RematchOfferComplete(seats: seq<Seat>, accepted: set<nat>) returns (complete: bool)
    ensures complete <==> HumanSeats(seats) <= accepted
  {
    for i := 0 to |seats|
      invariant forall k: nat | k < i && seats[k].occupied && !seats[k].isBot :: k in accepted
    {
      if seats[i].occupied && !seats[i].isBot && i !in accepted {
        assert i in HumanSeats(seats);
        return false;
      }
    }
    return true;
  }

  class GamesRow {
    var row: Row

    constructor ()
      ensures row == Row(None, None)
    {
      row := Row(None, None);
    }

    /** One transaction: reads the offer under the row lock, adds the seat, writes it back. */
    method MergeRematchAcceptance(seat: nat, botSeats: seq<nat>) returns (accepted: set<nat>)
      modifies this
      ensures accepted == Merged(old(row).offer, (set b | b in botSeats), seat)
      ensures row == old(row).(offer := Some(accepted))
    {
      if row.offer.Some? {
        accepted := row.offer.value;
      } else {
        accepted := {};
        for i := 0 to |botSeats|
          invariant accepted == (set b | b in botSeats[..i]) && row == old(row)
        {
          accepted := accepted + {botSeats[i]};
        }
        assert botSeats[..|botSeats|] == botSeats;
      }
      accepted := accepted + {seat};
      row := row.(offer := Some(accepted));
    }

    /** One statement: keeps a link that is already set and returns whichever stands. */
    method SetRematchLink(newId: GameId) returns (winner: GameId)
      modifies this
      ensures winner == Linked(old(row).link, newId) && row == old(row).(link := Some(winner))
    {
      if row.link == None {
        row := row.(link := Some(newId));
      }
      winner := row.link.value;
    }
  }

  // ---- Pods racing for one rematch ----

  type CallId = nat

  /** How far a request has come: its seat's acceptance to be merged, merged, unanimous, the new game saved, the link
      set, and answered with a game. */
  datatype Phase =
    | Asking(seat: nat)
    | Counted(seat: nat, accepted: set<nat>)
    | Unanimous
    | Saved(id: GameId)
    | Winning(winner: GameId)
    | Answered(winner: GameId)

  /** `linked` is what each pod's cached record says. Auxiliary: `asked` the seats whose acceptance was ever merged,
      `merges` every offer a merge produced, `writes` how often the link column changed, `withdrawn` the seats whose
      last word was a decline. */
  datatype State = State(
    row: Row,
    games: set<GameId>,
    linked: map<PodId, GameId>,
    calls: map<CallId, (PodId, Phase)>,
    asked: set<nat>,
    merges: seq<set<nat>>,
    writes: nat,
    withdrawn: set<nat>)

  datatype Step =
    | Ask(call: CallId, pod: PodId, seat: nat)
    | Merge(merging: CallId)
    | Decide(deciding: CallId)
    | Follow(following: CallId)
    | Save(saving: CallId, newId: GameId)
    | Link(linking: CallId)
    | Remember(remembering: CallId, sameRecord: bool)
    | Withdraw(decliner: nat)
    | ClearOffer
    | Reload(reloader: PodId)
    | Evict(evictor: PodId)

  const START := State(Row(None, None), {}, map[], map[], {}, [], 0, {})

  predicate In(s: State, call: CallId, test: Phase -> bool) {
    call in s.calls && test(s.calls[call].1)
  }

  /** One step of one request, or an eviction, a reload or a clearing of the offer at any moment. */
  function Next(s: State, step: Step, humans: set<nat>, bots: set<nat>): State {
    match step
    case Ask(call, pod, seat) =>
      if call in s.calls || pod in s.linked || seat !in humans then s
      else s.(calls := s.calls[call := (pod, Asking(seat))])
    case Merge(call) =>
      if !In(s, call, (p: Phase) => p.Asking?) then s
      else
        var (pod, phase) := s.calls[call];
        var accepted := Merged(s.row.offer, bots, phase.seat);
        s.(row := s.row.(offer := Some(accepted)), calls := s.calls[call := (pod, Counted(phase.seat, accepted))],
           asked := s.asked + {phase.seat}, merges := s.merges + [accepted], withdrawn := s.withdrawn - {phase.seat})
    case Decide(call) =>
      if !In(s, call, (p: Phase) => p.Counted?) then s
      else if humans <= s.calls[call].1.accepted then s.(calls := s.calls[call := (s.calls[call].0, Unanimous)])
      else s.(calls := s.calls - {call})
    case Follow(call) =>
      if In(s, call, (p: Phase) => p.Unanimous?) && s.calls[call].0 in s.linked && s.linked[s.calls[call].0] in s.games
      then s.(calls := s.calls[call := (s.calls[call].0, Answered(s.linked[s.calls[call].0]))])
      else s
    case Save(call, id) =>
      if !In(s, call, (p: Phase) => p.Unanimous?) || id in s.games then s
      else s.(games := s.games + {id}, calls := s.calls[call := (s.calls[call].0, Saved(id))])
    case Link(call) =>
      if !In(s, call, (p: Phase) => p.Saved?) then s
      else
        var winner := Linked(s.row.link, s.calls[call].1.id);
        s.(row := s.row.(link := Some(winner)), calls := s.calls[call := (s.calls[call].0, Winning(winner))],
           writes := s.writes + if s.row.link == Some(winner) then 0 else 1)
    case Remember(call, sameRecord) =>
      if !In(s, call, (p: Phase) => p.Winning?) then s
      else
        var (pod, phase) := s.calls[call];
        s.(linked := if sameRecord then s.linked[pod := phase.winner] else s.linked,
           calls := s.calls[call := (pod, Answered(phase.winner))])
    case Withdraw(seat) => s.(withdrawn := s.withdrawn + {seat})
    case ClearOffer => s.(row := s.row.(offer := None))
    case Reload(pod) => s.(linked := if s.row.link.Some? then s.linked[pod := s.row.link.value] else s.linked - {pod})
    case Evict(pod) => s.(linked := s.linked - {pod})
  }

  function Run(steps: seq<Step>, humans: set<nat>, bots: set<nat>): State {
    if steps == [] then START else Next(Run(steps[..|steps| - 1], humans, bots), steps[|steps| - 1], humans, bots)
  }

  predicate Agreed(merges: seq<set<nat>>, humans: set<nat>) {
    exists k :: 0 <= k < |merges| && humans <= merges[k]
  }

  ghost predicate Sound(s: State, humans: set<nat>, bots: set<nat>) {
    && (s.row.link.Some? ==> s.row.link.value in s.games && Agreed(s.merges, humans))
    && s.writes == (if s.row.link.Some? then 1 else 0)
    && (s.row.offer.Some? ==> s.row.offer.value <= bots + s.asked)
    && (forall k | 0 <= k < |s.merges| :: s.merges[k] <= bots + s.asked)
    && (forall pod | pod in s.linked :: s.row.link == Some(s.linked[pod]))
    && (forall call | call in s.calls :: PhaseSound(s, s.calls[call].1, humans))
  }

  ghost predicate PhaseSound(s: State, p: Phase, humans: set<nat>) {
    match p
    case Asking(_) => true
    case Counted(_, accepted) => accepted in s.merges
    case Unanimous => Agreed(s.merges, humans)
    case Saved(id) => Agreed(s.merges, humans) && id in s.games
    case Winning(winner) => s.row.link == Some(winner)
    case Answered(winner) => s.row.link == Some(winner)
  }

  /** What every step keeps of the past: games, merges and a link once set. */
  ghost predicate Later(s: State, u: State) {
    && s.games <= u.games && s.merges <= u.merges && s.asked <= u.asked
    && (s.row.link.Some? ==> u.row.link == s.row.link)
  }

  lemma AgreedStays(merges: seq<set<nat>>, more: seq<set<nat>>, humans: set<nat>)
    requires merges <= more && Agreed(merges, humans)
    ensures Agreed(more, humans)
  {
    var k :| 0 <= k < |merges| && humans <= merges[k];
    assert more[k] == merges[k];
  }

  lemma AgreedBy(merges: seq<set<nat>>, accepted: set<nat>, humans: set<nat>)
    requires accepted in merges && humans <= accepted
    ensures Agreed(merges, humans)
  {
    var k :| 0 <= k < |merges| && merges[k] == accepted;
  }

  lemma PhaseStays(s: State, u: State, p: Phase, humans: set<nat>)
    requires Later(s, u) && PhaseSound(s, p, humans)
    ensures PhaseSound(u, p, humans)
  {
    if Agreed(s.merges, humans) {
      AgreedStays(s.merges, u.merges, humans);
    }
    hide Agreed;
  }

  /** A step that touches one call and the games, not the row or the merges. */
  lemma CallKeepsSound(s: State, u: State, call: CallId, humans: set<nat>, bots: set<nat>)
    requires Sound(s, humans, bots) && s.games <= u.games
    requires u.row == s.row && u.merges == s.merges && u.asked == s.asked && u.writes == s.writes && u.calls.Keys <= s.calls.Keys + {call}
    requires forall pod | pod in u.linked :: u.row.link == Some(u.linked[pod])
    requires forall c | c in u.calls && c != call :: c in s.calls && u.calls[c] == s.calls[c]
    requires call in u.calls ==> PhaseSound(u, u.calls[call].1, humans)
    ensures Sound(u, humans, bots)
  {
    hide Agreed, PhaseSound;
    forall c | c in u.calls && c != call
      ensures PhaseSound(u, u.calls[c].1, humans)
    {
      PhaseStays(s, u, s.calls[c].1, humans);
    }
  }

  lemma MergeKeepsSound(s: State, call: CallId, humans: set<nat>, bots: set<nat>)
    requires Sound(s, humans, bots) && call in s.calls && s.calls[call].1.Asking?
    ensures Sound(Next(s, Merge(call), humans, bots), humans, bots)
  {
    var u := Next(s, Merge(call), humans, bots);
    assert u.merges[|s.merges|] == u.calls[call].1.accepted;
    if s.row.link.Some? {
      AgreedStays(s.merges, u.merges, humans);
    }
    forall c | c in s.calls && c != call
      ensures PhaseSound(u, u.calls[c].1, humans)
    {
      PhaseStays(s, u, s.calls[c].1, humans);
    }
    hide Agreed;
  }

  lemma LinkKeepsSound(s: State, call: CallId, humans: set<nat>, bots: set<nat>)
    requires Sound(s, humans, bots) && call in s.calls && s.calls[call].1.Saved?
    ensures Sound(Next(s, Link(call), humans, bots), humans, bots)
  {
    var u := Next(s, Link(call), humans, bots);
    assert PhaseSound(s, s.calls[call].1, humans);
    forall c | c in s.calls && c != call
      ensures PhaseSound(u, u.calls[c].1, humans)
    {
      PhaseStays(s, u, s.calls[c].1, humans);
    }
    hide Agreed;
  }

  /** Withdrawals, clearings of the offer and cache refreshes touch no call. */
  lemma IdleKeepsSound(s: State, step: Step, humans: set<nat>, bots: set<nat>)
    requires Sound(s, humans, bots) && (step.Withdraw? || step.ClearOffer? || step.Reload? || step.Evict?)
    ensures Sound(Next(s, step, humans, bots), humans, bots)
  {
    hide Agreed, PhaseSound;
    var u := Next(s, step, humans, bots);
    forall c | c in u.calls
      ensures PhaseSound(u, u.calls[c].1, humans)
    {
      PhaseStays(s, u, s.calls[c].1, humans);
    }
  }

  lemma StepKeepsSound(s: State, step: Step, humans: set<nat>, bots: set<nat>)
    requires Sound(s, humans, bots)
    ensures Sound(Next(s, step, humans, bots), humans, bots)
    ensures s.row.link.Some? ==> Next(s, step, humans, bots).row.link == s.row.link
  {
    hide Agreed;
    var u := Next(s, step, humans, bots);
    match step
    case Merge(call) =>
      if u != s {
        MergeKeepsSound(s, call, humans, bots);
      }
    case Link(call) =>
      if u != s {
        LinkKeepsSound(s, call, humans, bots);
      }
    case Ask(call, _, _) => CallKeepsSound(s, u, call, humans, bots);
    case Decide(call) =>
      if call in s.calls && s.calls[call].1.Counted? && humans <= s.calls[call].1.accepted {
        assert PhaseSound(s, s.calls[call].1, humans);
        AgreedBy(s.merges, s.calls[call].1.accepted, humans);
      }
      CallKeepsSound(s, u, call, humans, bots);
    case Follow(call) => CallKeepsSound(s, u, call, humans, bots);
    case Save(call, _) => CallKeepsSound(s, u, call, humans, bots);
    case Remember(call, _) => CallKeepsSound(s, u, call, humans, bots);
    case _ => IdleKeepsSound(s, step, humans, bots);
  }

  lemma {:induction false} SoundLaw(steps: seq<Step>, humans: set<nat>, bots: set<nat>)
    ensures Sound(Run(steps, humans, bots), humans, bots)
  {
    hide Next, Sound;
    if steps == [] {
      StartIsSound(humans, bots);
    } else {
      SoundLaw(steps[..|steps| - 1], humans, bots);
      StepKeepsSound(Run(steps[..|steps| - 1], humans, bots), steps[|steps| - 1], humans, bots);
    }
  }

  lemma StartIsSound(humans: set<nat>, bots: set<nat>)
    ensures Sound(START, humans, bots)
  {
  }

  /** One rematch, agreed by all: over any interleaving of any pods' requests, with caches evicted and reloaded at will,
      the link is written at most once and never changes; every request that was answered got the linked game, which
      exists; and the link is only ever set after one merge produced an offer with every occupied human seat, each of
      whom had asked. */
  lemma OneRematchLaw(steps: seq<Step>, more: seq<Step>, humans: set<nat>, bots: set<nat>)
    requires humans !! bots
    ensures var s := Run(steps, humans, bots);
      && s.writes <= 1
      && (forall call | call in s.calls && s.calls[call].1.Answered? :: s.row.link == Some(s.calls[call].1.winner))
      && (s.row.link.Some? ==>
            && s.row.link.value in s.games
            && (exists k :: 0 <= k < |s.merges| && humans <= s.merges[k])
            && humans <= s.asked)
    ensures Run(steps, humans, bots).row.link.Some? ==>
      Run(steps + more, humans, bots).row.link == Run(steps, humans, bots).row.link
  {
    SoundLaw(steps, humans, bots);
    LinkStays(steps, more, humans, bots);
    hide Run, Next;
    var s := Run(steps, humans, bots);
    if s.row.link.Some? {
      var k :| 0 <= k < |s.merges| && humans <= s.merges[k];
      assert s.merges[k] <= bots + s.asked;
    }
    forall call | call in s.calls && s.calls[call].1.Answered?
      ensures s.row.link == Some(s.calls[call].1.winner)
    {
      assert PhaseSound(s, s.calls[call].1, humans);
    }
  }

  /** The same for a hosted game's own seats: whatever its pods do, a linked rematch exists, and every seat that a person
      holds had asked for it. */
  lemma RecordRematchLaw(r: Record, steps: seq<Step>, i: nat)
    requires i < |r.seats| && r.seats[i].occupied && !r.seats[i].isBot
    ensures var s := Run(steps, HumanSeats(r.seats), BotSeats(r.seats));
      s.row.link.Some? ==> s.row.link.value in s.games && i in s.asked
  {
    hide Run;
    OneRematchLaw(steps, [], HumanSeats(r.seats), BotSeats(r.seats));
    assert i in HumanSeats(r.seats);
  }

  lemma {:induction false} LinkStays(steps: seq<Step>, more: seq<Step>, humans: set<nat>, bots: set<nat>)
    ensures Run(steps, humans, bots).row.link.Some? ==>
      Run(steps + more, humans, bots).row.link == Run(steps, humans, bots).row.link
  {
    hide Next;
    if more == [] {
      assert steps + more == steps;
    } else {
      var n := |more| - 1;
      LinkStays(steps, more[..n], humans, bots);
      SoundLaw(steps + more[..n], humans, bots);
      assert (steps + more)[..|steps + more| - 1] == steps + more[..n];
      StepKeepsSound(Run(steps + more[..n], humans, bots), more[n], humans, bots);
    }
  }

  // ---- Withdrawn acceptances ----

  /** The k-th step of the run merges the acceptance of this seat. */
  predicate Merges(steps: seq<Step>, k: nat, seat: nat, humans: set<nat>, bots: set<nat>)
    requires k < |steps|
  {
    steps[k].Merge? && AsksFor(Run(steps[..k], humans, bots), steps[k].merging, seat)
  }

  predicate AsksFor(s: State, call: CallId, seat: nat) {
    In(s, call, (p: Phase) => p.Asking?) && s.calls[call].1.seat == seat
  }

  /** The seat's last merge is the k-th step. */
  ghost predicate LastMerge(steps: seq<Step>, k: nat, seat: nat, humans: set<nat>, bots: set<nat>) {
    k < |steps| && Merges(steps, k, seat, humans, bots)
    && forall l: nat | k < l < |steps| :: !Merges(steps, l, seat, humans, bots)
  }

  /** No clearing of the offer comes after the k-th step. */
  predicate NotClearedSince(steps: seq<Step>, k: nat) {
    forall l: nat | k < l < |steps| :: steps[l] != ClearOffer
  }

  /** The seat's last merge has not been cleared. */
  ghost predicate Standing(steps: seq<Step>, seat: nat, humans: set<nat>, bots: set<nat>) {
    exists k: nat :: LastMerge(steps, k, seat, humans, bots) && NotClearedSince(steps, k)
  }

  /** The seat withdrew and was not merged again. */
  ghost predicate LastWithdrew(steps: seq<Step>, seat: nat, humans: set<nat>, bots: set<nat>) {
    exists k: nat :: k < |steps| && steps[k] == Withdraw(seat)
                     && forall l: nat | k < l < |steps| :: !Merges(steps, l, seat, humans, bots)
  }

  /** The seat's last withdrawal came after its last merge, and the offer was not cleared since that merge. */
  ghost predicate Overtaken(steps: seq<Step>, seat: nat, humans: set<nat>, bots: set<nat>) {
    exists k: nat, l: nat :: LastMerge(steps, k, seat, humans, bots) && NotClearedSince(steps, k)
                             && k < l < |steps| && steps[l] == Withdraw(seat)
  }

  lemma MergesInPrefix(steps: seq<Step>, n: nat, k: nat, seat: nat, humans: set<nat>, bots: set<nat>)
    requires k < n <= |steps|
    ensures Merges(steps[..n], k, seat, humans, bots) == Merges(steps, k, seat, humans, bots)
  {
    assert steps[..n][..k] == steps[..k];
  }

  lemma StandingStep(steps: seq<Step>, seat: nat, humans: set<nat>, bots: set<nat>)
    requires steps != []
    ensures var n: nat := |steps| - 1;
      Standing(steps, seat, humans, bots)
      <==> Merges(steps, n, seat, humans, bots) || (Standing(steps[..n], seat, humans, bots) && steps[n] != ClearOffer)
  {
    hide Merges;
    var n: nat := |steps| - 1;
    forall k: nat | k < n
      ensures Merges(steps[..n], k, seat, humans, bots) == Merges(steps, k, seat, humans, bots)
    {
      MergesInPrefix(steps, n, k, seat, humans, bots);
    }
    if Merges(steps, n, seat, humans, bots) {
      assert LastMerge(steps, n, seat, humans, bots) && NotClearedSince(steps, n);
    } else {
      if k: nat :| LastMerge(steps, k, seat, humans, bots) && NotClearedSince(steps, k) {
        assert LastMerge(steps[..n], k, seat, humans, bots) && NotClearedSince(steps[..n], k);
      }
      if k: nat :| LastMerge(steps[..n], k, seat, humans, bots) && NotClearedSince(steps[..n], k) && steps[n] != ClearOffer {
        assert LastMerge(steps, k, seat, humans, bots) && NotClearedSince(steps, k);
      }
    }
  }

  lemma WithdrewStep(steps: seq<Step>, seat: nat, humans: set<nat>, bots: set<nat>)
    requires steps != []
    ensures var n: nat := |steps| - 1;
      LastWithdrew(steps, seat, humans, bots)
      <==> steps[n] == Withdraw(seat) || (LastWithdrew(steps[..n], seat, humans, bots) && !Merges(steps, n, seat, humans, bots))
  {
    hide Merges;
    var n: nat := |steps| - 1;
    forall k: nat | k < n
      ensures Merges(steps[..n], k, seat, humans, bots) == Merges(steps, k, seat, humans, bots)
    {
      MergesInPrefix(steps, n, k, seat, humans, bots);
    }
    if k: nat :| k < n && steps[k] == Withdraw(seat) && forall l: nat | k < l < n :: !Merges(steps[..n], l, seat, humans, bots) {
      assert steps[..n][k] == Withdraw(seat);
    }
  }

  /** What the row and the seats' last words are, read off the steps of the run. */
  lemma {:induction false} OfferReadsRun(steps: seq<Step>, seat: nat, humans: set<nat>, bots: set<nat>)
    requires seat !in bots
    ensures var s := Run(steps, humans, bots);
      && (s.row.offer.Some? && seat in s.row.offer.value <==> Standing(steps, seat, humans, bots))
      && (seat in s.withdrawn <==> LastWithdrew(steps, seat, humans, bots))
  {
    if steps != [] {
      hide Standing, LastWithdrew;
      var n: nat := |steps| - 1;
      OfferReadsRun(steps[..n], seat, humans, bots);
      StandingStep(steps, seat, humans, bots);
      WithdrewStep(steps, seat, humans, bots);
      assert steps[..n] == steps[..|steps| - 1];
    }
  }

  lemma OvertakenIff(steps: seq<Step>, seat: nat, humans: set<nat>, bots: set<nat>)
    ensures Overtaken(steps, seat, humans, bots) <==> Standing(steps, seat, humans, bots) && LastWithdrew(steps, seat, humans, bots)
  {
    hide Merges;
    if Standing(steps, seat, humans, bots) && LastWithdrew(steps, seat, humans, bots) {
      var k: nat :| LastMerge(steps, k, seat, humans, bots) && NotClearedSince(steps, k);
      var l: nat :| l < |steps| && steps[l] == Withdraw(seat) && forall m: nat | l < m < |steps| :: !Merges(steps, m, seat, humans, bots);
      WithdrawalIsNoMerge(steps, l, seat, humans, bots);
      assert k < l;
    }
  }

  lemma WithdrawalIsNoMerge(steps: seq<Step>, l: nat, seat: nat, humans: set<nat>, bots: set<nat>)
    requires l < |steps| && steps[l] == Withdraw(seat)
    ensures !Merges(steps, l, seat, humans, bots)
  {
  }

  /** Exactly when a merge counts a withdrawn seat, after any run: another seat's merge, and the withdrawn seat's last
      withdrawal came after its last merge with no clearing of the offer since that merge. */
  lemma WithdrawnCountsIff(steps: seq<Step>, call: CallId, merging: nat, seat: nat, humans: set<nat>, bots: set<nat>)
    requires humans !! bots && seat in humans && AsksFor(Run(steps, humans, bots), call, merging)
    ensures var u := Next(Run(steps, humans, bots), Merge(call), humans, bots);
      u.row.offer.Some? && u.row.offer.value == u.merges[|u.merges| - 1]
      && (seat in u.row.offer.value && seat in u.withdrawn <==> seat != merging && Overtaken(steps, seat, humans, bots))
  {
    hide Run, Standing, LastWithdrew, Overtaken;
    OfferReadsRun(steps, seat, humans, bots);
    OvertakenIff(steps, seat, humans, bots);
  }

  /** The withdrawal at position k is directly followed by the clearing of the offer. */
  predicate ClearedNext(steps: seq<Step>, k: nat) {
    var next := k + 1;
    next < |steps| && steps[next] == ClearOffer
  }

  /** When nothing comes between a withdrawal and its clearing of the row, no merge counts a withdrawn seat. */
  lemma PromptWithdrawalsHold(steps: seq<Step>, call: CallId, merging: nat, humans: set<nat>, bots: set<nat>)
    requires humans !! bots && AsksFor(Run(steps, humans, bots), call, merging)
    requires forall k: nat | k < |steps| && steps[k].Withdraw? :: ClearedNext(steps, k)
    ensures var u := Next(Run(steps, humans, bots), Merge(call), humans, bots);
      u.row.offer.Some? && u.row.offer.value * u.withdrawn * humans == {}
  {
    hide Run, LastMerge;
    var u := Next(Run(steps, humans, bots), Merge(call), humans, bots);
    forall seat | seat in humans
      ensures !(seat in u.row.offer.value && seat in u.withdrawn)
    {
      WithdrawnCountsIff(steps, call, merging, seat, humans, bots);
    }
  }

  /** Asking is not binding, but withdrawing may come too late: the decline clears the pod's memory first and the row
      afterwards, and a merge in between still counts the withdrawn seat. */
  const OVERTAKEN: seq<Step> := [
    Ask(0, "p", 0), Merge(0), Withdraw(0), Ask(1, "q", 1), Merge(1), Decide(1), Save(1, "g"), Link(1), ClearOffer]

  lemma RunStep(steps: seq<Step>, n: nat, humans: set<nat>, bots: set<nat>)
    requires n < |steps|
    ensures Run(steps[..n + 1], humans, bots) == Next(Run(steps[..n], humans, bots), steps[n], humans, bots)
  {
    assert steps[..n + 1][..n] == steps[..n];
  }

  /** After the first four steps: seat 0's acceptance is in the row, seat 0 has withdrawn, seat 1 is asking. */
  const MIDWAY := State(
    Row(Some({0}), None), {}, map[], map[0 := ("p", Counted(0, {0})), 1 := ("q", Asking(1))], {0}, [{0}], 0, {0})

  lemma ReachMidway()
    ensures Run(OVERTAKEN[..4], {0, 1}, {}) == MIDWAY
  {
    var humans, bots: set<nat> := {0, 1}, {};
    RunStep(OVERTAKEN, 0, humans, bots);
    RunStep(OVERTAKEN, 1, humans, bots);
    RunStep(OVERTAKEN, 2, humans, bots);
    RunStep(OVERTAKEN, 3, humans, bots);
    hide Run;
    assert OVERTAKEN[..0] == [];
    assert Merged(None, bots, 0) == {0};
    var s1 := Next(START, OVERTAKEN[0], humans, bots);
    assert s1.calls == map[0 := ("p", Asking(0))];
    var s2 := Next(s1, OVERTAKEN[1], humans, bots);
    assert s2 == State(Row(Some({0}), None), {}, map[], map[0 := ("p", Counted(0, {0}))], {0}, [{0}], 0, {});
  }

  /** Three steps later seat 1's request has counted both seats and saved the new game. */
  const ONE_STEP_AWAY := State(
    Row(Some({0, 1}), None), {"g"}, map[], map[0 := ("p", Counted(0, {0})), 1 := ("q", Saved("g"))],
    {0, 1}, [{0}, {0, 1}], 0, {0})

  lemma ReachOneStepAway()
    ensures Run(OVERTAKEN[..7], {0, 1}, {}) == ONE_STEP_AWAY
  {
    var humans, bots: set<nat> := {0, 1}, {};
    ReachMidway();
    RunStep(OVERTAKEN, 4, humans, bots);
    RunStep(OVERTAKEN, 5, humans, bots);
    RunStep(OVERTAKEN, 6, humans, bots);
    hide Run;
    assert Merged(Some({0}), bots, 1) == {0, 1};
    var s5 := Next(MIDWAY, Merge(1), humans, bots);
    assert s5 == MIDWAY.(row := Row(Some({0, 1}), None), asked := {0, 1}, merges := [{0}, {0, 1}],
                         calls := map[0 := ("p", Counted(0, {0})), 1 := ("q", Counted(1, {0, 1}))]);
    var s6 := Next(s5, Decide(1), humans, bots);
    assert s6.calls == map[0 := ("p", Counted(0, {0})), 1 := ("q", Unanimous)];
  }

  lemma WithdrawnSeatStillCounts()
    ensures var s := Run(OVERTAKEN, {0, 1}, {});
      s.row.link == Some("g") && 0 in s.withdrawn
  {
    var humans, bots: set<nat> := {0, 1}, {};
    ReachOneStepAway();
    RunStep(OVERTAKEN, 7, humans, bots);
    RunStep(OVERTAKEN, 8, humans, bots);
    hide Run;
    assert OVERTAKEN[..9] == OVERTAKEN;
  }
}
