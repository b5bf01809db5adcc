/** The matchmaking queue and the tick's transaction: rows are locked when read, skipped by overlapping ticks, and
    moved into seats of new games in one commit. */
module Matchmaking {
  import opened Wrappers
  import opened Matcher

  type GameId = string
  type TickId = nat

  /** A queue row; `id` tells enqueuings apart and is not a column. */
  datatype Ticket = Ticket(id: nat, players: nat, mode: string, rating: int, enqueuedAt: int)

  /** A seat made by the matcher. Its index is its position in the game, its colour that plus one. */
  datatype Seat = Seat(user: UserId, ticket: nat)

  datatype Db = Db(queue: map<UserId, Ticket>, games: map<GameId, seq<Seat>>)

  const BATCH_SIZE: nat := 100

  function RowOf(db: Db, user: UserId): QueuedUser
    requires user in db.queue
  {
    var t := db.queue[user];
    QueuedUser(user, t.id, t.rating, t.enqueuedAt)
  }

  /** The pairing function of a tick, by room size. */
  function GroupsOf(queued: seq<QueuedUser>, players: nat, now: int): seq<seq<QueuedUser>> {
    if players == 2 then Pair1v1(queued, now) else PairMulti(queued, players, now)
  }

  function UsersOf(group: seq<QueuedUser>): set<UserId> {
    set k | 0 <= k < |group| :: group[k].user
  }

  function SeatsOf(group: seq<QueuedUser>): seq<Seat> {
    seq(|group|, k requires 0 <= k < |group| => Seat(group[k].user, group[k].ticket))
  }

  predicate WellFormed(group: seq<QueuedUser>, players: nat) {
    2 <= |group| <= players
  }

  /** One group: a game with a seat for each member, and their queue rows gone. Malformed groups are dropped. */
  function SeatGroup(db: Db, group: seq<QueuedUser>, id: GameId, players: nat): Db {
    if WellFormed(group, players) then Db(db.queue - UsersOf(group), db.games[id := SeatsOf(group)]) else db
  }

  function SeatAll(db: Db, groups: seq<seq<QueuedUser>>, ids: seq<GameId>, players: nat): Db
    requires |ids| == |groups|
  {
    if groups == [] then db
    else
      var n := |groups| - 1;
      SeatGroup(SeatAll(db, groups[..n], ids[..n], players), groups[n], ids[n], players)
  }

  /** New random ids: distinct and unused. */
  predicate Unused(db: Db, ids: seq<GameId>) {
    && (forall i | 0 <= i < |ids| :: ids[i] !in db.games)
    && (forall i, j | 0 <= i < j < |ids| :: ids[i] != ids[j])
  }

  // ---- The transaction's loops ----

  class MatchDb {
    var queue: map<UserId, Ticket>
    var games: map<GameId, seq<Seat>>

    constructor ()
      ensures Now() == Db(map[], map[])
    {
      queue, games := map[], map[];
    }

    function Now(): Db
      reads this
    {
      Db(queue, games)
    }

    /** The part of the transaction after the rows are locked; `fails` is an error or lost commit, which rolls back. */
    method MatchmakeTick(queued: seq<QueuedUser>, players: nat, now: int, ids: seq<GameId>, fails: bool)
      returns (seats: Result<seq<(UserId, GameId)>, ()>)
      requires |ids| == |GroupsOf(queued, players, now)|
      modifies this
      ensures Now() == if fails then old(Now()) else SeatAll(old(Now()), GroupsOf(queued, players, now), ids, players)
      ensures seats.Err? <==> fails
      ensures seats.Ok? ==> seats.value == Announced(GroupsOf(queued, players, now), ids, players)
    {
      var groups := GroupsOf(queued, players, now);
      ghost var before := Now();
      var made: seq<(UserId, GameId)> := [];
      var newQueue, newGames := queue, games;
      var n := 0;
      while n < |groups|
        invariant n <= |groups|
        invariant Db(newQueue, newGames) == SeatAll(before, groups[..n], ids[..n], players)
        invariant made == Announced(groups[..n], ids[..n], players)
      {
        assert groups[..n + 1][..n] == groups[..n] && ids[..n + 1][..n] == ids[..n];
        var group := groups[n];
        if 2 <= |group| <= players {
          newGames := newGames[ids[n] := SeatsOf(group)];
          newQueue := newQueue - UsersOf(group);
          made := made + seq(|group|, k requires 0 <= k < |group| => (group[k].user, ids[n]));
        }
        n := n + 1;
      }
      assert groups[..n] == groups && ids[..n] == ids;
      if fails {
        return Err(());
      }
      queue, games := newQueue, newGames;
      return Ok(made);
    }
  }

  /** Who is told to go where. */
  function Announced(groups: seq<seq<QueuedUser>>, ids: seq<GameId>, players: nat): seq<(UserId, GameId)>
    requires |ids| == |groups|
  {
    if groups == [] then []
    else
      var n := |groups| - 1;
      var group := groups[n];
      Announced(groups[..n], ids[..n], players)
      + if WellFormed(group, players) then seq(|group|, k requires 0 <= k < |group| => (group[k].user, ids[n])) else []
  }

  // ---- The groups of a tick ----

  predicate DistinctUsers(queued: seq<QueuedUser>) {
    forall i, j | 0 <= i < j < |queued| :: queued[i].user != queued[j].user
  }

  /** The groups are made of members of the queue, in no two places. */
  ghost predicate Split(groups: seq<seq<QueuedUser>>, queued: seq<QueuedUser>) {
    && (forall k, x | 0 <= k < |groups| && 0 <= x < |groups[k]| :: groups[k][x] in queued)
    && (forall k | 0 <= k < |groups| :: DistinctUsers(groups[k]))
    && (forall k, l | 0 <= k < l < |groups| :: UsersOf(groups[k]) !! UsersOf(groups[l]))
  }

  lemma UsersOfPair(a: QueuedUser, b: QueuedUser)
    ensures UsersOf([a, b]) == {a.user, b.user}
  {
    assert [a, b][0] == a && [a, b][1] == b;
  }

  lemma PairsSplit(qs: seq<QueuedUser>, now: int)
    requires DistinctUsers(qs)
    ensures Split(Pair1v1(qs, now), qs)
  {
    MatchingLaw(qs, now);
    hide PairsAfter, Within, EachClosest, AllWithin;
    var pairs, groups := PairsAfter(qs, now, |qs|), Pair1v1(qs, now);
    forall k, l | 0 <= k < l < |groups|
      ensures UsersOf(groups[k]) !! UsersOf(groups[l])
    {
      assert pairs[..l][k] == pairs[k];
      assert Taken(pairs[..l], pairs[k].0) && Taken(pairs[..l], pairs[k].1);
      UsersOfPair(qs[pairs[k].0], qs[pairs[k].1]);
      UsersOfPair(qs[pairs[l].0], qs[pairs[l].1]);
    }
  }

  /** Every group a tick can form is well formed, and no user is in two of them. */
  lemma GroupsSplit(queued: seq<QueuedUser>, players: nat, now: int)
    requires DistinctUsers(queued) && 2 <= players
    ensures Split(GroupsOf(queued, players, now), queued)
    ensures forall k | 0 <= k < |GroupsOf(queued, players, now)| :: WellFormed(GroupsOf(queued, players, now)[k], players)
  {
    if players == 2 {
      PairsSplit(queued, now);
      hide PairsAfter;
    }
  }

  predicate InSomeGroup(groups: seq<seq<QueuedUser>>, a: QueuedUser) {
    exists k :: 0 <= k < |groups| && a in groups[k]
  }

  /** A tick of a two-player bucket makes pairs within band and leaves no two users behind who are within band of each other;
      a tick of a larger bucket makes at most one room, of the longest-waiting users, and a full one when it can. */
  lemma GroupsLaw(queued: seq<QueuedUser>, players: nat, now: int)
    requires 2 <= players && DistinctUsers(queued)
    ensures var groups := GroupsOf(queued, players, now);
      if players == 2 then
        && (forall k | 0 <= k < |groups| :: |groups[k]| == 2 && Within(groups[k][0], groups[k][1], now))
        && (forall a, b | a in queued && b in queued && a != b && !InSomeGroup(groups, a) && !InSomeGroup(groups, b) :: !Within(a, b, now))
      else
        && |groups| <= 1 && (forall k | 0 <= k < |groups| :: groups[k] <= queued)
        && (|queued| >= players ==> groups == [queued[..players]])
        && (|queued| < players ==> (groups != [] <==> |queued| >= 3 && now - queued[0].enqueuedAt >= MultiWaitThreshold(|queued|)))
  {
    if players == 2 {
      PairsLaw(queued, now);
    }
    hide Pair1v1, InSomeGroup, Within;
  }

  lemma PairsLaw(qs: seq<QueuedUser>, now: int)
    requires DistinctUsers(qs)
    ensures var groups := Pair1v1(qs, now);
      && (forall k | 0 <= k < |groups| :: |groups[k]| == 2 && Within(groups[k][0], groups[k][1], now))
      && (forall a, b | a in qs && b in qs && a != b && !InSomeGroup(groups, a) && !InSomeGroup(groups, b) :: !Within(a, b, now))
  {
    MatchingLaw(qs, now);
    hide PairsAfter, Within, EachClosest;
    var pairs, groups := PairsAfter(qs, now, |qs|), Pair1v1(qs, now);
    forall a, b | a in qs && b in qs && a != b && !InSomeGroup(groups, a) && !InSomeGroup(groups, b)
      ensures !Within(a, b, now)
    {
      var i, j :| 0 <= i < |qs| && qs[i] == a && 0 <= j < |qs| && qs[j] == b;
      assert !Taken(pairs, i) && !Taken(pairs, j) by {
        if Taken(pairs, i) {
          TakenIsGrouped(qs, pairs, groups, i);
        }
        if Taken(pairs, j) {
          TakenIsGrouped(qs, pairs, groups, j);
        }
      }
      WithinIsSymmetric(a, b, now);
    }
  }

  lemma TakenIsGrouped(qs: seq<QueuedUser>, pairs: Pairs, groups: seq<seq<QueuedUser>>, i: nat)
    requires InQueue(pairs, |qs|) && groups == Users(qs, pairs) && i < |qs| && Taken(pairs, i)
    ensures InSomeGroup(groups, qs[i])
  {
    var k :| 0 <= k < |pairs| && (i == pairs[k].0 || i == pairs[k].1);
    assert groups[k] == [qs[pairs[k].0], qs[pairs[k].1]];
    assert qs[i] == groups[k][0] || qs[i] == groups[k][1];
  }

  // ---- Ticks, enqueuings and cancellations interleaved ----

  /** `issued` counts enqueuings, `void` holds the tickets cancelled or replaced, `open` the rows each running
      transaction has locked. `enqueuer` says who enqueued each ticket. */
  datatype State = State(db: Db, issued: nat, void: set<nat>, open: map<TickId, seq<QueuedUser>>, enqueuer: map<nat, UserId>)

  datatype Step =
    | Enqueue(user: UserId, players: nat, mode: string, rating: int, at: int)
    | Cancel(quitter: UserId)
    | Begin(tick: TickId, size: nat, kind: string, rows: seq<QueuedUser>)
    | Commit(done: TickId, room: nat, now: int, ids: seq<GameId>)
    | Rollback(failed: TickId)

  const START := State(Db(map[], map[]), 0, {}, map[], map[])

  predicate Locked(s: State, user: UserId) {
    exists t :: t in s.open && user in UsersOf(s.open[t])
  }

  /** What the locking query may return: the oldest unlocked rows of the bucket, up to the batch size. */
  predicate Selects(s: State, players: nat, mode: string, rows: seq<QueuedUser>) {
    && |rows| <= BATCH_SIZE
    && DistinctUsers(rows)
    && (forall k | 0 <= k < |rows| ::
          && rows[k].user in s.db.queue && rows[k] == RowOf(s.db, rows[k].user) && !Locked(s, rows[k].user)
          && s.db.queue[rows[k].user].players == players && s.db.queue[rows[k].user].mode == mode)
    && (forall k, l | 0 <= k < l < |rows| :: rows[k].enqueuedAt <= rows[l].enqueuedAt)
    && (forall u | u in s.db.queue && s.db.queue[u].players == players && s.db.queue[u].mode == mode && !Locked(s, u) ::
          u in UsersOf(rows) || (|rows| == BATCH_SIZE && rows[|rows| - 1].enqueuedAt <= s.db.queue[u].enqueuedAt))
  }

  function Voided(s: State, user: UserId): set<nat> {
    if user in s.db.queue then s.void + {s.db.queue[user].id} else s.void
  }

  /** One step; a write to a locked row waits, a query result the database could not give does not happen. */
  function Next(s: State, step: Step): State {
    match step
    case Enqueue(user, players, mode, rating, at) =>
      if Locked(s, user) then s
      else State(s.db.(queue := s.db.queue[user := Ticket(s.issued, players, mode, rating, at)]),
                 s.issued + 1, Voided(s, user), s.open, s.enqueuer[s.issued := user])
    case Cancel(user) =>
      if Locked(s, user) then s else s.(db := s.db.(queue := s.db.queue - {user}), void := Voided(s, user))
    case Begin(tick, players, mode, rows) =>
      if tick !in s.open && Selects(s, players, mode, rows) then s.(open := s.open[tick := rows]) else s
    case Commit(tick, players, now, ids) =>
      if tick in s.open && 2 <= players && |ids| == |GroupsOf(s.open[tick], players, now)| && Unused(s.db, ids)
      then s.(db := SeatAll(s.db, GroupsOf(s.open[tick], players, now), ids, players), open := s.open - {tick})
      else s
    case Rollback(tick) => s.(open := s.open - {tick})
  }

  function Run(steps: seq<Step>): State {
    if steps == [] then START else Next(Run(steps[..|steps| - 1]), steps[|steps| - 1])
  }

  // ---- Conservation ----

  ghost predicate Queued(db: Db, ticket: nat) {
    exists u :: u in db.queue && db.queue[u].id == ticket
  }

  predicate SeatedAt(db: Db, ticket: nat, id: GameId, k: nat) {
    id in db.games && k < |db.games[id]| && db.games[id][k].ticket == ticket
  }

  ghost predicate Seated(db: Db, ticket: nat) {
    exists id: GameId, k: nat :: SeatedAt(db, ticket, id, k)
  }

  /** Every ticket is in exactly one place: queued once, seated once, or void. */
  ghost predicate Accounted(db: Db, issued: nat, void: set<nat>) {
    && (forall t: nat :: t < issued <==> Queued(db, t) || Seated(db, t) || t in void)
    && (forall t: nat :: !(Queued(db, t) && Seated(db, t)) && !(Queued(db, t) && t in void) && !(Seated(db, t) && t in void))
    && (forall u, v :: u in db.queue && v in db.queue && db.queue[u].id == db.queue[v].id ==> u == v)
    && (forall t: nat, a: GameId, k: nat, b: GameId, l: nat :: SeatedAt(db, t, a, k) && SeatedAt(db, t, b, l) ==> a == b && k == l)
  }

  /** Running ticks hold rows that are still queued as they were read, no two ticks the same row. */
  ghost predicate LocksHold(s: State) {
    && (forall t | t in s.open :: DistinctUsers(s.open[t]) && Holds(s.db, s.open[t]))
    && (forall t, u | t in s.open && u in s.open && t != u :: UsersOf(s.open[t]) !! UsersOf(s.open[u]))
  }

  predicate Holds(db: Db, rows: seq<QueuedUser>) {
    forall k | 0 <= k < |rows| :: rows[k].user in db.queue && rows[k] == RowOf(db, rows[k].user)
  }

  lemma SeatGroupAccounts(db: Db, issued: nat, void: set<nat>, group: seq<QueuedUser>, id: GameId, players: nat)
    requires Accounted(db, issued, void) && id !in db.games && Holds(db, group) && DistinctUsers(group)
    ensures Accounted(SeatGroup(db, group, id, players), issued, void)
  {
    if WellFormed(group, players) {
      var next := SeatGroup(db, group, id, players);
      forall t: nat
        ensures Queued(next, t) <==> Queued(db, t) && !(exists k: nat :: k < |group| && group[k].ticket == t)
        ensures Seated(next, t) <==> Seated(db, t) || (exists k: nat :: k < |group| && group[k].ticket == t)
      {
        QueuedAfter(db, group, id, players, t);
        SeatedAfter(db, group, id, players, t);
      }
      forall t: nat, a: GameId, k: nat, b: GameId, l: nat | SeatedAt(next, t, a, k) && SeatedAt(next, t, b, l)
        ensures a == b && k == l
      {
        SeatedOnceAfter(db, issued, void, group, id, players, t, a, k, b, l);
      }
      forall t: nat | exists k: nat :: k < |group| && group[k].ticket == t
        ensures Queued(db, t)
      {
      }
    }
  }

  lemma QueuedAfter(db: Db, group: seq<QueuedUser>, id: GameId, players: nat, t: nat)
    requires Holds(db, group) && DistinctUsers(group) && WellFormed(group, players)
    requires forall u, v :: u in db.queue && v in db.queue && db.queue[u].id == db.queue[v].id ==> u == v
    ensures Queued(SeatGroup(db, group, id, players), t)
      <==> Queued(db, t) && !(exists k: nat :: k < |group| && group[k].ticket == t)
  {
    var next := SeatGroup(db, group, id, players);
    if u :| u in db.queue && db.queue[u].id == t {
      if u in UsersOf(group) {
        var k :| 0 <= k < |group| && group[k].user == u;
        assert group[k].ticket == t;
      } else {
        assert u in next.queue;
        forall k: nat | k < |group|
          ensures group[k].ticket != t
        {
          assert group[k].user in UsersOf(group);
        }
      }
    }
  }

  lemma SeatedAfter(db: Db, group: seq<QueuedUser>, id: GameId, players: nat, t: nat)
    requires id !in db.games && WellFormed(group, players)
    ensures Seated(SeatGroup(db, group, id, players), t)
      <==> Seated(db, t) || (exists k: nat :: k < |group| && group[k].ticket == t)
  {
    var next := SeatGroup(db, group, id, players);
    if a: GameId, k: nat :| SeatedAt(db, t, a, k) {
      assert SeatedAt(next, t, a, k);
    }
    if k: nat :| k < |group| && group[k].ticket == t {
      assert SeatedAt(next, t, id, k);
    }
    if a: GameId, k: nat :| SeatedAt(next, t, a, k) {
      assert a != id ==> SeatedAt(db, t, a, k);
      assert a == id ==> group[k].ticket == t;
    }
  }

  lemma SeatedOnceAfter(db: Db, issued: nat, void: set<nat>, group: seq<QueuedUser>, id: GameId, players: nat,
                        t: nat, a: GameId, k: nat, b: GameId, l: nat)
    requires Accounted(db, issued, void) && id !in db.games && Holds(db, group) && DistinctUsers(group) && WellFormed(group, players)
    requires SeatedAt(SeatGroup(db, group, id, players), t, a, k) && SeatedAt(SeatGroup(db, group, id, players), t, b, l)
    ensures a == b && k == l
  {
    if a == id && b == id {
      assert group[k].ticket == group[l].ticket == t;
      assert db.queue[group[k].user].id == db.queue[group[l].user].id;
    } else if a == id {
      assert SeatedAt(db, t, b, l) && Queued(db, t);
    } else if b == id {
      assert SeatedAt(db, t, a, k) && Queued(db, t);
    } else {
      assert SeatedAt(db, t, a, k) && SeatedAt(db, t, b, l);
    }
  }

  /** The rows of a tick's other groups, and of other ticks, are still there after a group is seated. */
  lemma SeatGroupKeepsOthers(db: Db, group: seq<QueuedUser>, id: GameId, players: nat, rows: seq<QueuedUser>)
    requires Holds(db, rows) && UsersOf(rows) !! UsersOf(group)
    ensures Holds(SeatGroup(db, group, id, players), rows)
  {
    forall k | 0 <= k < |rows|
      ensures rows[k].user !in UsersOf(group)
    {
      assert rows[k].user in UsersOf(rows);
    }
  }

  lemma {:induction false} SeatAllKeepsOthers(db: Db, groups: seq<seq<QueuedUser>>, ids: seq<GameId>, players: nat, rows: seq<QueuedUser>)
    requires |ids| == |groups| && Holds(db, rows)
    requires forall k | 0 <= k < |groups| :: UsersOf(rows) !! UsersOf(groups[k])
    ensures Holds(SeatAll(db, groups, ids, players), rows)
  {
    if groups != [] {
      hide UsersOf, Holds;
      var n := |groups| - 1;
      assert forall k | 0 <= k < n :: groups[..n][k] == groups[k];
      SeatAllKeepsOthers(db, groups[..n], ids[..n], players, rows);
      SeatGroupKeepsOthers(SeatAll(db, groups[..n], ids[..n], players), groups[n], ids[n], players, rows);
    }
  }

  lemma {:induction false} SeatAllGames(db: Db, groups: seq<seq<QueuedUser>>, ids: seq<GameId>, players: nat, id: GameId)
    requires |ids| == |groups| && id !in db.games && id !in ids
    ensures id !in SeatAll(db, groups, ids, players).games
  {
    if groups != [] {
      var n := |groups| - 1;
      SeatAllGames(db, groups[..n], ids[..n], players, id);
    }
  }

  lemma {:induction false} SeatAllAccounts(db: Db, issued: nat, void: set<nat>, groups: seq<seq<QueuedUser>>,
                                            ids: seq<GameId>, players: nat)
    requires Accounted(db, issued, void) && |ids| == |groups| && Unused(db, ids)
    requires forall k | 0 <= k < |groups| :: Holds(db, groups[k]) && DistinctUsers(groups[k])
    requires forall k, l | 0 <= k < l < |groups| :: UsersOf(groups[k]) !! UsersOf(groups[l])
    ensures Accounted(SeatAll(db, groups, ids, players), issued, void)
  {
    if groups != [] {
      hide Accounted, UsersOf, Holds, DistinctUsers;
      var n := |groups| - 1;
      assert forall k | 0 <= k < n :: groups[..n][k] == groups[k] && ids[..n][k] == ids[k];
      SeatAllAccounts(db, issued, void, groups[..n], ids[..n], players);
      SeatAllGames(db, groups[..n], ids[..n], players, ids[n]);
      assert UsersOf(groups[n]) * {} == {};
      forall k | 0 <= k < n
        ensures UsersOf(groups[n]) !! UsersOf(groups[..n][k])
      {
        assert UsersOf(groups[k]) !! UsersOf(groups[n]);
      }
      SeatAllKeepsOthers(db, groups[..n], ids[..n], players, groups[n]);
      SeatGroupAccounts(SeatAll(db, groups[..n], ids[..n], players), issued, void, groups[n], ids[n], players);
    }
  }

  ghost predicate Sound(s: State) {
    Accounted(s.db, s.issued, s.void) && LocksHold(s)
  }

  /** The users of a tick's groups are among the rows it locked. */
  lemma GroupsHold(db: Db, rows: seq<QueuedUser>, groups: seq<seq<QueuedUser>>, k: nat)
    requires Holds(db, rows) && Split(groups, rows) && k < |groups|
    ensures Holds(db, groups[k]) && UsersOf(groups[k]) <= UsersOf(rows)
  {
    forall x | 0 <= x < |groups[k]|
      ensures groups[k][x].user in db.queue && groups[k][x] == RowOf(db, groups[k][x].user) && groups[k][x].user in UsersOf(rows)
    {
      assert groups[k][x] in rows;
      var y :| 0 <= y < |rows| && rows[y] == groups[k][x];
      assert rows[y].user in db.queue;
    }
  }

  lemma CommitKeepsSound(s: State, tick: TickId, players: nat, now: int, ids: seq<GameId>)
    requires Sound(s) && tick in s.open && 2 <= players
    requires |ids| == |GroupsOf(s.open[tick], players, now)| && Unused(s.db, ids)
    ensures Sound(Next(s, Commit(tick, players, now, ids)))
  {
    hide GroupsOf, Accounted, DistinctUsers, Holds, UsersOf, SeatAll;
    var rows := s.open[tick];
    var groups := GroupsOf(rows, players, now);
    GroupsSplit(rows, players, now);
    forall k | 0 <= k < |groups|
      ensures Holds(s.db, groups[k]) && UsersOf(groups[k]) <= UsersOf(rows)
    {
      GroupsHold(s.db, rows, groups, k);
    }
    SeatAllAccounts(s.db, s.issued, s.void, groups, ids, players);
    forall t | t in s.open && t != tick
      ensures Holds(SeatAll(s.db, groups, ids, players), s.open[t])
    {
      assert UsersOf(s.open[t]) !! UsersOf(rows);
      SeatAllKeepsOthers(s.db, groups, ids, players, s.open[t]);
    }
  }

  lemma EnqueueAccounts(db: Db, issued: nat, void: set<nat>, user: UserId, ticket: Ticket)
    requires Accounted(db, issued, void) && ticket.id == issued
    ensures Accounted(db.(queue := db.queue[user := ticket]), issued + 1, if user in db.queue then void + {db.queue[user].id} else void)
  {
    var next := db.(queue := db.queue[user := ticket]);
    assert !Queued(db, issued) && !Seated(db, issued) && issued !in void;
    forall t: nat
      ensures Queued(next, t) <==> t == issued || (Queued(db, t) && !(user in db.queue && db.queue[user].id == t))
      ensures Seated(next, t) <==> Seated(db, t)
    {
      assert t == issued ==> user in next.queue && next.queue[user].id == t;
      if u :| u in db.queue && db.queue[u].id == t && u != user {
        assert u in next.queue;
      }
      forall a: GameId, k: nat
        ensures SeatedAt(next, t, a, k) <==> SeatedAt(db, t, a, k)
      {
      }
    }
    forall u | u in db.queue
      ensures db.queue[u].id != issued
    {
      assert db.queue[u].id == issued ==> Queued(db, issued);
    }
    forall t: nat, a: GameId, k: nat
      ensures SeatedAt(next, t, a, k) <==> SeatedAt(db, t, a, k)
    {
    }
  }

  lemma CancelAccounts(db: Db, issued: nat, void: set<nat>, user: UserId)
    requires Accounted(db, issued, void)
    ensures Accounted(db.(queue := db.queue - {user}), issued, if user in db.queue then void + {db.queue[user].id} else void)
  {
    var next := db.(queue := db.queue - {user});
    forall t: nat
      ensures Queued(next, t) <==> Queued(db, t) && !(user in db.queue && db.queue[user].id == t)
      ensures Seated(next, t) <==> Seated(db, t)
    {
      if u :| u in db.queue && db.queue[u].id == t && u != user {
        assert u in next.queue;
      }
      forall a: GameId, k: nat
        ensures SeatedAt(next, t, a, k) <==> SeatedAt(db, t, a, k)
      {
      }
    }
    forall t: nat, a: GameId, k: nat
      ensures SeatedAt(next, t, a, k) <==> SeatedAt(db, t, a, k)
    {
    }
  }

  lemma UnlockedKeepsLocks(s: State, user: UserId, queue: map<UserId, Ticket>)
    requires LocksHold(s) && !Locked(s, user)
    requires forall u | u != user && u in s.db.queue :: u in queue && queue[u] == s.db.queue[u]
    ensures LocksHold(s.(db := s.db.(queue := queue)))
  {
    forall t, k | t in s.open && 0 <= k < |s.open[t]|
      ensures s.open[t][k].user != user
    {
      assert s.open[t][k].user in UsersOf(s.open[t]);
    }
  }

  lemma BeginKeepsLocks(s: State, tick: TickId, players: nat, mode: string, rows: seq<QueuedUser>)
    requires LocksHold(s) && tick !in s.open && Selects(s, players, mode, rows)
    ensures LocksHold(s.(open := s.open[tick := rows]))
  {
    forall t, u | t in s.open && u in UsersOf(rows)
      ensures u !in UsersOf(s.open[t])
    {
      assert !Locked(s, u);
    }
  }

  lemma StepKeepsSound(s: State, step: Step)
    requires Sound(s)
    ensures Sound(Next(s, step))
  {
    hide Accounted, LocksHold, Selects, SeatAll, GroupsOf, Locked;
    match step
    case Enqueue(user, players, mode, rating, at) =>
      if !Locked(s, user) {
        var ticket := Ticket(s.issued, players, mode, rating, at);
        EnqueueAccounts(s.db, s.issued, s.void, user, ticket);
        UnlockedKeepsLocks(s, user, s.db.queue[user := ticket]);
        LocksSame(s.(db := s.db.(queue := s.db.queue[user := ticket])), s.issued + 1, Voided(s, user), s.enqueuer[s.issued := user]);
      }
    case Cancel(user) =>
      if !Locked(s, user) {
        CancelAccounts(s.db, s.issued, s.void, user);
        UnlockedKeepsLocks(s, user, s.db.queue - {user});
        LocksSame(s.(db := s.db.(queue := s.db.queue - {user})), s.issued, Voided(s, user), s.enqueuer);
      }
    case Begin(tick, players, mode, rows) =>
      if tick !in s.open && Selects(s, players, mode, rows) {
        BeginKeepsLocks(s, tick, players, mode, rows);
      }
    case Commit(tick, players, now, ids) =>
      if tick in s.open && 2 <= players && |ids| == |GroupsOf(s.open[tick], players, now)| && Unused(s.db, ids) {
        CommitKeepsSound(s, tick, players, now, ids);
      }
    case Rollback(tick) =>
      RollbackKeepsLocks(s, tick);
  }

  lemma LocksSame(s: State, issued: nat, void: set<nat>, enqueuer: map<nat, UserId>)
    requires LocksHold(s)
    ensures LocksHold(s.(issued := issued, void := void, enqueuer := enqueuer))
  {
  }

  lemma RollbackKeepsLocks(s: State, tick: TickId)
    requires LocksHold(s)
    ensures LocksHold(s.(open := s.open - {tick}))
  {
  }

  /** In every interleaving of enqueuings, cancellations and overlapping ticks, committed or rolled back, every ticket
      is queued once, or sits on exactly one seat of one game, or was withdrawn, and never two of these. */
  lemma {:induction false} TicketLaw(steps: seq<Step>)
    ensures Sound(Run(steps))
  {
    hide Sound, Next;
    if steps == [] {
      StartIsSound();
    } else {
      TicketLaw(steps[..|steps| - 1]);
      StepKeepsSound(Run(steps[..|steps| - 1]), steps[|steps| - 1]);
    }
  }

  lemma StartIsSound()
    ensures Sound(START)
  {
  }

  // ---- What one tick does ----

  /** The users in some group. */
  function Matched(groups: seq<seq<QueuedUser>>): set<UserId> {
    set k, x | 0 <= k < |groups| && 0 <= x < |groups[k]| :: groups[k][x].user
  }

  function IdSet(ids: seq<GameId>): set<GameId> {
    set i | 0 <= i < |ids| :: ids[i]
  }

  /** From db to next, exactly the matched users left the queue, everybody else's ticket and every earlier game stayed,
      and each group got one new game in which member x has seat x. */
  ghost predicate Moved(db: Db, next: Db, groups: seq<seq<QueuedUser>>, ids: seq<GameId>)
    requires |ids| == |groups|
  {
    && next.queue == db.queue - Matched(groups)
    && next.games.Keys == db.games.Keys + IdSet(ids)
    && (forall id | id in db.games && id !in ids :: id in next.games && next.games[id] == db.games[id])
    && (forall i | 0 <= i < |ids| :: ids[i] in next.games && Seats(next.games[ids[i]], groups[i]))
  }

  /** Member k of the group, and nobody else, has seat k, by the ticket it was matched with. */
  predicate Seats(seats: seq<Seat>, group: seq<QueuedUser>) {
    |seats| == |group| && forall k | 0 <= k < |group| :: seats[k].user == group[k].user && seats[k].ticket == group[k].ticket
  }

  lemma SeatsAreMembers(group: seq<QueuedUser>)
    ensures Seats(SeatsOf(group), group)
  {
  }

  lemma MovedStep(db: Db, last: Db, groups: seq<seq<QueuedUser>>, ids: seq<GameId>, players: nat)
    requires groups != [] && |ids| == |groups| && Unused(db, ids) && WellFormed(groups[|ids| - 1], players)
    requires Moved(db, last, groups[..|ids| - 1], ids[..|ids| - 1])
    ensures Moved(db, SeatGroup(last, groups[|ids| - 1], ids[|ids| - 1], players), groups, ids)
  {
    hide SeatsOf, UsersOf, Matched, IdSet, Seats;
    var n := |ids| - 1;
    var next := SeatGroup(last, groups[n], ids[n], players);
    SeatsAreMembers(groups[n]);
    MatchedGrows(groups);
    IdsGrow(ids);
    assert next.queue == db.queue - Matched(groups);
    forall i | 0 <= i < |ids|
      ensures ids[i] in next.games && Seats(next.games[ids[i]], groups[i])
    {
      if i < n {
        assert ids[..n][i] == ids[i] != ids[n] && groups[..n][i] == groups[i];
      }
    }
    forall id | id in db.games && id !in ids
      ensures id in next.games && next.games[id] == db.games[id]
    {
      assert id !in ids[..n] && id != ids[n];
    }
  }

  /** A commit moves exactly the matched users from the queue to seats of new games of 2 to `players` seats. */
  lemma {:induction false} CommitLaw(db: Db, groups: seq<seq<QueuedUser>>, ids: seq<GameId>, players: nat)
    requires |ids| == |groups| && Unused(db, ids) && forall k | 0 <= k < |groups| :: WellFormed(groups[k], players)
    ensures Moved(db, SeatAll(db, groups, ids, players), groups, ids)
    ensures forall i | 0 <= i < |ids| :: 2 <= |SeatAll(db, groups, ids, players).games[ids[i]]| <= players
  {
    if groups == [] {
      assert Matched(groups) == {} && IdSet(ids) == {};
    } else {
      hide Moved;
      var n := |groups| - 1;
      CommitLaw(db, groups[..n], ids[..n], players);
      MovedStep(db, SeatAll(db, groups[..n], ids[..n], players), groups, ids, players);
    }
    MovedSizes(db, SeatAll(db, groups, ids, players), groups, ids, players);
  }

  lemma MovedSizes(db: Db, next: Db, groups: seq<seq<QueuedUser>>, ids: seq<GameId>, players: nat)
    requires |ids| == |groups| && Moved(db, next, groups, ids) && forall k | 0 <= k < |groups| :: WellFormed(groups[k], players)
    ensures forall i | 0 <= i < |ids| :: ids[i] in next.games && 2 <= |next.games[ids[i]]| <= players
  {
  }

  lemma MatchedGrows(groups: seq<seq<QueuedUser>>)
    requires groups != []
    ensures Matched(groups) == Matched(groups[..|groups| - 1]) + UsersOf(groups[|groups| - 1])
  {
    var n := |groups| - 1;
    forall u | u in Matched(groups[..n])
      ensures u in Matched(groups)
    {
      var k, x :| 0 <= k < |groups[..n]| && 0 <= x < |groups[..n][k]| && groups[..n][k][x].user == u;
      assert groups[k][x].user == u;
    }
    forall u | u in Matched(groups)
      ensures u in Matched(groups[..n]) + UsersOf(groups[n])
    {
      var k, x :| 0 <= k < |groups| && 0 <= x < |groups[k]| && groups[k][x].user == u;
      assert k < n ==> groups[..n][k][x].user == u;
    }
  }

  lemma IdsGrow(ids: seq<GameId>)
    requires ids != []
    ensures IdSet(ids) == IdSet(ids[..|ids| - 1]) + {ids[|ids| - 1]}
  {
    var n := |ids| - 1;
    forall x | x in ids
      ensures x in IdSet(ids[..n]) + {ids[n]}
    {
      var i :| 0 <= i < |ids| && ids[i] == x;
      assert i < n ==> ids[..n][i] == x;
    }
  }

  // ---- Who sits where ----

  predicate SitsIn(db: Db, id: GameId, user: UserId) {
    id in db.games && exists k :: 0 <= k < |db.games[id]| && db.games[id][k].user == user
  }

  /** After a commit of groups that share no user, every matched user sits in exactly one of the new games, on one seat,
      and nobody else does. */
  lemma EverybodySitsOnce(db: Db, queued: seq<QueuedUser>, groups: seq<seq<QueuedUser>>, ids: seq<GameId>, players: nat)
    requires |ids| == |groups| && Unused(db, ids) && Split(groups, queued)
    requires forall k | 0 <= k < |groups| :: WellFormed(groups[k], players)
    ensures var next := SeatAll(db, groups, ids, players);
      && (forall i | 0 <= i < |ids| :: ids[i] in next.games)
      && (forall user :: user in Matched(groups) <==> exists i :: 0 <= i < |ids| && SitsIn(next, ids[i], user))
      && (forall i, k, j, l | 0 <= i < |ids| && 0 <= j < |ids| && 0 <= k < |next.games[ids[i]]| && 0 <= l < |next.games[ids[j]]|
            && next.games[ids[i]][k].user == next.games[ids[j]][l].user :: i == j && k == l)
  {
    CommitLaw(db, groups, ids, players);
    hide SeatAll, WellFormed;
    var next := SeatAll(db, groups, ids, players);
    forall user
      ensures user in Matched(groups) <==> exists i :: 0 <= i < |ids| && SitsIn(next, ids[i], user)
    {
      MatchedSit(next, groups, ids, user);
    }
    forall i, k, j, l | 0 <= i < |ids| && 0 <= j < |ids| && 0 <= k < |next.games[ids[i]]| && 0 <= l < |next.games[ids[j]]|
                        && next.games[ids[i]][k].user == next.games[ids[j]][l].user
      ensures i == j && k == l
    {
      assert groups[i][k].user in UsersOf(groups[i]) && groups[j][l].user in UsersOf(groups[j]);
      OneGroupEach(groups, queued, i, j, groups[i][k].user);
    }
  }

  lemma OneGroupEach(groups: seq<seq<QueuedUser>>, queued: seq<QueuedUser>, i: nat, j: nat, user: UserId)
    requires Split(groups, queued) && i < |groups| && j < |groups| && user in UsersOf(groups[i]) && user in UsersOf(groups[j])
    ensures i == j
  {
  }

  lemma MatchedSit(next: Db, groups: seq<seq<QueuedUser>>, ids: seq<GameId>, user: UserId)
    requires |ids| == |groups| && forall i | 0 <= i < |ids| :: ids[i] in next.games && Seats(next.games[ids[i]], groups[i])
    ensures user in Matched(groups) <==> exists i :: 0 <= i < |ids| && SitsIn(next, ids[i], user)
  {
    if user in Matched(groups) {
      var i, k :| 0 <= i < |groups| && 0 <= k < |groups[i]| && groups[i][k].user == user;
      assert next.games[ids[i]][k].user == user;
    }
    if i :| 0 <= i < |ids| && SitsIn(next, ids[i], user) {
      var k :| 0 <= k < |next.games[ids[i]]| && next.games[ids[i]][k].user == user;
      assert groups[i][k].user == user;
    }
  }

  lemma {:induction false} AnnouncedMembers(groups: seq<seq<QueuedUser>>, ids: seq<GameId>, players: nat, user: UserId, id: GameId)
    requires |ids| == |groups|
    ensures (user, id) in Announced(groups, ids, players) <==>
      exists i, k :: 0 <= i < |ids| && ids[i] == id && WellFormed(groups[i], players) && 0 <= k < |groups[i]| && groups[i][k].user == user
  {
    if groups != [] {
      var n := |groups| - 1;
      AnnouncedMembers(groups[..n], ids[..n], players, user, id);
      var last := seq(|groups[n]|, k requires 0 <= k < |groups[n]| => (groups[n][k].user, ids[n]));
      assert (user, id) in last <==> ids[n] == id && exists k :: 0 <= k < |groups[n]| && groups[n][k].user == user by {
        forall k | 0 <= k < |groups[n]|
          ensures last[k] == (groups[n][k].user, ids[n])
        {
        }
      }
      assert forall i | 0 <= i < n :: groups[..n][i] == groups[i] && ids[..n][i] == ids[i];
    }
  }

  /** A user is told to go to a game exactly when that is a new game in which the user sits. */
  lemma AnnouncedIffSeated(db: Db, groups: seq<seq<QueuedUser>>, ids: seq<GameId>, players: nat, user: UserId, id: GameId)
    requires |ids| == |groups| && Unused(db, ids) && forall k | 0 <= k < |groups| :: WellFormed(groups[k], players)
    ensures (user, id) in Announced(groups, ids, players) <==>
      id in SeatAll(db, groups, ids, players).games && id !in db.games && SitsIn(SeatAll(db, groups, ids, players), id, user)
  {
    AnnouncedMembers(groups, ids, players, user, id);
    CommitLaw(db, groups, ids, players);
    hide SeatAll, Announced, Matched, WellFormed;
    var next := SeatAll(db, groups, ids, players);
    if SitsIn(next, id, user) && id !in db.games {
      var i :| 0 <= i < |ids| && ids[i] == id;
      var k :| 0 <= k < |next.games[id]| && next.games[id][k].user == user;
      assert groups[i][k].user == user;
    }
    if i, k :| 0 <= i < |ids| && ids[i] == id && 0 <= k < |groups[i]| && groups[i][k].user == user {
      assert next.games[id][k].user == user;
    }
  }

  /** Tickets in the queue and on seats belong to the user who enqueued them. */
  ghost predicate Owned(db: Db, enqueuer: map<nat, UserId>) {
    && (forall u | u in db.queue :: db.queue[u].id in enqueuer && enqueuer[db.queue[u].id] == u)
    && (forall id, k | id in db.games && 0 <= k < |db.games[id]| :: OwnSeat(db.games[id][k], enqueuer))
  }

  predicate OwnSeat(s: Seat, enqueuer: map<nat, UserId>) {
    s.ticket in enqueuer && enqueuer[s.ticket] == s.user
  }

  lemma SeatGroupOwned(db: Db, group: seq<QueuedUser>, id: GameId, players: nat, enqueuer: map<nat, UserId>)
    requires Owned(db, enqueuer) && Holds(db, group)
    ensures Owned(SeatGroup(db, group, id, players), enqueuer)
  {
    SeatsAreMembers(group);
    hide SeatsOf;
    var next := SeatGroup(db, group, id, players);
    forall a, k | a in next.games && 0 <= k < |next.games[a]|
      ensures OwnSeat(next.games[a][k], enqueuer)
    {
      if a == id && WellFormed(group, players) {
        assert group[k] == RowOf(db, group[k].user);
      }
    }
  }

  lemma {:induction false} SeatAllOwned(db: Db, groups: seq<seq<QueuedUser>>, ids: seq<GameId>, players: nat, enqueuer: map<nat, UserId>)
    requires |ids| == |groups| && Owned(db, enqueuer) && forall k | 0 <= k < |groups| :: Holds(db, groups[k])
    requires forall k, l | 0 <= k < l < |groups| :: UsersOf(groups[k]) !! UsersOf(groups[l])
    ensures Owned(SeatAll(db, groups, ids, players), enqueuer)
  {
    if groups != [] {
      hide Owned, UsersOf, Holds;
      var n := |groups| - 1;
      assert forall k | 0 <= k < n :: groups[..n][k] == groups[k];
      SeatAllOwned(db, groups[..n], ids[..n], players, enqueuer);
      forall k | 0 <= k < n
        ensures UsersOf(groups[n]) !! UsersOf(groups[..n][k])
      {
        assert UsersOf(groups[k]) !! UsersOf(groups[n]);
      }
      SeatAllKeepsOthers(db, groups[..n], ids[..n], players, groups[n]);
      SeatGroupOwned(SeatAll(db, groups[..n], ids[..n], players), groups[n], ids[n], players, enqueuer);
    }
  }

  lemma EnqueueOwned(db: Db, issued: nat, void: set<nat>, user: UserId, ticket: Ticket, enqueuer: map<nat, UserId>)
    requires Accounted(db, issued, void) && Owned(db, enqueuer) && ticket.id == issued
    ensures Owned(db.(queue := db.queue[user := ticket]), enqueuer[issued := user])
  {
    assert !Queued(db, issued) && !Seated(db, issued);
    forall u | u in db.queue
      ensures db.queue[u].id != issued
    {
      assert db.queue[u].id == issued ==> Queued(db, issued);
    }
    forall id, k: nat | id in db.games && k < |db.games[id]|
      ensures db.games[id][k].ticket != issued
    {
      assert db.games[id][k].ticket == issued ==> SeatedAt(db, issued, id, k);
    }
  }

  lemma CommitOwned(s: State, tick: TickId, players: nat, now: int, ids: seq<GameId>)
    requires Sound(s) && Owned(s.db, s.enqueuer) && tick in s.open && 2 <= players
    requires |ids| == |GroupsOf(s.open[tick], players, now)| && Unused(s.db, ids)
    ensures Owned(SeatAll(s.db, GroupsOf(s.open[tick], players, now), ids, players), s.enqueuer)
  {
    hide GroupsOf, Accounted, DistinctUsers, Holds, UsersOf, SeatAll, Owned;
    var rows := s.open[tick];
    var groups := GroupsOf(rows, players, now);
    GroupsSplit(rows, players, now);
    forall k | 0 <= k < |groups|
      ensures Holds(s.db, groups[k])
    {
      GroupsHold(s.db, rows, groups, k);
    }
    SeatAllOwned(s.db, groups, ids, players, s.enqueuer);
  }

  /** In every interleaving, the user on a seat, and the user of a queue row, is the one who enqueued its ticket. */
  lemma {:induction false} SeatUserLaw(steps: seq<Step>)
    ensures Owned(Run(steps).db, Run(steps).enqueuer)
  {
    if steps != [] {
      hide Sound, Owned, Run, SeatAll, GroupsOf, Locked, Selects, Accounted, LocksHold;
      var s := Run(steps[..|steps| - 1]);
      SeatUserLaw(steps[..|steps| - 1]);
      TicketLaw(steps[..|steps| - 1]);
      StepOwned(s, steps[|steps| - 1]);
      RunStep(steps);
    }
  }

  lemma RunStep(steps: seq<Step>)
    requires steps != []
    ensures Run(steps) == Next(Run(steps[..|steps| - 1]), steps[|steps| - 1])
  {
  }

  lemma StepOwned(s: State, step: Step)
    requires Sound(s) && Owned(s.db, s.enqueuer)
    ensures Owned(Next(s, step).db, Next(s, step).enqueuer)
  {
    hide Accounted, LocksHold, SeatAll, GroupsOf, Locked, Selects;
    match step
    case Enqueue(user, players, mode, rating, at) =>
      EnqueueOwned(s.db, s.issued, s.void, user, Ticket(s.issued, players, mode, rating, at), s.enqueuer);
    case Commit(tick, players, now, ids) =>
      if tick in s.open && 2 <= players && |ids| == |GroupsOf(s.open[tick], players, now)| && Unused(s.db, ids) {
        CommitOwned(s, tick, players, now, ids);
      }
    case _ =>
  }
}
