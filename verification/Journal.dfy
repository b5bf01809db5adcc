/** The per-game event journal: fenced appends, fenced outcome updates, and the catch-up query. */
module Journal {
  import opened Wrappers
  import opened Lease
  import opened Fencing

  type Event = string

  datatype Error = ErrGameNotFound | ErrStaleLease

  /** Who writes: a pod, and the lifetime of the lease row that its fencing token dates from. Not a column. */
  datatype Writer = Writer(pod: PodId, life: nat)

  /** A journal row. Only event and epoch are columns: `author` says who wrote it, `owner` and `life` what the lease row
      said at the append. */
  datatype Stored = Stored(event: Event, epoch: nat, author: Writer, owner: PodId, life: nat)

  /** A games row with its event counter and outcome, and the event rows keyed by their sequence number. */
  datatype Game = Game(eventSeq: nat, rows: map<nat, Stored>, outcome: string)

  type Games = map<Key, Game>

  /** A journal row as queries return it. */
  datatype EventRow = EventRow(num: nat, event: Event)

  const NEW_GAME := Game(0, map[], "")

  /** The rows are numbered 1 to eventSeq without holes. */
  ghost predicate Contiguous(g: Game) {
    forall n: nat :: n in g.rows <==> 1 <= n <= g.eventSeq
  }

  ghost predicate AllContiguous(games: Games) {
    forall key :: key in games ==> Contiguous(games[key])
  }

  /** The events in order. */
  function Events(g: Game): seq<Event>
    requires Contiguous(g)
  {
    seq(g.eventSeq, i requires 0 <= i < g.eventSeq => g.rows[i + 1].event)
  }

  function NewRow(t: Table, key: Key, event: Event, epoch: nat, author: Writer): Stored {
    if key in t.rows then Stored(event, epoch, author, t.rows[key].owner, t.rows[key].life)
    else Stored(event, epoch, author, "", 0)
  }

  function Appended(g: Game, row: Stored): Game {
    g.(eventSeq := g.eventSeq + 1, rows := g.rows[g.eventSeq + 1 := row])
  }

  /** The append statement: bump the counter and insert under the new number, both or neither. */
  function Append(games: Games, t: Table, key: Key, event: Event, epoch: nat, author: Writer): Games {
    if key in games && Admits(t, key, epoch)
    then games[key := Appended(games[key], NewRow(t, key, event, epoch, author))]
    else games
  }

  ghost predicate Listed(out: seq<EventRow>, n: nat) {
    exists i :: 0 <= i < |out| && out[i].num == n
  }

  ghost predicate InNumberOrder(out: seq<EventRow>) {
    forall i, j | 0 <= i < j < |out| :: out[i].num < out[j].num
  }

  ghost predicate IsRow(g: Game, since: nat, row: EventRow) {
    row.num > since && row.num in g.rows && g.rows[row.num].event == row.event
  }

  /** What a query `WHERE seq > since ORDER BY seq LIMIT limit` may return. */
  ghost predicate IsSelection(g: Game, since: nat, limit: nat, out: seq<EventRow>) {
    && |out| <= limit
    && InNumberOrder(out)
    && (forall i | 0 <= i < |out| :: IsRow(g, since, out[i]))
    && (forall n | n in g.rows && n > since :: Listed(out, n) || (|out| == limit && forall i | 0 <= i < |out| :: out[i].num < n))
  }

  /** Rows lo + 1 to hi of a journal. */
  function Slice(events: seq<Event>, lo: nat, hi: nat): (r: seq<EventRow>)
    requires lo <= hi <= |events|
  {
    seq(hi - lo, i requires 0 <= i < hi - lo => EventRow(lo + i + 1, events[lo + i]))
  }

  function Min(a: int, b: int): int {
    if a < b then a else b
  }

  // ---- The store ----

  class EventStore {
    const leases: LeaseDb
    var games: Games

    constructor (leases: LeaseDb)
      ensures this.leases == leases && games == map[]
    {
      this.leases, games := leases, map[];
    }

    /** Appends one event. The row is written, and gets the next number, exactly when the game exists and the epoch
        is 0 or the lease row's own; otherwise a second query, which may fail, tells a fenced write from a deleted game. */
    method AppendEvent(key: Key, event: Event, epoch: nat, author: Writer, probeFails: bool) returns (r: Result<nat, Error>)
      requires AllContiguous(games)
      modifies this
      ensures games == Append(old(games), leases.table, key, event, epoch, author)
      ensures r.Ok? <==> key in old(games) && Admits(leases.table, key, epoch)
      ensures r.Ok? ==> r.value == old(games)[key].eventSeq + 1
                        && Events(games[key]) == Events(old(games)[key]) + [event]
      ensures r.Err? ==> (r.error == ErrStaleLease <==> !probeFails && key in old(games))
      ensures AllContiguous(games)
    {
      if key in games && Admits(leases.table, key, epoch) {
        var g := games[key];
        var row := NewRow(leases.table, key, event, epoch, author);
        games := games[key := Game(g.eventSeq + 1, g.rows[g.eventSeq + 1 := row], g.outcome)];
        return Ok(g.eventSeq + 1);
      }
      if epoch != 0 && !probeFails && key in games {
        return Err(ErrStaleLease);
      }
      return Err(ErrGameNotFound);
    }

    /** Writes the outcome under the same fence; a missing game is not an error. */
    method UpdateOutcome(key: Key, outcome: string, epoch: nat, probeFails: bool) returns (r: Result<(), Error>)
      modifies this
      ensures games.Keys == old(games).Keys
      ensures forall k | k in games ::
        (games[k] == if k == key && Admits(leases.table, key, epoch) then old(games)[k].(outcome := outcome) else old(games)[k])
      ensures r.Err? <==> key in old(games) && !Admits(leases.table, key, epoch) && !probeFails
      ensures r.Err? ==> r.error == ErrStaleLease
    {
      if key in games && Admits(leases.table, key, epoch) {
        games := games[key := games[key].(outcome := outcome)];
        return Ok(());
      }
      if epoch != 0 && !probeFails && key in games {
        return Err(ErrStaleLease);
      }
      return Ok(());
    }

    /** The rows after `since`, in order, at most `limit` of them. */
    method EventsSince(key: Key, since: nat, limit: nat) returns (out: seq<EventRow>)
      requires AllContiguous(games)
      ensures key !in games ==> out == []
      ensures key in games ==> IsSelection(games[key], since, limit, out)
    {
      out := [];
      if key !in games {
        return;
      }
      var g := games[key];
      var n := since + 1;
      while n <= g.eventSeq && |out| < limit
        invariant n == since + 1 + |out| && |out| <= limit
        invariant forall i | 0 <= i < |out| :: out[i].num == since + 1 + i && IsRow(g, since, out[i])
      {
        out := out + [EventRow(n, g.rows[n].event)];
        n := n + 1;
      }
      forall m | m in g.rows && m > since
        ensures Listed(out, m) || (|out| == limit && forall i | 0 <= i < |out| :: out[i].num < m)
      {
        var i := m - since - 1;
        assert i < |out| ==> out[i].num == m;
      }
    }
  }

  lemma BetweenIsUnlisted(out: seq<EventRow>, i: nat, n: nat)
    requires InNumberOrder(out) && i < |out| && n < out[i].num && (i > 0 ==> out[i - 1].num < n)
    ensures !Listed(out, n)
  {
  }

  /** The rows of a selection from a contiguous journal are numbered consecutively. */
  lemma {:induction false} SelectionNumbers(g: Game, since: nat, limit: nat, out: seq<EventRow>, i: nat)
    requires Contiguous(g) && IsSelection(g, since, limit, out) && i < |out|
    ensures out[i].num == since + 1 + i && IsRow(g, since, out[i])
  {
    hide Listed, InNumberOrder;
    assert IsRow(g, since, out[i]);
    if i > 0 {
      SelectionNumbers(g, since, limit, out, i - 1);
      InOrderNext(out, i);
    }
    var n := since + 1 + i;
    if out[i].num != n {
      assert n in g.rows;
      BetweenIsUnlisted(out, i, n);
      assert false;
    }
  }

  lemma InOrderNext(out: seq<EventRow>, i: nat)
    requires InNumberOrder(out) && 0 < i < |out|
    ensures out[i - 1].num < out[i].num
  {
  }

  lemma SelectionEntry(g: Game, since: nat, limit: nat, out: seq<EventRow>, i: nat)
    requires Contiguous(g) && IsSelection(g, since, limit, out) && i < |out|
    ensures since + i < g.eventSeq && out[i] == EventRow(since + i + 1, Events(g)[since + i])
  {
    hide IsSelection;
    SelectionNumbers(g, since, limit, out, i);
  }

  lemma SelectionLength(g: Game, since: nat, limit: nat, out: seq<EventRow>)
    requires Contiguous(g) && IsSelection(g, since, limit, out)
    ensures |out| == if since <= g.eventSeq then Min(g.eventSeq - since, limit) else 0
  {
    hide InNumberOrder;
    if out != [] {
      SelectionNumbers(g, since, limit, out, |out| - 1);
    }
    var n := since + 1 + |out|;
    if |out| < limit && n <= g.eventSeq {
      assert n in g.rows && Listed(out, n);
      var k: nat :| k < |out| && out[k].num == n;
      SelectionNumbers(g, since, limit, out, k);
      assert false;
    }
  }

  /** On a contiguous journal the query has one answer: the slice after `since`, cut at the limit. */
  lemma SelectionIsSlice(g: Game, since: nat, limit: nat, out: seq<EventRow>)
    requires Contiguous(g) && IsSelection(g, since, limit, out)
    ensures out == if since <= g.eventSeq then Slice(Events(g), since, Min(g.eventSeq, since + limit)) else []
  {
    hide IsSelection, Contiguous;
    SelectionLength(g, since, limit, out);
    forall i | 0 <= i < |out|
      ensures out[i] == EventRow(since + i + 1, Events(g)[since + i])
    {
      SelectionEntry(g, since, limit, out, i);
    }
  }

  /** An admitted append is what a client that had everything before it reads next, and all it reads; a refused one changes
      nothing. */
  lemma AppendedIsRead(games: Games, t: Table, key: Key, event: Event, epoch: nat, author: Writer, limit: nat, out: seq<EventRow>)
    requires AllContiguous(games) && key in games && limit > 0
    requires IsSelection(Append(games, t, key, event, epoch, author)[key], games[key].eventSeq, limit, out)
    ensures out == if Admits(t, key, epoch) then [EventRow(games[key].eventSeq + 1, event)] else []
    ensures !Admits(t, key, epoch) ==> Append(games, t, key, event, epoch, author) == games
  {
    var g := Append(games, t, key, event, epoch, author)[key];
    assert Contiguous(g);
    SelectionIsSlice(g, games[key].eventSeq, limit, out);
    hide IsSelection;
  }

  // ---- Pods, leases and journals together ----

  /** The pods and leases of a run, and the journals they write to. */
  datatype World = World(pods: State, games: Games)

  /** A protocol step, a new game, a write by a pod under a token it was granted, or an unfenced write. */
  datatype Act =
    | Protocol(step: Step)
    | Create(key: Key)
    | Publish(token: Token, event: Event)
    | Unfenced(game: Key, entry: Event)

  function Do(w: World, act: Act, ttl: PodId -> nat): World {
    match act
    case Protocol(step) => w.(pods := Next(w.pods, step, ttl))
    case Create(key) => if key in w.games then w else w.(games := w.games[key := NEW_GAME])
    case Publish(token, event) =>
      if token in w.pods.granted
      then w.(games := Append(w.games, w.pods.table, token.key, event, token.epoch, Writer(token.pod, token.life)))
      else w
    case Unfenced(key, event) => w.(games := Append(w.games, w.pods.table, key, event, 0, Writer("", 0)))
  }

  function Exec(acts: seq<Act>, ttl: PodId -> nat): World {
    if acts == [] then World(START, map[]) else Do(Exec(acts[..|acts| - 1], ttl), acts[|acts| - 1], ttl)
  }

  /** The reigns that two rows were appended in are in order: by lifetime of the lease row, then by epoch. */
  predicate NotAfter(a: Stored, b: Stored) {
    a.life < b.life || (a.life == b.life && a.epoch <= b.epoch)
  }

  predicate IsFenced(g: Game, n: nat) {
    n in g.rows && g.rows[n].epoch != 0
  }

  /** The writer's token dates from the lifetime of the lease row that admitted it. */
  predicate IsTimely(row: Stored) {
    row.author.life == row.life
  }

  /** The tokens of the writer and of the owner at the append were both granted, and the reign of the append is no later
      than the lease row's now. */
  ghost predicate InReign(s: State, key: Key, row: Stored) {
    && Token(row.author.pod, key, row.epoch, row.author.life) in s.granted
    && Token(row.owner, key, row.epoch, row.life) in s.granted
    && (key in s.table.rows ==>
          row.life < s.table.rows[key].life || (row.life == s.table.rows[key].life && row.epoch <= s.table.rows[key].epoch))
  }

  ghost predicate InOrder(g: Game) {
    forall m: nat, n: nat | IsFenced(g, m) && IsFenced(g, n) && m < n :: NotAfter(g.rows[m], g.rows[n])
  }

  ghost predicate Sound(w: World) {
    && Fenced(w.pods)
    && AllContiguous(w.games)
    && (forall key :: key in w.games ==> InOrder(w.games[key]))
    && (forall key, n | key in w.games && IsFenced(w.games[key], n) :: InReign(w.pods, key, w.games[key].rows[n]))
  }

  /** A step of the protocol only ever adds grants and moves a lease row on to later reigns. */
  lemma ReignsAdvance(s: State, step: Step, ttl: PodId -> nat, key: Key)
    requires Fenced(s)
    ensures var u := Next(s, step, ttl);
      && s.granted <= u.granted && s.table.born <= u.table.born
      && (key in u.table.rows ==>
            if key in s.table.rows
            then u.table.rows[key].life == s.table.rows[key].life && u.table.rows[key].epoch >= s.table.rows[key].epoch
            else u.table.rows[key].life == s.table.born)
  {
  }

  lemma ProtocolKeepsSound(w: World, step: Step, ttl: PodId -> nat)
    requires Sound(w)
    ensures Sound(Do(w, Protocol(step), ttl))
  {
    assert forall k :: k in w.pods.granted ==> k.life < w.pods.table.born;
    hide Next, Fenced;
    StepKeepsFenced(w.pods, step, ttl);
    var u := Next(w.pods, step, ttl);
    forall key, n | key in w.games && IsFenced(w.games[key], n)
      ensures InReign(u, key, w.games[key].rows[n])
    {
      ReignsAdvance(w.pods, step, ttl, key);
    }
  }

  /** Writes under granted tokens, and unfenced writes. */
  lemma AppendKeepsSound(w: World, key: Key, event: Event, epoch: nat, author: Writer)
    requires Sound(w) && (epoch != 0 ==> Token(author.pod, key, epoch, author.life) in w.pods.granted)
    ensures Sound(w.(games := Append(w.games, w.pods.table, key, event, epoch, author)))
  {
    if key in w.games && Admits(w.pods.table, key, epoch) {
      var g := w.games[key];
      var row := NewRow(w.pods.table, key, event, epoch, author);
      var h := Appended(g, row);
      if epoch != 0 {
        assert TokenOf(w.pods.table, key, w.pods.table.rows[key].owner) in w.pods.granted;
        assert InReign(w.pods, key, row);
      }
      forall m: nat, n: nat | IsFenced(h, m) && IsFenced(h, n) && m < n
        ensures NotAfter(h.rows[m], h.rows[n])
      {
        assert IsFenced(g, m);
        assert n <= g.eventSeq ==> IsFenced(g, n);
      }
    }
  }

  /** In every reachable world every journal is contiguous, its fenced rows stand in the order of the lease row's reigns
      at their appends, and every fenced row was written under a granted token. */
  lemma {:induction false} JournalLaw(acts: seq<Act>, ttl: PodId -> nat)
    ensures Sound(Exec(acts, ttl))
  {
    hide Sound, Next, Append;
    if acts == [] {
      EmptyIsSound();
    } else {
      var w := Exec(acts[..|acts| - 1], ttl);
      JournalLaw(acts[..|acts| - 1], ttl);
      match acts[|acts| - 1]
      case Protocol(step) => ProtocolKeepsSound(w, step, ttl);
      case Create(key) => if key !in w.games { CreateKeepsSound(w, key); }
      case Publish(token, event) =>
        if token in w.pods.granted {
          GrantedEpochs(w, token);
          AppendKeepsSound(w, token.key, event, token.epoch, Writer(token.pod, token.life));
        }
      case Unfenced(key, event) => AppendKeepsSound(w, key, event, 0, Writer("", 0));
    }
  }

  lemma GrantedEpochs(w: World, token: Token)
    requires Sound(w) && token in w.pods.granted
    ensures token.epoch != 0
  {
  }

  lemma EmptyIsSound()
    ensures Sound(World(START, map[]))
  {
  }

  lemma CreateKeepsSound(w: World, key: Key)
    requires Sound(w) && key !in w.games
    ensures Sound(w.(games := w.games[key := NEW_GAME]))
  {
  }

  lemma OwnRow(w: World, key: Key, n: nat)
    requires Sound(w) && key in w.games && IsFenced(w.games[key], n)
    ensures var row := w.games[key].rows[n];
      IsTimely(row) <==> Token(row.author.pod, key, row.epoch, row.author.life) == Token(row.owner, key, row.epoch, row.life)
  {
    assert InReign(w.pods, key, w.games[key].rows[n]);
  }

  /** Single writer: in every run, a fenced journal row was written under the owner's own token, by the pod that owned the
      lease at that append, exactly when its token dates from the lifetime of the lease row. */
  lemma SingleWriterLaw(acts: seq<Act>, ttl: PodId -> nat, key: Key, n: nat)
    requires var w := Exec(acts, ttl); key in w.games && IsFenced(w.games[key], n)
    ensures var row := Exec(acts, ttl).games[key].rows[n];
      IsTimely(row) <==> Token(row.author.pod, key, row.epoch, row.author.life) == Token(row.owner, key, row.epoch, row.life)
  {
    hide Exec, Sound;
    JournalLaw(acts, ttl);
    OwnRow(Exec(acts, ttl), key, n);
  }

  /** Writers take turns: of two fenced rows whose tokens date from their lease row's lifetime, the later one is of the
      same reign and the same writer, or of a later reign. A pod that was taken over never appends after its successor. */
  lemma WritersTakeTurns(acts: seq<Act>, ttl: PodId -> nat, key: Key, m: nat, n: nat)
    requires var w := Exec(acts, ttl); key in w.games && IsFenced(w.games[key], m) && IsFenced(w.games[key], n)
    requires var g := Exec(acts, ttl).games[key]; m < n && IsTimely(g.rows[m]) && IsTimely(g.rows[n])
    ensures var a, b := Exec(acts, ttl).games[key].rows[m], Exec(acts, ttl).games[key].rows[n];
      && (a.author.life < b.author.life || (a.author.life == b.author.life && a.epoch <= b.epoch))
      && (a.author.life == b.author.life && a.epoch == b.epoch ==> a.author == b.author)
  {
    hide Exec;
    JournalLaw(acts, ttl);
    RowsInTurn(Exec(acts, ttl), key, m, n);
  }

  lemma RowsInTurn(w: World, key: Key, m: nat, n: nat)
    requires Sound(w) && key in w.games && IsFenced(w.games[key], m) && IsFenced(w.games[key], n)
    requires m < n && IsTimely(w.games[key].rows[m]) && IsTimely(w.games[key].rows[n])
    ensures var a, b := w.games[key].rows[m], w.games[key].rows[n];
      && (a.author.life < b.author.life || (a.author.life == b.author.life && a.epoch <= b.epoch))
      && (a.author.life == b.author.life && a.epoch == b.epoch ==> a.author == b.author)
  {
    var a, b := w.games[key].rows[m], w.games[key].rows[n];
    assert InReign(w.pods, key, a) && InReign(w.pods, key, b) && NotAfter(a, b);
    assert Fenced(w.pods);
  }

  /** A token that outlives the lease row it was granted on does get through: a's write lands in b's reign. */
  const OUTLIVED: seq<Act> := [
    Create("g"), Protocol(AcquireStmt("a", "g", "")), Protocol(DeleteAllStmt("a")), Protocol(AcquireStmt("b", "g", "")),
    Publish(Token("a", "g", 1, 0), "e")]

  lemma ExecStep(acts: seq<Act>, n: nat, ttl: PodId -> nat)
    requires n < |acts|
    ensures Exec(acts[..n + 1], ttl) == Do(Exec(acts[..n], ttl), acts[n], ttl)
  {
    assert acts[..n + 1][..n] == acts[..n];
  }

  lemma TokenIsGranted()
    ensures var w := Exec(OUTLIVED[..2], TenSeconds());
      && w.games == map["g" := NEW_GAME] && w.pods.table == Table(0, map["g" := Row("a", "", 1, 10, 0)], 1)
      && Token("a", "g", 1, 0) in w.pods.granted
  {
    ExecStep(OUTLIVED, 0, TenSeconds());
    ExecStep(OUTLIVED, 1, TenSeconds());
    assert OUTLIVED[..0] == [];
  }

  lemma RowIsGone()
    ensures var w := Exec(OUTLIVED[..3], TenSeconds());
      && w.games == map["g" := NEW_GAME] && w.pods.table == Table(0, map[], 1) && Token("a", "g", 1, 0) in w.pods.granted
  {
    TokenIsGranted();
    ExecStep(OUTLIVED, 2, TenSeconds());
    hide Exec;
    assert OwnedBy(Exec(OUTLIVED[..2], TenSeconds()).pods.table, "a") == {"g"};
  }

  lemma TokenIsOutlived()
    ensures var w := Exec(OUTLIVED[..4], TenSeconds());
      && w.games == map["g" := NEW_GAME] && w.pods.table.rows == map["g" := Row("b", "", 1, 10, 1)]
      && Token("a", "g", 1, 0) in w.pods.granted
  {
    RowIsGone();
    ExecStep(OUTLIVED, 3, TenSeconds());
    hide Exec;
  }

  lemma OutlivedTokenWrites()
    ensures var w := Exec(OUTLIVED, TenSeconds());
      "g" in w.games && 1 in w.games["g"].rows && w.games["g"].rows[1] == Stored("e", 1, Writer("a", 0), "b", 1)
  {
    TokenIsOutlived();
    ExecStep(OUTLIVED, 4, TenSeconds());
    hide Exec;
    assert OUTLIVED[..5] == OUTLIVED;
  }
}
