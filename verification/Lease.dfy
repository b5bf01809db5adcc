/** The lease tables: one row per game (or per elected role), taken, renewed, taken over after expiry and
    deleted by single SQL statements on the database clock; and the objects that issue those statements. */
module Lease {
  import opened Wrappers

  type PodId = string
  type Key = string

  /** A lease row. `life` counts row insertions and is not a column: it tells the lifetimes of a row apart. */
  datatype Row = Row(owner: PodId, addr: string, epoch: nat, expiresAt: int, life: nat)

  /** The table on the database clock; `born` rows have been inserted so far. */
  datatype Table = Table(now: int, rows: map<Key, Row>, born: nat)

  /** Either the lease is held at epoch, or owner and addr say who holds it. */
  datatype Grant = Grant(epoch: nat, acquired: bool, owner: PodId, addr: string)

  function FreshRow(t: Table, pod: PodId, addr: string, ttl: nat): Row {
    Row(pod, addr, 1, t.now + ttl, t.born)
  }

  /** The upsert's three cases: a free lease is inserted at epoch 1, one's own is renewed, an expired one is
      taken over at the next epoch. A live lease of another pod is left alone. */
  predicate MayTake(t: Table, key: Key, pod: PodId) {
    key !in t.rows || t.rows[key].owner == pod || t.rows[key].expiresAt < t.now
  }

  function Upsert(t: Table, key: Key, pod: PodId, addr: string, ttl: nat): Table {
    if key !in t.rows then t.(rows := t.rows[key := FreshRow(t, pod, addr, ttl)], born := t.born + 1)
    else if MayTake(t, key, pod) then
      var row := t.rows[key];
      t.(rows := t.rows[key :=
        Row(pod, addr, if row.owner == pod then row.epoch else row.epoch + 1, t.now + ttl, row.life)])
    else t
  }

  function GrantOf(t: Table, key: Key, pod: PodId, addr: string, ttl: nat): Grant {
    if MayTake(t, key, pod) then Grant(Upsert(t, key, pod, addr, ttl).rows[key].epoch, true, "", "")
    else Grant(t.rows[key].epoch, false, t.rows[key].owner, t.rows[key].addr)
  }

  function Delete(t: Table, key: Key, pod: PodId): Table {
    if key in t.rows && t.rows[key].owner == pod then t.(rows := t.rows - {key}) else t
  }

  function OwnedBy(t: Table, pod: PodId): set<Key> {
    set key | key in t.rows && t.rows[key].owner == pod
  }

  function DeleteAll(t: Table, pod: PodId): Table {
    t.(rows := t.rows - OwnedBy(t, pod))
  }

  function Renewed(t: Table, pod: PodId, ttl: nat): Table {
    t.(rows := map key | key in t.rows ::
      if t.rows[key].owner == pod then t.rows[key].(expiresAt := t.now + ttl) else t.rows[key])
  }

  /** The fencing test inside every journal append and outcome update: epoch 0 writes unfenced. */
  predicate Admits(t: Table, key: Key, epoch: nat) {
    epoch == 0 || (key in t.rows && t.rows[key].epoch == epoch)
  }

  /** Who holds a live lease, for pods that only route. */
  function LiveOwner(t: Table, key: Key): Option<(PodId, string)> {
    if key in t.rows && t.rows[key].expiresAt >= t.now then Some((t.rows[key].owner, t.rows[key].addr)) else None
  }

  /** No statement is granted while the row has a live owner that is somebody else, and routing sees the same owner. */
  lemma LiveLeaseIsExclusive(t: Table, key: Key, pod: PodId)
    ensures !MayTake(t, key, pod) <==> LiveOwner(t, key).Some? && LiveOwner(t, key).value.0 != pod
  {
  }

  /** Whoever is answered knows where the game is: a granted row carries the pod and its address for the whole TTL and no
      other row changes; a refusal names the live owner and its address, as routing sees them, and changes nothing. */
  lemma GrantNames(t: Table, key: Key, pod: PodId, addr: string, ttl: nat)
    ensures var g := GrantOf(t, key, pod, addr, ttl); var u := Upsert(t, key, pod, addr, ttl);
      && (g.acquired <==> MayTake(t, key, pod))
      && (g.acquired ==> LiveOwner(u, key) == Some((pod, addr)) && u.rows[key].epoch == g.epoch && u.rows[key].expiresAt == t.now + ttl)
      && (!g.acquired ==> u == t && LiveOwner(t, key) == Some((g.owner, g.addr)) && t.rows[key].epoch == g.epoch)
      && (forall other :: other != key ==> (other in u.rows <==> other in t.rows) && (other in t.rows ==> u.rows[other] == t.rows[other]))
  {
  }

  /** A release hands the key over at once: any pod may take it next, unless it was another pod's all along. */
  lemma ReleaseFrees(t: Table, key: Key, pod: PodId, next: PodId)
    requires LiveOwner(t, key).None? || LiveOwner(t, key).value.0 == pod
    ensures MayTake(Delete(t, key, pod), key, next) && MayTake(DeleteAll(t, pod), key, next)
  {
  }

  /** Neither kind of release touches other pods' rows, and neither leaves a row of the pod where it looks. */
  lemma ReleaseIsScoped(t: Table, key: Key, pod: PodId, other: Key)
    requires other in t.rows
    ensures var u := Delete(t, key, pod); other in u.rows <==> !(other == key && t.rows[other].owner == pod)
    ensures other in DeleteAll(t, pod).rows <==> t.rows[other].owner != pod
    ensures other in Delete(t, key, pod).rows ==> Delete(t, key, pod).rows[other] == t.rows[other]
    ensures other in DeleteAll(t, pod).rows ==> DeleteAll(t, pod).rows[other] == t.rows[other]
  {
  }

  // ---- The objects ----

  /** What happened to a statement on its way: executed and answered, never executed, or executed with its answer
      lost. Raced is the first-insert race whose loser sees no row. */
  datatype Link = Answered | NotSent | AnswerLost | Raced

  predicate Executed(link: Link) {
    link == Answered || link == AnswerLost
  }

  /** The table and one pod's beliefs, before or after a call. */
  datatype PodView = PodView(table: Table, held: map<Key, nat>)

  function AfterAcquire(v: PodView, key: Key, pod: PodId, addr: string, ttl: nat, link: Link): PodView {
    var g := GrantOf(v.table, key, pod, addr, ttl);
    PodView(if Executed(link) then Upsert(v.table, key, pod, addr, ttl) else v.table,
            if link == Answered && g.acquired then v.held[key := g.epoch] else v.held)
  }

  function AfterRelease(v: PodView, key: Key, pod: PodId, link: Link): PodView {
    PodView(if Executed(link) then Delete(v.table, key, pod) else v.table, v.held - {key})
  }

  function AfterRenew(v: PodView, pod: PodId, ttl: nat, link: Link): PodView {
    PodView(if Executed(link) then Renewed(v.table, pod, ttl) else v.table,
            if link == Answered then v.held - (v.held.Keys - OwnedBy(v.table, pod)) else v.held)
  }

  function AfterClose(v: PodView, pod: PodId, link: Link): PodView {
    PodView(if Executed(link) then DeleteAll(v.table, pod) else v.table, if link == Answered then map[] else v.held)
  }

  /** The table and one candidate's view of one role. */
  datatype ElectorView = ElectorView(table: Table, leading: bool, epoch: nat)

  /** A refused campaign deposes; a failed statement leaves the belief to the next heartbeat. */
  function AfterCampaign(v: ElectorView, role: Key, pod: PodId, ttl: nat, link: Link): ElectorView {
    var g := GrantOf(v.table, role, pod, "", ttl);
    ElectorView(if Executed(link) then Upsert(v.table, role, pod, "", ttl) else v.table,
                if link == Answered then g.acquired else v.leading && link != Raced,
                if link == Answered && g.acquired then g.epoch else v.epoch)
  }

  function AfterResignation(v: ElectorView, role: Key, pod: PodId, link: Link): ElectorView {
    v.(table := if Executed(link) then Delete(v.table, role, pod) else v.table, leading := false)
  }

  class LeaseDb {
    var table: Table

    constructor (now: int)
      ensures table == Table(now, map[], 0)
    {
      table := Table(now, map[], 0);
    }
  }

  class Manager {
    const db: LeaseDb
    const owner: PodId
    const addr: string
    const ttl: nat
    var held: map<Key, nat>

    constructor (db: LeaseDb, owner: PodId, addr: string, ttl: nat)
      ensures this.db == db && this.owner == owner && this.addr == addr && this.ttl == ttl && held == map[]
    {
      this.db, this.owner, this.addr, this.ttl, held := db, owner, addr, ttl, map[];
    }

    function Now(): PodView
      reads this, db
    {
      PodView(db.table, held)
    }

    function Held(key: Key): Option<nat>
      reads this
    {
      if key in held then Some(held[key]) else None
    }

    method Acquire(key: Key, link: Link) returns (g: Result<Grant, ()>)
      modifies this, db
      ensures Now() == AfterAcquire(old(Now()), key, owner, addr, ttl, link)
      ensures g == match link
                   case Answered => Ok(GrantOf(old(db.table), key, owner, addr, ttl))
                   case Raced => Ok(Grant(0, false, "", ""))
                   case _ => Err(())
    {
      if link == Raced {
        return Ok(Grant(0, false, "", ""));
      }
      if link == NotSent {
        return Err(());
      }
      var grant := GrantOf(db.table, key, owner, addr, ttl);
      db.table := Upsert(db.table, key, owner, addr, ttl);
      if link == AnswerLost {
        return Err(());
      }
      if grant.acquired {
        held := held[key := grant.epoch];
      }
      return Ok(grant);
    }

    /** Acquires unless already held; whatever comes of it only shows in `held`. */
    method EnsureHeld(key: Key, link: Link)
      modifies this, db
      ensures Now() == if key in old(held) then old(Now()) else AfterAcquire(old(Now()), key, owner, addr, ttl, link)
      ensures key !in old(held) ==> (key in held <==> link == Answered && MayTake(old(db.table), key, owner))
      ensures key in held && key !in old(held) ==> key in db.table.rows && held[key] == db.table.rows[key].epoch
    {
      if Held(key).Some? {
        return;
      }
      var g := Acquire(key, link);
    }

    /** The row goes only if it is still ours; the belief goes in any case. */
    method Release(key: Key, link: Link)
      modifies this, db
      ensures Now() == AfterRelease(old(Now()), key, owner, link)
    {
      if link == Answered || link == AnswerLost {
        db.table := Delete(db.table, key, owner);
      }
      held := held - {key};
    }

    /** One heartbeat: extends every row still owned, then forgets, one by one, the leases found taken over. */
    method Renew(link: Link) returns (lost: set<Key>)
      modifies this, db
      ensures Now() == AfterRenew(old(Now()), owner, ttl, link)
      ensures lost == old(held).Keys - held.Keys
    {
      lost := {};
      if link == NotSent || link == Raced {
        return;
      }
      var renewed := OwnedBy(db.table, owner);
      db.table := Renewed(db.table, owner, ttl);
      if link == AnswerLost {
        return;
      }
      ghost var was := held;
      var todo := held.Keys;
      while todo != {}
        invariant todo <= was.Keys && lost <= was.Keys
        invariant lost == (was.Keys - todo) - renewed
        invariant held == was - lost
        modifies this
        decreases todo
      {
        var key :| key in todo;
        if key !in renewed {
          held := held - {key};
          lost := lost + {key};
        }
        todo := todo - {key};
      }
    }

    /** Shutdown: releases everything; when the statement fails, the beliefs are kept. */
    method Close(link: Link)
      modifies this, db
      ensures Now() == AfterClose(old(Now()), owner, link)
    {
      if link == NotSent || link == Raced {
        return;
      }
      db.table := DeleteAll(db.table, owner);
      if link == Answered {
        held := map[];
      }
    }
  }

  /** Leader election over the same kind of row: one candidate's view of one role. */
  class Elector {
    const db: LeaseDb
    const role: Key
    const owner: PodId
    const ttl: nat
    var epoch: nat
    var leading: bool
    var elections: nat

    constructor (db: LeaseDb, role: Key, owner: PodId, ttl: nat)
      ensures this.db == db && this.role == role && this.owner == owner && this.ttl == ttl && !leading && elections == 0
    {
      this.db, this.role, this.owner, this.ttl := db, role, owner, ttl;
      epoch, leading, elections := 0, false, 0;
    }

    function Now(): ElectorView
      reads this, db
    {
      ElectorView(db.table, leading, epoch)
    }

    /** One campaign: an answered statement makes this candidate leader exactly when the row is its own afterwards. */
    method Campaign(link: Link)
      modifies this, db
      ensures Now() == AfterCampaign(old(Now()), role, owner, ttl, link)
      ensures link == Answered ==> (leading <==> role in db.table.rows && db.table.rows[role].owner == owner)
      ensures link == Answered && leading ==> epoch == db.table.rows[role].epoch && db.table.rows[role].expiresAt == db.table.now + ttl
      ensures elections == old(elections) + if leading && !old(leading) then 1 else 0
    {
      if link == NotSent {
        return;
      }
      if link == Raced {
        StepDown();
        return;
      }
      var grant := GrantOf(db.table, role, owner, "", ttl);
      db.table := Upsert(db.table, role, owner, "", ttl);
      if link == AnswerLost {
        return;
      }
      if grant.acquired {
        BecomeLeader(grant.epoch);
      } else {
        StepDown();
      }
    }

    /** The leader's workload is started once per gain of leadership, not on renewals. */
    method BecomeLeader(granted: nat)
      modifies this
      ensures leading && epoch == granted && elections == old(elections) + if old(leading) then 0 else 1
    {
      if leading {
        epoch := granted;
        return;
      }
      leading, epoch := true, granted;
      elections := elections + 1;
    }

    method StepDown()
      modifies this
      ensures !leading && epoch == old(epoch) && elections == old(elections)
    {
      leading := false;
    }

    method Close(link: Link)
      modifies this, db
      ensures Now() == AfterResignation(old(Now()), role, owner, link) && elections == old(elections)
    {
      StepDown();
      if link == Answered || link == AnswerLost {
        db.table := Delete(db.table, role, owner);
      }
    }
  }
}
