/** Pods and the lease table under arbitrary interleavings: statements execute one at a time, their answers travel
    separately, and may be late, reordered or lost. */
module Fencing {
  import opened Lease

  /** A grant as its pod received it: the fencing token, and the row lifetime it dates from. */
  datatype Token = Token(pod: PodId, key: Key, epoch: nat, life: nat)

  /** `granted` logs every grant ever made; `flying` holds the answers on their way; `held` the pods' beliefs. */
  datatype State = State(table: Table, granted: set<Token>, flying: set<Token>, held: map<(PodId, Key), Token>)

  datatype Step =
    | Tick(ms: nat)
    | AcquireStmt(pod: PodId, key: Key, addr: string)
    | AcquireAnswer(token: Token)
    | LoseAnswer(dropped: Token)
    | ReleaseStmt(releaser: PodId, released: Key)
    | DeleteAllStmt(closer: PodId)
    | RenewStmt(renewer: PodId)
    | Forget(forgetter: PodId, forgotten: Key)

  const START := State(Table(0, map[], 0), {}, {}, map[])

  function TokenOf(t: Table, key: Key, pod: PodId): Token
    requires key in t.rows
  {
    Token(pod, key, t.rows[key].epoch, t.rows[key].life)
  }

  /** One step. Every pod has its own TTL; a refused acquisition changes nothing; Forget covers the removal of a
      belief by a release, by a heartbeat's reconciliation and by shutdown. */
  function Next(s: State, step: Step, ttl: PodId -> nat): State {
    match step
    case Tick(ms) => s.(table := s.table.(now := s.table.now + ms))
    case AcquireStmt(pod, key, addr) =>
      if !MayTake(s.table, key, pod) then s
      else
        var t := Upsert(s.table, key, pod, addr, ttl(pod));
        var token := TokenOf(t, key, pod);
        s.(table := t, granted := s.granted + {token}, flying := s.flying + {token})
    case AcquireAnswer(token) =>
      if token in s.flying
      then s.(flying := s.flying - {token}, held := s.held[(token.pod, token.key) := token])
      else s
    case LoseAnswer(token) => s.(flying := s.flying - {token})
    case ReleaseStmt(pod, key) => s.(table := Delete(s.table, key, pod))
    case DeleteAllStmt(pod) => s.(table := DeleteAll(s.table, pod))
    case RenewStmt(pod) => s.(table := Renewed(s.table, pod, ttl(pod)))
    case Forget(pod, key) => s.(held := s.held - {(pod, key)})
  }

  function Run(s: State, steps: seq<Step>, ttl: PodId -> nat): State {
    if steps == [] then s else Next(Run(s, steps[..|steps| - 1], ttl), steps[|steps| - 1], ttl)
  }

  // ---- The fencing invariant ----

  /** The epoch of a row lifetime names one pod, and the row of the current lifetime carries the highest epoch granted. */
  ghost predicate Fenced(s: State) {
    && (forall k :: k in s.granted ==> k.epoch >= 1 && k.life < s.table.born)
    && (forall k, l :: k in s.granted && l in s.granted && SameLife(k, l) && k.epoch == l.epoch ==> k.pod == l.pod)
    && (forall key :: key in s.table.rows ==>
          (s.table.rows[key].life < s.table.born && TokenOf(s.table, key, s.table.rows[key].owner) in s.granted))
    && (forall k :: k in s.granted && k.key in s.table.rows ==> !Later(k, s.table.rows[k.key].life, s.table.rows[k.key].epoch))
    && s.flying <= s.granted
    && (forall x :: x in s.held ==> s.held[x] in s.granted && x == (s.held[x].pod, s.held[x].key))
  }

  /** The token is of a later reign than this one: of a later lifetime of the row, or of a later epoch of the same. */
  predicate Later(k: Token, life: nat, epoch: nat) {
    k.life > life || (k.life == life && k.epoch > epoch)
  }

  ghost predicate SameLife(k: Token, l: Token) {
    k.key == l.key && k.life == l.life
  }

  /** The row the token was granted on still lives. */
  predicate Current(t: Table, k: Token) {
    k.key in t.rows && t.rows[k.key].life == k.life
  }

  lemma AcquireKeepsFenced(s: State, pod: PodId, key: Key, addr: string, ttl: PodId -> nat)
    requires Fenced(s) && MayTake(s.table, key, pod)
    ensures Fenced(Next(s, AcquireStmt(pod, key, addr), ttl))
  {
    var u := Next(s, AcquireStmt(pod, key, addr), ttl);
    var token := TokenOf(u.table, key, pod);
    forall k | k in s.granted && SameLife(k, token) && k.epoch == token.epoch
      ensures k.pod == pod
    {
      assert key in s.table.rows && Current(s.table, k);
      assert TokenOf(s.table, key, s.table.rows[key].owner) in s.granted;
    }
  }

  lemma StepKeepsFenced(s: State, step: Step, ttl: PodId -> nat)
    requires Fenced(s)
    ensures Fenced(Next(s, step, ttl))
  {
    match step
    case AcquireStmt(pod, key, addr) =>
      if MayTake(s.table, key, pod) {
        AcquireKeepsFenced(s, pod, key, addr, ttl);
      }
    case _ =>
  }

  lemma {:induction false} FencedLaw(steps: seq<Step>, ttl: PodId -> nat)
    ensures Fenced(Run(START, steps, ttl))
  {
    if steps != [] {
      FencedLaw(steps[..|steps| - 1], ttl);
      StepKeepsFenced(Run(START, steps[..|steps| - 1], ttl), steps[|steps| - 1], ttl);
    }
  }

  lemma FencedOwner(s: State, token: Token)
    requires Fenced(s) && token in s.granted && Current(s.table, token) && s.table.rows[token.key].epoch == token.epoch
    ensures s.table.rows[token.key].owner == token.pod
  {
    assert TokenOf(s.table, token.key, s.table.rows[token.key].owner) in s.granted;
  }

  /** Fencing: in every reachable state, a write that the table admits under a token whose row lifetime still lasts
      comes from the pod that owns the row now, however late the write is. */
  lemma FencingLaw(steps: seq<Step>, ttl: PodId -> nat, token: Token)
    requires var s := Run(START, steps, ttl);
      token in s.granted && Current(s.table, token) && Admits(s.table, token.key, token.epoch)
    ensures Run(START, steps, ttl).table.rows[token.key].owner == token.pod
  {
    hide Run, Next;
    FencedLaw(steps, ttl);
    FencedOwner(Run(START, steps, ttl), token);
  }

  /** The fence, exactly: in every reachable state, a token of the row's lifetime is admitted if and only if no later epoch
      of that lifetime was ever granted, and then it is the owner's. */
  lemma AdmittedIff(steps: seq<Step>, ttl: PodId -> nat, token: Token)
    requires var s := Run(START, steps, ttl); token in s.granted && Current(s.table, token)
    ensures var s := Run(START, steps, ttl);
      && (Admits(s.table, token.key, token.epoch) <==> forall k | k in s.granted && SameLife(k, token) :: k.epoch <= token.epoch)
      && (Admits(s.table, token.key, token.epoch) <==> token == TokenOf(s.table, token.key, s.table.rows[token.key].owner))
  {
    hide Run, Next;
    FencedLaw(steps, ttl);
    var s := Run(START, steps, ttl);
    var row := TokenOf(s.table, token.key, s.table.rows[token.key].owner);
    assert row in s.granted && SameLife(row, token);
    if Admits(s.table, token.key, token.epoch) {
      FencedOwner(s, token);
    }
  }

  /** Within one lifetime of a row, one step changes the owner only by raising the epoch, and only after expiry. */
  lemma ChangeOfHands(s: State, step: Step, ttl: PodId -> nat, key: Key)
    requires key in s.table.rows && key in Next(s, step, ttl).table.rows
    ensures var before, after := s.table.rows[key], Next(s, step, ttl).table.rows[key];
      && (after.life == before.life)
      && (after.owner == before.owner ==> after.epoch == before.epoch)
      && (after.owner != before.owner ==> after.epoch == before.epoch + 1 && before.expiresAt < s.table.now
                                          && step.AcquireStmt? && step.pod == after.owner && step.key == key)
  {
  }

  // ---- The lifetime hypothesis is needed ----

  function TenSeconds(): PodId -> nat {
    (pod: PodId) => 10
  }

  /** a acquires, shuts down, and b inserts the row afresh: both tokens carry epoch 1. */
  const RESTARTED: seq<Step> := [AcquireStmt("a", "g", ""), DeleteAllStmt("a"), AcquireStmt("b", "g", "")]

  /** A write still in flight from a is then admitted although b owns the game. */
  lemma StaleEpochAdmittedAfterRestart() returns (token: Token)
    ensures var s := Run(START, RESTARTED, TenSeconds());
      && token in s.granted && token.pod == "a" && token.epoch != 0
      && token.key in s.table.rows && s.table.rows[token.key].owner == "b"
      && Admits(s.table, token.key, token.epoch)
      && !Current(s.table, token)
  {
    token := Token("a", "g", 1, 0);
    assert RESTARTED[..2] == [AcquireStmt("a", "g", ""), DeleteAllStmt("a")];
    assert RESTARTED[..2][..1] == [AcquireStmt("a", "g", "")];
    assert [AcquireStmt("a", "g", "")][..0] == [];
    var s1 := Run(START, [AcquireStmt("a", "g", "")], TenSeconds());
    assert s1.table.rows["g"] == Row("a", "", 1, 10, 0);
    assert token in s1.granted;
    var s2 := Run(START, RESTARTED[..2], TenSeconds());
    assert "g" in OwnedBy(s1.table, "a") && "g" !in s2.table.rows;
  }

  // ---- Beliefs ----

  /** The pod was never granted a later reign over the key than this token's. */
  ghost predicate Newest(s: State, k: Token) {
    forall l: Token :: l in s.granted && l.pod == k.pod && l.key == k.key ==> !Later(l, k.life, k.epoch)
  }

  lemma NewestIff(s: State, pod: PodId, key: Key)
    requires Fenced(s) && (pod, key) in s.held && key in s.table.rows && s.table.rows[key].owner == pod
    ensures s.held[(pod, key)] == TokenOf(s.table, key, pod) <==> Newest(s, s.held[(pod, key)])
  {
    var k, now := s.held[(pod, key)], TokenOf(s.table, key, pod);
    assert k in s.granted && now in s.granted;
    if Newest(s, k) {
      assert !Later(now, k.life, k.epoch) && !Later(k, now.life, now.epoch);
    }
  }

  /** When an owner's belief is right, in every run whatever the pods do: a pod that owns a row and believes it holds it
      believes the row's epoch, granted in the row's lifetime, exactly when no grant ever made to it for that key is of a
      later reign than the one it believes. */
  lemma BeliefIff(steps: seq<Step>, ttl: PodId -> nat, pod: PodId, key: Key)
    requires var s := Run(START, steps, ttl);
      (pod, key) in s.held && key in s.table.rows && s.table.rows[key].owner == pod
    ensures var s := Run(START, steps, ttl);
      s.held[(pod, key)] == TokenOf(s.table, key, pod) <==> Newest(s, s.held[(pod, key)])
  {
    hide Run, Next, Fenced, Newest;
    FencedLaw(steps, ttl);
    NewestIff(Run(START, steps, ttl), pod, key);
  }

  /** The pod asks for this lease only when it neither believes it holds it nor waits for an earlier answer. */
  predicate Disciplined(s: State, step: Step, pod: PodId, key: Key) {
    step.AcquireStmt? && step.pod == pod && step.key == key ==>
      && (pod, key) !in s.held
      && forall k :: k in s.flying ==> (k.pod, k.key) != (pod, key)
  }

  predicate AlwaysDisciplined(steps: seq<Step>, ttl: PodId -> nat, pod: PodId, key: Key) {
    steps == [] ||
    (AlwaysDisciplined(steps[..|steps| - 1], ttl, pod, key)
     && Disciplined(Run(START, steps[..|steps| - 1], ttl), steps[|steps| - 1], pod, key))
  }

  /** What the pod believes about the key, or is about to learn, is the newest it was granted; never both at once. */
  ghost predicate UpToDate(s: State, pod: PodId, key: Key) {
    && ((pod, key) in s.held ==> Newest(s, s.held[(pod, key)]))
    && (forall k :: k in s.flying && (k.pod, k.key) == (pod, key) ==> Newest(s, k) && (pod, key) !in s.held)
    && (forall k, l :: k in s.flying && l in s.flying && (k.pod, k.key) == (pod, key) == (l.pod, l.key) ==> k == l)
  }

  lemma GrantIsNewest(s: State, pod: PodId, key: Key, addr: string, ttl: PodId -> nat)
    requires Fenced(s) && MayTake(s.table, key, pod)
    ensures var u := Next(s, AcquireStmt(pod, key, addr), ttl); Newest(u, TokenOf(u.table, key, pod))
  {
  }

  lemma StepKeepsUpToDate(s: State, step: Step, ttl: PodId -> nat, pod: PodId, key: Key)
    requires Fenced(s) && UpToDate(s, pod, key) && Disciplined(s, step, pod, key)
    ensures UpToDate(Next(s, step, ttl), pod, key)
  {
    assert forall x :: x in s.held ==> x == (s.held[x].pod, s.held[x].key);
    match step
    case AcquireStmt(p, k, addr) =>
      if MayTake(s.table, k, p) {
        GrantIsNewest(s, p, k, addr, ttl);
      }
      hide Fenced, Upsert, MayTake;
    case _ => hide Fenced;
  }

  lemma {:induction false} UpToDateLaw(steps: seq<Step>, ttl: PodId -> nat, pod: PodId, key: Key)
    requires AlwaysDisciplined(steps, ttl, pod, key)
    ensures UpToDate(Run(START, steps, ttl), pod, key)
  {
    if steps != [] {
      hide UpToDate, Next, Disciplined;
      UpToDateLaw(steps[..|steps| - 1], ttl, pod, key);
      FencedLaw(steps[..|steps| - 1], ttl);
      StepKeepsUpToDate(Run(START, steps[..|steps| - 1], ttl), steps[|steps| - 1], ttl, pod, key);
    }
  }

  /** What a pod can arrange for itself, however all others behave: if it never asks for a lease while it believes it
      holds it or waits for an answer, then whenever it owns the row and believes so, it believes the row's epoch. */
  lemma BeliefLaw(steps: seq<Step>, ttl: PodId -> nat, pod: PodId, key: Key)
    requires AlwaysDisciplined(steps, ttl, pod, key)
    requires var s := Run(START, steps, ttl);
      (pod, key) in s.held && key in s.table.rows && s.table.rows[key].owner == pod
    ensures var s := Run(START, steps, ttl); s.held[(pod, key)] == TokenOf(s.table, key, pod)
  {
    hide Run, Next, Newest;
    UpToDateLaw(steps, ttl, pod, key);
    BeliefIff(steps, ttl, pod, key);
  }

  /** Without that discipline it fails: a's first answer, delivered after its third grant, brings its belief back to
      epoch 1 although it owns the row at epoch 3. */
  const LATE: seq<Step> := [
    AcquireStmt("a", "g", ""), Tick(11), AcquireStmt("b", "g", ""), Tick(11), AcquireStmt("a", "g", ""),
    AcquireAnswer(Token("a", "g", 3, 0)), AcquireAnswer(Token("a", "g", 1, 0))]

  lemma LateAnswerMisleadsOwner()
    ensures var s := Run(START, LATE, TenSeconds());
      && "g" in s.table.rows && s.table.rows["g"].owner == "a" && s.table.rows["g"].epoch == 3
      && ("a", "g") in s.held && s.held[("a", "g")].epoch == 1
  {
    forall i: nat | i < |LATE|
      ensures Run(START, LATE[..i + 1], TenSeconds()) == Next(Run(START, LATE[..i], TenSeconds()), LATE[i], TenSeconds())
    {
      assert LATE[..i + 1][..i] == LATE[..i];
    }
    assert LATE[..0] == [] && LATE[..7] == LATE;
    var s3 := Run(START, LATE[..3], TenSeconds());
    assert Run(START, LATE[..1], TenSeconds()).table.rows["g"] == Row("a", "", 1, 10, 0);
    assert s3.table.rows["g"] == Row("b", "", 2, 21, 0);
    var s5 := Run(START, LATE[..5], TenSeconds());
    assert s5.table.rows["g"] == Row("a", "", 3, 32, 0);
    assert Token("a", "g", 1, 0) in s5.flying && Token("a", "g", 3, 0) in s5.flying;
    var s6 := Run(START, LATE[..6], TenSeconds());
    assert Token("a", "g", 1, 0) in s6.flying;
  }

  // ---- Stability ----

  /** A successful statement by which pod extends its own row. */
  predicate Beats(step: Step, pod: PodId, key: Key) {
    (step.AcquireStmt? && step.pod == pod && step.key == key) || step == RenewStmt(pod)
  }

  predicate LetsGo(step: Step, pod: PodId, key: Key) {
    step == ReleaseStmt(pod, key) || step == DeleteAllStmt(pod)
  }

  /** When pod last extended its row in a run from s, the time before the run being `since`. */
  function LastBeat(s: State, steps: seq<Step>, ttl: PodId -> nat, pod: PodId, key: Key, since: int): int {
    if steps == [] then since
    else
      var before := steps[..|steps| - 1];
      if Beats(steps[|steps| - 1], pod, key) then Run(s, before, ttl).table.now
      else LastBeat(s, before, ttl, pod, key, since)
  }

  /** At every point of the run, at most one TTL of database time has passed since pod last extended the row, and pod
      never lets the row go. */
  predicate Punctual(s: State, steps: seq<Step>, ttl: PodId -> nat, pod: PodId, key: Key, since: int) {
    steps == [] ||
    var before := steps[..|steps| - 1];
    && Punctual(s, before, ttl, pod, key, since)
    && Run(s, before, ttl).table.now - LastBeat(s, before, ttl, pod, key, since) <= ttl(pod)
    && !LetsGo(steps[|steps| - 1], pod, key)
  }

  /** pod owns the row, which lives one TTL beyond `since`. */
  predicate OwnsSince(t: Table, pod: PodId, key: Key, ttl: PodId -> nat, since: int) {
    key in t.rows && t.rows[key].owner == pod && t.rows[key].expiresAt == since + ttl(pod)
  }

  ghost predicate SameOthers(s: State, u: State, pod: PodId, key: Key) {
    forall k: Token :: k.key == key && k.pod != pod ==> (k in u.granted <==> k in s.granted)
  }

  lemma PunctualStep(s: State, step: Step, ttl: PodId -> nat, pod: PodId, key: Key, since: int)
    requires OwnsSince(s.table, pod, key, ttl, since) && s.table.now - since <= ttl(pod) && !LetsGo(step, pod, key)
    ensures var u := Next(s, step, ttl);
      && OwnsSince(u.table, pod, key, ttl, if Beats(step, pod, key) then s.table.now else since)
      && u.table.rows[key].epoch == s.table.rows[key].epoch && u.table.rows[key].life == s.table.rows[key].life
      && SameOthers(s, u, pod, key)
  {
  }

  /** Lease stability: while an owner's extensions keep coming within one TTL of each other, in any interleaving with
      any other pods' statements, owner, epoch and lifetime of the row never change and nobody else is granted it. */
  lemma {:induction false} StabilityLaw(s: State, steps: seq<Step>, ttl: PodId -> nat, pod: PodId, key: Key, since: int)
    requires OwnsSince(s.table, pod, key, ttl, since) && Punctual(s, steps, ttl, pod, key, since)
    ensures var u := Run(s, steps, ttl);
      && OwnsSince(u.table, pod, key, ttl, LastBeat(s, steps, ttl, pod, key, since))
      && u.table.rows[key].epoch == s.table.rows[key].epoch && u.table.rows[key].life == s.table.rows[key].life
      && SameOthers(s, u, pod, key)
  {
    hide Next;
    if steps != [] {
      var before, last := steps[..|steps| - 1], steps[|steps| - 1];
      StabilityLaw(s, before, ttl, pod, key, since);
      PunctualStep(Run(s, before, ttl), last, ttl, pod, key, LastBeat(s, before, ttl, pod, key, since));
    }
  }

  /** Takeover: when the owner stops extending its row, no other statement does it in its place, so one TTL after its
      last extension the row is free for any pod, unless another pod has it already. */
  lemma {:induction false} AbandonedLaw(s: State, steps: seq<Step>, ttl: PodId -> nat, pod: PodId, key: Key, since: int)
    requires OwnsSince(s.table, pod, key, ttl, since)
    requires forall i | 0 <= i < |steps| :: !Beats(steps[i], pod, key)
    ensures var t := Run(s, steps, ttl).table;
      && (key in t.rows && t.rows[key].owner == pod ==> t.rows[key] == s.table.rows[key])
      && (t.now > since + ttl(pod) ==> (key in t.rows && t.rows[key].owner != pod) || forall other :: MayTake(t, key, other))
  {
    if steps != [] {
      AbandonedLaw(s, steps[..|steps| - 1], ttl, pod, key, since);
    }
  }
}
