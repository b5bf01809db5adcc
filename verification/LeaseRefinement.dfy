/** The lease manager's calls are runs of the protocol: each is a sequence of protocol steps with the same effect on the
    table and on the pod's beliefs, so what holds of every run of the protocol holds of pods that use the manager. */
module LeaseRefinement {
  import opened Lease
  import opened Fencing

  /** The protocol state shows this pod's view: the same table, and beliefs in the same epochs. */
  ghost predicate Shows(s: State, pod: PodId, v: PodView) {
    && s.table == v.table
    && (forall key :: key in v.held <==> (pod, key) in s.held)
    && (forall key :: key in v.held ==> v.held[key] == s.held[(pod, key)].epoch)
  }

  /** Other pods' beliefs are the same. */
  ghost predicate OthersSame(s: State, u: State, pod: PodId) {
    forall x: (PodId, Key) :: x.0 != pod ==> (x in u.held <==> x in s.held) && (x in s.held ==> u.held[x] == s.held[x])
  }

  lemma {:induction false} RunOn(s: State, first: seq<Step>, more: seq<Step>, ttl: PodId -> nat)
    ensures Run(s, first + more, ttl) == Run(Run(s, first, ttl), more, ttl)
  {
    hide Next;
    if more == [] {
      assert first + more == first;
    } else {
      var n := |more| - 1;
      RunOn(s, first, more[..n], ttl);
      assert (first + more)[..|first + more| - 1] == first + more[..n];
    }
  }

  lemma RunOne(s: State, step: Step, ttl: PodId -> nat)
    ensures Run(s, [step], ttl) == Next(s, step, ttl)
  {
    assert [step][..0] == [];
  }

  lemma RunTwo(s: State, first: Step, second: Step, ttl: PodId -> nat)
    ensures Run(s, [first, second], ttl) == Next(Next(s, first, ttl), second, ttl)
  {
    assert [first, second][..1] == [first];
    RunOne(s, first, ttl);
  }

  lemma AcquireIsRun(s: State, pod: PodId, v: PodView, key: Key, addr: string, link: Link, ttl: PodId -> nat)
    returns (steps: seq<Step>)
    requires Shows(s, pod, v)
    ensures Shows(Run(s, steps, ttl), pod, AfterAcquire(v, key, pod, addr, ttl(pod), link))
    ensures OthersSame(s, Run(s, steps, ttl), pod)
  {
    if Executed(link) && MayTake(s.table, key, pod) {
      var token := TokenOf(Upsert(s.table, key, pod, addr, ttl(pod)), key, pod);
      steps := [AcquireStmt(pod, key, addr), if link == Answered then AcquireAnswer(token) else LoseAnswer(token)];
      RunTwo(s, steps[0], steps[1], ttl);
    } else {
      steps := [];
    }
    hide Run;
    NothingRuns(s, ttl);
  }

  lemma NothingRuns(s: State, ttl: PodId -> nat)
    ensures Run(s, [], ttl) == s
  {
  }

  lemma ReleaseIsRun(s: State, pod: PodId, v: PodView, key: Key, link: Link, ttl: PodId -> nat) returns (steps: seq<Step>)
    requires Shows(s, pod, v)
    ensures Shows(Run(s, steps, ttl), pod, AfterRelease(v, key, pod, link))
    ensures OthersSame(s, Run(s, steps, ttl), pod)
  {
    if Executed(link) {
      steps := [ReleaseStmt(pod, key), Forget(pod, key)];
      RunTwo(s, steps[0], steps[1], ttl);
    } else {
      steps := [Forget(pod, key)];
      RunOne(s, steps[0], ttl);
    }
    hide Run;
  }

  /** Forgetting several leases, one after the other. */
  lemma {:induction false} ForgetIsRun(s: State, pod: PodId, v: PodView, lost: set<Key>, ttl: PodId -> nat)
    returns (steps: seq<Step>)
    requires Shows(s, pod, v)
    ensures Shows(Run(s, steps, ttl), pod, PodView(v.table, v.held - lost))
    ensures OthersSame(s, Run(s, steps, ttl), pod)
    decreases lost
  {
    if lost == {} {
      steps := [];
      assert v.held - lost == v.held;
    } else {
      var key :| key in lost;
      steps := ForgetIsRun(s, pod, v, lost - {key}, ttl);
      var before := steps;
      steps := before + [Forget(pod, key)];
      RunOn(s, before, [Forget(pod, key)], ttl);
      RunOne(Run(s, before, ttl), Forget(pod, key), ttl);
      hide Run, Next;
      ForgetOne(Run(s, before, ttl), pod, PodView(v.table, v.held - (lost - {key})), key, ttl);
      assert v.held - lost == (v.held - (lost - {key})) - {key};
    }
  }

  lemma ForgetOne(s: State, pod: PodId, v: PodView, key: Key, ttl: PodId -> nat)
    requires Shows(s, pod, v)
    ensures var u := Next(s, Forget(pod, key), ttl); Shows(u, pod, PodView(v.table, v.held - {key})) && OthersSame(s, u, pod)
  {
  }

  /** A statement by which no belief changes, then forgetting. */
  lemma StatementThenForget(s: State, pod: PodId, v: PodView, step: Step, table: Table, lost: set<Key>, ttl: PodId -> nat)
    returns (steps: seq<Step>)
    requires Shows(s, pod, v) && Next(s, step, ttl) == s.(table := table)
    ensures Shows(Run(s, steps, ttl), pod, PodView(table, v.held - lost))
    ensures OthersSame(s, Run(s, steps, ttl), pod)
  {
    var u := Next(s, step, ttl);
    hide Next, Run;
    RunOne(s, step, ttl);
    var more := ForgetIsRun(u, pod, PodView(table, v.held), lost, ttl);
    RunOn(s, [step], more, ttl);
    steps := [step] + more;
  }

  lemma RenewIsRun(s: State, pod: PodId, v: PodView, link: Link, ttl: PodId -> nat) returns (steps: seq<Step>)
    requires Shows(s, pod, v)
    ensures Shows(Run(s, steps, ttl), pod, AfterRenew(v, pod, ttl(pod), link))
    ensures OthersSame(s, Run(s, steps, ttl), pod)
  {
    if Executed(link) {
      var lost := if link == Answered then v.held.Keys - OwnedBy(v.table, pod) else {};
      steps := StatementThenForget(s, pod, v, RenewStmt(pod), Renewed(s.table, pod, ttl(pod)), lost, ttl);
      assert link != Answered ==> v.held - lost == v.held;
    } else {
      steps := [];
    }
  }

  lemma CloseIsRun(s: State, pod: PodId, v: PodView, link: Link, ttl: PodId -> nat) returns (steps: seq<Step>)
    requires Shows(s, pod, v)
    ensures Shows(Run(s, steps, ttl), pod, AfterClose(v, pod, link))
    ensures OthersSame(s, Run(s, steps, ttl), pod)
  {
    if Executed(link) {
      var lost := if link == Answered then v.held.Keys else {};
      steps := StatementThenForget(s, pod, v, DeleteAllStmt(pod), DeleteAll(s.table, pod), lost, ttl);
      assert v.held - lost == if link == Answered then map[] else v.held;
    } else {
      steps := [];
    }
  }

  // ---- Pods that use the manager ----

  /** A call of the manager. */
  datatype Call =
    | Acquire(key: Key, addr: string, link: Link)
    | Release(released: Key, releaseLink: Link)
    | Renew(renewed: Link)
    | Close(closed: Link)

  function After(v: PodView, pod: PodId, call: Call, ttl: nat): PodView {
    match call
    case Acquire(key, addr, link) => AfterAcquire(v, key, pod, addr, ttl, link)
    case Release(key, link) => AfterRelease(v, key, pod, link)
    case Renew(link) => AfterRenew(v, pod, ttl, link)
    case Close(link) => AfterClose(v, pod, link)
  }

  /** Every call of any pod's manager, in any reachable state and whatever becomes of its statement, continues the run of
      the protocol, other pods' beliefs untouched; so the fencing invariant holds after it. */
  lemma CallIsRun(before: seq<Step>, pod: PodId, v: PodView, call: Call, ttl: PodId -> nat) returns (steps: seq<Step>)
    requires Shows(Run(START, before, ttl), pod, v)
    ensures var u := Run(START, before + steps, ttl);
      Shows(u, pod, After(v, pod, call, ttl(pod))) && OthersSame(Run(START, before, ttl), u, pod) && Fenced(u)
  {
    hide Shows, OthersSame, Run, Next, Fenced;
    var s := Run(START, before, ttl);
    match call {
      case Acquire(key, addr, link) => steps := AcquireIsRun(s, pod, v, key, addr, link, ttl);
      case Release(key, link) => steps := ReleaseIsRun(s, pod, v, key, link, ttl);
      case Renew(link) => steps := RenewIsRun(s, pod, v, link, ttl);
      case Close(link) => steps := CloseIsRun(s, pod, v, link, ttl);
    }
    RunOn(START, before, steps, ttl);
    FencedLaw(before + steps, ttl);
  }

  // ---- Candidates for a role ----

  /** The protocol state shows this candidate's view: it leads exactly when it believes to hold the role's row. */
  ghost predicate ShowsElector(s: State, pod: PodId, role: Key, v: ElectorView) {
    && s.table == v.table
    && (v.leading <==> (pod, role) in s.held)
    && (v.leading ==> v.epoch == s.held[(pod, role)].epoch)
  }

  /** Every other belief of any pod is the same. */
  ghost predicate RestSame(s: State, u: State, pod: PodId, role: Key) {
    forall x: (PodId, Key) :: x != (pod, role) ==> (x in u.held <==> x in s.held) && (x in s.held ==> u.held[x] == s.held[x])
  }

  lemma CampaignIsRun(s: State, pod: PodId, role: Key, v: ElectorView, link: Link, ttl: PodId -> nat) returns (steps: seq<Step>)
    requires ShowsElector(s, pod, role, v)
    ensures ShowsElector(Run(s, steps, ttl), pod, role, AfterCampaign(v, role, pod, ttl(pod), link))
    ensures RestSame(s, Run(s, steps, ttl), pod, role)
  {
    if Executed(link) && MayTake(s.table, role, pod) {
      var token := TokenOf(Upsert(s.table, role, pod, "", ttl(pod)), role, pod);
      steps := [AcquireStmt(pod, role, ""), if link == Answered then AcquireAnswer(token) else LoseAnswer(token)];
      RunTwo(s, steps[0], steps[1], ttl);
    } else if link == Answered || link == Raced {
      steps := [Forget(pod, role)];
      RunOne(s, steps[0], ttl);
    } else {
      steps := [];
    }
    hide Run;
    NothingRuns(s, ttl);
  }

  lemma ResignationIsRun(s: State, pod: PodId, role: Key, v: ElectorView, link: Link, ttl: PodId -> nat) returns (steps: seq<Step>)
    requires ShowsElector(s, pod, role, v)
    ensures ShowsElector(Run(s, steps, ttl), pod, role, AfterResignation(v, role, pod, link))
    ensures RestSame(s, Run(s, steps, ttl), pod, role)
  {
    if Executed(link) {
      steps := [ReleaseStmt(pod, role), Forget(pod, role)];
      RunTwo(s, steps[0], steps[1], ttl);
    } else {
      steps := [Forget(pod, role)];
      RunOne(s, steps[0], ttl);
    }
    hide Run;
  }

  datatype ElectorCall = Campaign(link: Link) | Resign(link: Link)

  function AfterElectorCall(v: ElectorView, role: Key, pod: PodId, call: ElectorCall, ttl: nat): ElectorView {
    match call
    case Campaign(link) => AfterCampaign(v, role, pod, ttl, link)
    case Resign(link) => AfterResignation(v, role, pod, link)
  }

  /** The same for candidates: every campaign and every resignation, in any reachable state and whatever becomes of its
      statement, continues the run of the protocol and touches no belief but the candidate's own about this role. */
  lemma ElectorCallIsRun(before: seq<Step>, pod: PodId, role: Key, v: ElectorView, call: ElectorCall, ttl: PodId -> nat)
    returns (steps: seq<Step>)
    requires ShowsElector(Run(START, before, ttl), pod, role, v)
    ensures var u := Run(START, before + steps, ttl);
      && ShowsElector(u, pod, role, AfterElectorCall(v, role, pod, call, ttl(pod)))
      && RestSame(Run(START, before, ttl), u, pod, role) && Fenced(u)
  {
    hide ShowsElector, RestSame, Run, Next, Fenced;
    var s := Run(START, before, ttl);
    match call {
      case Campaign(link) => steps := CampaignIsRun(s, pod, role, v, link, ttl);
      case Resign(link) => steps := ResignationIsRun(s, pod, role, v, link, ttl);
    }
    RunOn(START, before, steps, ttl);
    FencedLaw(before + steps, ttl);
  }
}
