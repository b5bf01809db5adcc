/** Pairing of queued users: greedy 1v1 pairing within wait-widened rating bands, and the grouping for larger rooms. */
module Matcher {
  import opened Wrappers
  import opened Arith

  type UserId = string

  /** A queue row as the tick reads it; `ticket` identifies the enqueuing and is not a column. Times in nanoseconds. */
  datatype QueuedUser = QueuedUser(user: UserId, ticket: nat, rating: int, enqueuedAt: int)

  const SECOND: int := 1_000_000_000
  const BAND_BASE: real := 100.0
  const BAND_GROWTH_PER_SECOND: real := 10.0
  const BAND_MAX: real := 1000.0

  /** The rating difference a user accepts after waiting this long. */
  function ScoreBandFor(age: int): (band: real)
    ensures band <= BAND_MAX
  {
    var band := BAND_BASE + (age as real / SECOND as real) * BAND_GROWTH_PER_SECOND;
    if band > BAND_MAX then BAND_MAX else band
  }

  function Delta(a: QueuedUser, b: QueuedUser): (d: int)
    ensures d == Abs(a.rating - b.rating)
  {
    if a.rating >= b.rating then a.rating - b.rating else b.rating - a.rating
  }

  /** The wider of two users' bands. */
  function Band(a: QueuedUser, b: QueuedUser, now: int): real {
    var x, y := ScoreBandFor(now - a.enqueuedAt), ScoreBandFor(now - b.enqueuedAt);
    if y > x then y else x
  }

  predicate Within(a: QueuedUser, b: QueuedUser, now: int) {
    Delta(a, b) as real <= Band(a, b, now)
  }

  /** How long the one of two users who has waited longer has waited, in nanoseconds. */
  function LongerWait(a: QueuedUser, b: QueuedUser, now: int): int {
    now - if a.enqueuedAt <= b.enqueuedAt then a.enqueuedAt else b.enqueuedAt
  }

  lemma BandAfter(wait: nat, delta: nat)
    ensures delta as real <= ScoreBandFor(wait) <==> delta <= 100 || (delta <= 1000 && wait * 10 >= (delta - 100) * SECOND)
  {
    var grown := wait as real / SECOND as real * BAND_GROWTH_PER_SECOND;
    assert grown == (wait * 10) as real / SECOND as real;
    assert grown * SECOND as real == (wait * 10) as real;
    assert wait * 10 >= (delta - 100) * SECOND <==> grown >= (delta - 100) as real;
  }

  lemma BandGrows(short: nat, long: nat)
    requires short <= long
    ensures ScoreBandFor(short) <= ScoreBandFor(long)
  {
    assert short as real / SECOND as real <= long as real / SECOND as real;
  }

  /** The exact waiting time: users within 100 points accept each other at once; those farther apart but within 1000 do
      from the moment on when the one who has waited longer has waited a second for every ten points beyond 100; others
      never do. */
  lemma WaitingTime(a: QueuedUser, b: QueuedUser, now: int)
    requires a.enqueuedAt <= now && b.enqueuedAt <= now
    ensures Within(a, b, now) <==>
      Delta(a, b) <= 100 || (Delta(a, b) <= 1000 && LongerWait(a, b, now) * 10 >= (Delta(a, b) - 100) * SECOND)
  {
    hide ScoreBandFor;
    var x, y := now - a.enqueuedAt, now - b.enqueuedAt;
    if x <= y {
      BandGrows(x, y);
      BandAfter(y, Delta(a, b));
    } else {
      BandGrows(y, x);
      BandAfter(x, Delta(a, b));
    }
  }

  /** Two users come within band of each other at some time exactly when their ratings differ by at most the cap:
      waiting does not make everybody acceptable. */
  lemma EventuallyWithinIffUnderCap(a: QueuedUser, b: QueuedUser)
    ensures (exists now :: Within(a, b, now)) <==> Delta(a, b) <= 1000
  {
    if Delta(a, b) <= 1000 {
      assert Within(a, b, a.enqueuedAt + 90 * SECOND);
    }
  }

  // ---- Specification of pair1v1 ----

  type Pairs = seq<(nat, nat)>

  predicate Taken(pairs: Pairs, c: nat) {
    exists k :: 0 <= k < |pairs| && (c == pairs[k].0 || c == pairs[k].1)
  }

  predicate Candidate(qs: seq<QueuedUser>, now: int, pairs: Pairs, i: nat, j: nat)
    requires i < |qs| && j < |qs|
  {
    !Taken(pairs, j) && Within(qs[i], qs[j], now)
  }

  /** The free partner of user i before position j that is closest in rating, the first one among equals. */
  function Best(qs: seq<QueuedUser>, now: int, pairs: Pairs, i: nat, j: nat): (best: Option<nat>)
    requires i < j <= |qs|
    ensures best.Some? ==> i < best.value < j
  {
    if j == i + 1 then None
    else
      var best := Best(qs, now, pairs, i, j - 1);
      if Candidate(qs, now, pairs, i, j - 1)
         && (best == None || Delta(qs[i], qs[j - 1]) < Delta(qs[i], qs[best.value]))
      then Some(j - 1) else best
  }

  /** The pairs made when the first i users have had their turn. */
  function PairsAfter(qs: seq<QueuedUser>, now: int, i: nat): Pairs
    requires i <= |qs|
  {
    if i == 0 then []
    else
      var pairs := PairsAfter(qs, now, i - 1);
      if Taken(pairs, i - 1) then pairs
      else
        match Best(qs, now, pairs, i - 1, |qs|)
        case None => pairs
        case Some(b) => pairs + [(i - 1, b)]
  }

  function Users(qs: seq<QueuedUser>, pairs: Pairs): seq<seq<QueuedUser>>
    requires InQueue(pairs, |qs|)
  {
    seq(|pairs|, k requires 0 <= k < |pairs| => [qs[pairs[k].0], qs[pairs[k].1]])
  }

  predicate InQueue(pairs: Pairs, n: nat) {
    forall k | 0 <= k < |pairs| :: pairs[k].0 < pairs[k].1 < n
  }

  lemma {:induction false} PairsInQueue(qs: seq<QueuedUser>, now: int, i: nat)
    requires i <= |qs|
    ensures InQueue(PairsAfter(qs, now, i), |qs|)
  {
    if i > 0 {
      PairsInQueue(qs, now, i - 1);
    }
  }

  function Pair1v1(qs: seq<QueuedUser>, now: int): seq<seq<QueuedUser>> {
    PairsInQueue(qs, now, |qs|);
    Users(qs, PairsAfter(qs, now, |qs|))
  }

  // ---- The loops ----

  method PairUsers(qs: seq<QueuedUser>, now: int) returns (out: seq<seq<QueuedUser>>)
    ensures out == Pair1v1(qs, now)
  {
    hide Within, Candidate, Best, Delta;
    out := [];
    if |qs| < 2 {
      assert |qs| == 1 ==> PairsAfter(qs, now, 1) == [];
      return;
    }
    var matched := new bool[|qs|](_ => false);
    ghost var pairs: Pairs := [];
    var i := 0;
    while i < |qs|
      invariant i <= |qs|
      invariant pairs == PairsAfter(qs, now, i) && InQueue(pairs, |qs|) && out == Users(qs, pairs)
      invariant forall c: nat | c < |qs| :: matched[c] == Taken(pairs, c)
    {
      if !matched[i] {
        var best := ClosestFree(qs, now, pairs, i, matched);
        if best.Some? {
          TakenGrows(pairs, i, best.value);
          pairs := pairs + [(i, best.value)];
          out := out + [[qs[i], qs[best.value]]];
          matched[i] := true;
          matched[best.value] := true;
        }
      }
      i := i + 1;
    }
  }

  /** The inner loop: scans the users after i that nobody has taken yet. */
  method ClosestFree(qs: seq<QueuedUser>, now: int, ghost pairs: Pairs, i: nat, matched: array<bool>) returns (best: Option<nat>)
    requires i < |qs| == matched.Length && forall c: nat | c < |qs| :: matched[c] == Taken(pairs, c)
    ensures best == Best(qs, now, pairs, i, |qs|)
  {
    hide Within, Taken;
    best := None;
    var j := i + 1;
    while j < |qs|
      invariant i < j <= |qs| && best == Best(qs, now, pairs, i, j)
    {
      if !matched[j] && Within(qs[i], qs[j], now) {
        if best == None || Delta(qs[i], qs[j]) < Delta(qs[i], qs[best.value]) {
          best := Some(j);
        }
      }
      j := j + 1;
    }
  }

  lemma TakenGrows(pairs: Pairs, a: nat, b: nat)
    ensures forall c: nat :: Taken(pairs + [(a, b)], c) <==> Taken(pairs, c) || c == a || c == b
  {
    var more := pairs + [(a, b)];
    assert more[|pairs|] == (a, b);
    forall c: nat | Taken(pairs, c)
      ensures Taken(more, c)
    {
      var k :| 0 <= k < |pairs| && (c == pairs[k].0 || c == pairs[k].1);
      assert more[k] == pairs[k];
    }
  }

  // ---- What the pairing achieves ----

  /** Best is a candidate no farther than any other and the first at its distance; there is none only if nobody is. */
  lemma {:induction false} BestIsClosest(qs: seq<QueuedUser>, now: int, pairs: Pairs, i: nat, j: nat)
    requires i < j <= |qs|
    ensures var best := Best(qs, now, pairs, i, j);
      && (best == None ==> forall c | i < c < j :: !Candidate(qs, now, pairs, i, c))
      && (best.Some? ==>
            && Candidate(qs, now, pairs, i, best.value)
            && forall c | i < c < j && Candidate(qs, now, pairs, i, c) ::
              (Delta(qs[i], qs[best.value]) < Delta(qs[i], qs[c])
               || (Delta(qs[i], qs[best.value]) == Delta(qs[i], qs[c]) && best.value <= c)))
  {
    hide Within, Taken;
    if j > i + 1 {
      BestIsClosest(qs, now, pairs, i, j - 1);
    }
  }

  lemma WithinIsSymmetric(a: QueuedUser, b: QueuedUser, now: int)
    ensures Within(a, b, now) == Within(b, a, now) && Delta(a, b) == Delta(b, a)
  {
  }

  /** No user is in two pairs. */
  predicate Disjoint(pairs: Pairs) {
    forall k | 0 <= k < |pairs| :: !Taken(pairs[..k], pairs[k].0) && !Taken(pairs[..k], pairs[k].1)
  }

  /** Each pair, when it was made, took its first user's closest free partner among all users then free. */
  predicate EachClosest(qs: seq<QueuedUser>, now: int, pairs: Pairs)
    requires InQueue(pairs, |qs|)
  {
    forall k, c: nat | 0 <= k < |pairs| && c < |qs| && c != pairs[k].0 && !Taken(pairs[..k], c) && Within(qs[pairs[k].0], qs[c], now) ::
      Delta(qs[pairs[k].0], qs[pairs[k].1]) <= Delta(qs[pairs[k].0], qs[c])
  }

  /** Users who have had their turn and are still free are within band of no free user. */
  predicate NoneLeft(qs: seq<QueuedUser>, now: int, pairs: Pairs, i: nat)
    requires i <= |qs|
  {
    forall a: nat, b: nat | a < i && a < b < |qs| && !Taken(pairs, a) && !Taken(pairs, b) :: !Within(qs[a], qs[b], now)
  }

  predicate AllWithin(qs: seq<QueuedUser>, now: int, pairs: Pairs)
    requires InQueue(pairs, |qs|)
  {
    forall k | 0 <= k < |pairs| :: Within(qs[pairs[k].0], qs[pairs[k].1], now)
  }

  ghost predicate Greedy(qs: seq<QueuedUser>, now: int, pairs: Pairs, i: nat)
    requires i <= |qs|
  {
    InQueue(pairs, |qs|) && Disjoint(pairs) && AllWithin(qs, now, pairs) && EachClosest(qs, now, pairs) && NoneLeft(qs, now, pairs, i)
  }

  lemma NoneLeftStep(qs: seq<QueuedUser>, now: int, pairs: Pairs, more: Pairs, i: nat)
    requires i < |qs| && NoneLeft(qs, now, pairs, i)
    requires forall c: nat | Taken(pairs, c) :: Taken(more, c)
    requires !Taken(more, i) ==> forall b: nat | i < b < |qs| && !Taken(more, b) :: !Within(qs[i], qs[b], now)
    ensures NoneLeft(qs, now, more, i + 1)
  {
    hide Taken, Within;
  }

  lemma ClosestStep(qs: seq<QueuedUser>, now: int, pairs: Pairs, i: nat, b: nat)
    requires i < |qs| && Greedy(qs, now, pairs, i) && !Taken(pairs, i) && Best(qs, now, pairs, i, |qs|) == Some(b)
    ensures EachClosest(qs, now, pairs + [(i, b)])
  {
    hide Taken, Within, Disjoint, Best, Delta;
    BestIsClosest(qs, now, pairs, i, |qs|);
    var more := pairs + [(i, b)];
    forall k, c: nat | 0 <= k < |more| && c < |qs| && c != more[k].0 && !Taken(more[..k], c) && Within(qs[more[k].0], qs[c], now)
      ensures Delta(qs[more[k].0], qs[more[k].1]) <= Delta(qs[more[k].0], qs[c])
    {
      if k < |pairs| {
        assert more[..k] == pairs[..k] && more[k] == pairs[k];
      } else {
        assert more[..k] == pairs && more[k] == (i, b);
        WithinIsSymmetric(qs[i], qs[c], now);
        assert Candidate(qs, now, pairs, i, c);
      }
    }
  }

  lemma DisjointStep(pairs: Pairs, a: nat, b: nat)
    requires Disjoint(pairs) && !Taken(pairs, a) && !Taken(pairs, b)
    ensures Disjoint(pairs + [(a, b)])
  {
    hide Taken;
    var more := pairs + [(a, b)];
    forall k | 0 <= k < |more|
      ensures !Taken(more[..k], more[k].0) && !Taken(more[..k], more[k].1)
    {
      assert more[..k] == pairs[..k];
    }
  }

  lemma SkipStep(qs: seq<QueuedUser>, now: int, pairs: Pairs, i: nat)
    requires i < |qs| && Greedy(qs, now, pairs, i)
    requires Taken(pairs, i) || Best(qs, now, pairs, i, |qs|) == None
    ensures Greedy(qs, now, pairs, i + 1)
  {
    hide Taken, Within, Best, Disjoint, EachClosest, AllWithin, NoneLeft, Delta;
    BestIsClosest(qs, now, pairs, i, |qs|);
    if !Taken(pairs, i) {
      forall b: nat | i < b < |qs| && !Taken(pairs, b)
        ensures !Within(qs[i], qs[b], now)
      {
        assert !Candidate(qs, now, pairs, i, b);
      }
    }
    NoneLeftStep(qs, now, pairs, pairs, i);
  }

  lemma TakeStep(qs: seq<QueuedUser>, now: int, pairs: Pairs, i: nat, b: nat)
    requires i < |qs| && Greedy(qs, now, pairs, i) && !Taken(pairs, i) && Best(qs, now, pairs, i, |qs|) == Some(b)
    ensures Greedy(qs, now, pairs + [(i, b)], i + 1)
  {
    hide Taken, Within, Best, Disjoint, EachClosest, NoneLeft, Delta;
    BestIsClosest(qs, now, pairs, i, |qs|);
    ClosestStep(qs, now, pairs, i, b);
    DisjointStep(pairs, i, b);
    TakenGrows(pairs, i, b);
    NoneLeftStep(qs, now, pairs, pairs + [(i, b)], i);
  }

  lemma NoPairsAreGreedy(qs: seq<QueuedUser>, now: int)
    ensures Greedy(qs, now, [], 0)
  {
  }

  lemma {:induction false} PairsAreGreedy(qs: seq<QueuedUser>, now: int, i: nat)
    requires i <= |qs|
    ensures Greedy(qs, now, PairsAfter(qs, now, i), i)
  {
    hide Taken, Best, Greedy;
    if i > 0 {
      var pairs := PairsAfter(qs, now, i - 1);
      PairsAreGreedy(qs, now, i - 1);
      if Taken(pairs, i - 1) || Best(qs, now, pairs, i - 1, |qs|) == None {
        SkipStep(qs, now, pairs, i - 1);
      } else {
        TakeStep(qs, now, pairs, i - 1, Best(qs, now, pairs, i - 1, |qs|).value);
      }
    } else {
      NoPairsAreGreedy(qs, now);
    }
  }

  /** pair1v1 makes a maximal matching, for any queue and time: the pairs are disjoint and within the wider of their
      bands, each first user gets a closest partner still free, and no two users left over are within band. */
  lemma MatchingLaw(qs: seq<QueuedUser>, now: int)
    ensures var pairs := PairsAfter(qs, now, |qs|);
      && InQueue(pairs, |qs|) && Disjoint(pairs) && AllWithin(qs, now, pairs) && EachClosest(qs, now, pairs)
      && (forall a: nat, b: nat | a < b < |qs| && !Taken(pairs, a) && !Taken(pairs, b) :: !Within(qs[a], qs[b], now))
  {
    PairsAreGreedy(qs, now, |qs|);
    hide Taken, Within;
  }

  /** Two users alone in the queue are paired exactly from the moment on when they have waited long enough. */
  lemma AlonePairedIff(a: QueuedUser, b: QueuedUser, now: int)
    requires a.enqueuedAt <= now && b.enqueuedAt <= now
    ensures Pair1v1([a, b], now) ==
      if Delta(a, b) <= 100 || (Delta(a, b) <= 1000 && LongerWait(a, b, now) * 10 >= (Delta(a, b) - 100) * SECOND)
      then [[a, b]] else []
  {
    var qs := [a, b];
    WaitingTime(a, b, now);
    hide Within, LongerWait, Delta;
    assert Best(qs, now, [], 0, 1) == None;
    assert Candidate(qs, now, [], 0, 1) <==> Within(a, b, now);
    assert PairsAfter(qs, now, 1) == if Within(a, b, now) then [(0, 1)] else [];
    assert Taken([(0, 1)], 1) by {
      assert [(0, 1)][0].1 == 1;
    }
    assert Best(qs, now, [], 1, 2) == None;
    assert PairsAfter(qs, now, 2) == PairsAfter(qs, now, 1);
  }

  // ---- Larger rooms ----

  const MIN_MULTI_SEATS: nat := 3

  /** How long the oldest user waits before a room of this size starts; below the quorum, a day. */
  function MultiWaitThreshold(occupied: nat): int {
    if occupied >= 6 then 0
    else if occupied == 5 then 5 * SECOND
    else if occupied == 4 then 10 * SECOND
    else if occupied == 3 then 20 * SECOND
    else 24 * 3600 * SECOND
  }

  function PairMulti(qs: seq<QueuedUser>, players: nat, now: int): seq<seq<QueuedUser>> {
    var n := |qs|;
    if n < MIN_MULTI_SEATS then []
    else if n >= players then [qs[..players]]
    else if now - qs[0].enqueuedAt < MultiWaitThreshold(n) then []
    else [qs]
  }

  /** A room is made of the longest-waiting users, at most one a tick, of the quorum up to its full size; a full queue
      never waits; and one more user in the queue never makes a room that could start wait. */
  lemma MultiRoomLaw(qs: seq<QueuedUser>, more: QueuedUser, players: nat, now: int)
    requires MIN_MULTI_SEATS <= players
    ensures var groups := PairMulti(qs, players, now);
      && (groups == [] || (|groups| == 1 && groups[0] <= qs && MIN_MULTI_SEATS <= |groups[0]| <= players))
      && (|qs| >= players ==> groups == [qs[..players]])
      && (groups != [] ==> PairMulti(qs + [more], players, now) != [])
  {
    assert qs != [] ==> (qs + [more])[0] == qs[0];
  }

  /** Longest-waiting first, as the locking query returns the rows. */
  predicate OldestFirst(qs: seq<QueuedUser>) {
    forall i, j | 0 <= i < j < |qs| :: qs[i].enqueuedAt <= qs[j].enqueuedAt
  }

  /** A room that is not full starts exactly when some user in it has waited long enough for its size: 20 seconds for
      three, 10 for four, 5 for five, and no time at all from six on; below the quorum it never does. */
  lemma PartialRoomIff(qs: seq<QueuedUser>, players: nat, now: int)
    requires |qs| < players && OldestFirst(qs) && forall k | 0 <= k < |qs| :: qs[k].enqueuedAt <= now
    ensures PairMulti(qs, players, now) == [qs] || PairMulti(qs, players, now) == []
    ensures PairMulti(qs, players, now) == [qs] <==>
      || (|qs| == 3 && exists k :: 0 <= k < 3 && now - qs[k].enqueuedAt >= 20 * SECOND)
      || (|qs| == 4 && exists k :: 0 <= k < 4 && now - qs[k].enqueuedAt >= 10 * SECOND)
      || (|qs| == 5 && exists k :: 0 <= k < 5 && now - qs[k].enqueuedAt >= 5 * SECOND)
      || |qs| >= 6
  {
    if |qs| >= MIN_MULTI_SEATS {
      assert forall k | 0 <= k < |qs| :: qs[0].enqueuedAt <= qs[k].enqueuedAt;
    }
  }
}
