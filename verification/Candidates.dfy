/** The moves a bot considers: every empty intersection in scan order, ranked by a one-ply score. */
module Candidates {
  import opened Hex
  import opened Runs

  datatype Candidate = Candidate(pos: Position, score: int)

  const WIN_SCORE := 1_000_000

  // ---- Ranking ----

  /** Puts c behind everything that scores at least as much. */
  function Insert(t: seq<Candidate>, c: Candidate): seq<Candidate> {
    if t == [] then [c]
    else
      var last := t[|t| - 1];
      if last.score < c.score then Insert(t[..|t| - 1], c) + [last] else t + [c]
  }

  function Ranking(s: seq<Candidate>): seq<Candidate> {
    if s == [] then [] else Insert(Ranking(s[..|s| - 1]), s[|s| - 1])
  }

  ghost predicate Descending(s: seq<Candidate>) {
    forall i, j :: 0 <= i < j < |s| ==> s[i].score >= s[j].score
  }

  /** The candidates with this score, in order. */
  function WithScore(s: seq<Candidate>, score: int): seq<Candidate> {
    if s == [] then []
    else WithScore(s[..|s| - 1], score) + if s[|s| - 1].score == score then [s[|s| - 1]] else []
  }

  lemma {:induction false} InsertPermutes(t: seq<Candidate>, c: Candidate)
    ensures multiset(Insert(t, c)) == multiset(t) + multiset{c}
  {
    if t != [] && t[|t| - 1].score < c.score {
      InsertPermutes(t[..|t| - 1], c);
      assert t == t[..|t| - 1] + [t[|t| - 1]];
    }
  }

  lemma {:induction false} InsertDescending(t: seq<Candidate>, c: Candidate)
    requires Descending(t)
    ensures Descending(Insert(t, c))
    ensures forall x :: x in Insert(t, c) ==> x in t || x == c
  {
    if t != [] && t[|t| - 1].score < c.score {
      var rest, last := t[..|t| - 1], t[|t| - 1];
      InsertDescending(rest, c);
      forall i | 0 <= i < |Insert(rest, c)| ensures Insert(rest, c)[i].score >= last.score {
        assert Insert(rest, c)[i] in rest || Insert(rest, c)[i] == c;
      }
    }
  }

  lemma {:induction false} InsertKeepsTies(t: seq<Candidate>, c: Candidate, score: int)
    ensures WithScore(Insert(t, c), score) == WithScore(t + [c], score)
  {
    assert (t + [c])[..|t|] == t;
    if t != [] && t[|t| - 1].score < c.score {
      var rest, last := t[..|t| - 1], t[|t| - 1];
      InsertKeepsTies(rest, c, score);
      assert (rest + [c])[..|rest|] == rest;
      assert (Insert(rest, c) + [last])[..|Insert(rest, c)|] == Insert(rest, c);
    }
  }

  /** Ranking puts the candidates in descending order of score and keeps ties in their original order. */
  lemma {:induction false} RankingIsStableSort(s: seq<Candidate>, score: int)
    ensures Descending(Ranking(s)) && multiset(Ranking(s)) == multiset(s)
    ensures WithScore(Ranking(s), score) == WithScore(s, score)
  {
    if s != [] {
      var rest, last := s[..|s| - 1], s[|s| - 1];
      assert s == rest + [last];
      RankingIsStableSort(rest, score);
      InsertDescending(Ranking(rest), last);
      InsertPermutes(Ranking(rest), last);
      InsertKeepsTies(Ranking(rest), last, score);
      assert (Ranking(rest) + [last])[..|Ranking(rest)|] == Ranking(rest);
    }
  }

  /** Column by column, each from its smallest r up. */
  predicate ScannedBefore(p: Position, o: Position) {
    p.q < o.q || (p.q == o.q && p.r < o.r)
  }

  /** c goes before d: it scores more, or as much and was scanned earlier. */
  predicate Ahead(c: Candidate, d: Candidate) {
    c.score > d.score || (c.score == d.score && ScannedBefore(c.pos, d.pos))
  }

  ghost predicate EachAhead(s: seq<Candidate>) {
    forall i, j :: 0 <= i < j < |s| ==> Ahead(s[i], s[j])
  }

  ghost predicate ListedInOrder(s: seq<Candidate>) {
    forall i, j :: 0 <= i < j < |s| ==> ScannedBefore(s[i].pos, s[j].pos)
  }

  lemma {:induction false} InsertAhead(t: seq<Candidate>, c: Candidate)
    requires EachAhead(t) && forall x :: x in t ==> ScannedBefore(x.pos, c.pos)
    ensures EachAhead(Insert(t, c)) && forall x :: x in Insert(t, c) ==> x in t || x == c
  {
    if t != [] {
      var rest, last := t[..|t| - 1], t[|t| - 1];
      assert last in t && forall x :: x in rest ==> x in t;
      if last.score < c.score {
        InsertAhead(rest, c);
        forall i | 0 <= i < |Insert(rest, c)|
          ensures Ahead(Insert(rest, c)[i], last)
        {
          assert Insert(rest, c)[i] in rest || Insert(rest, c)[i] == c;
        }
      }
    }
  }

  /** Candidates listed in scan order are ranked by score, and by scan order among equals. */
  lemma {:induction false} RankingAhead(s: seq<Candidate>)
    requires ListedInOrder(s)
    ensures EachAhead(Ranking(s)) && forall x :: x in Ranking(s) <==> x in s
  {
    if s != [] {
      var rest, last := s[..|s| - 1], s[|s| - 1];
      RankingAhead(rest);
      InsertAhead(Ranking(rest), last);
      RankingIsStableSort(s, 0);
      forall x
        ensures x in Ranking(s) <==> x in s
      {
        assert x in multiset(Ranking(s)) <==> x in multiset(s);
      }
    }
  }

  lemma {:induction false} InsertAt(t: seq<Candidate>, c: Candidate, n: nat)
    requires n <= |t|
    requires forall k :: n <= k < |t| ==> t[k].score < c.score
    requires n > 0 ==> t[n - 1].score >= c.score
    ensures Insert(t, c) == t[..n] + [c] + t[n..]
  {
    if n < |t| {
      InsertAt(t[..|t| - 1], c, n);
      assert t[..|t| - 1][..n] == t[..n];
      assert t[n..] == t[..|t| - 1][n..] + [t[|t| - 1]];
    } else {
      assert t[..n] == t && t[n..] == [];
    }
  }

  /** The insertion sort, in place. */
  method SortDescending(s: array<Candidate>)
    modifies s
    ensures s[..] == Ranking(old(s[..]))
  {
    ghost var was := s[..];
    if s.Length == 0 {
      return;
    }
    assert was[..1] == [was[0]] && was[..1][..0] == [];
    for i := 1 to s.Length
      invariant s[..i] == Ranking(was[..i])
      invariant s[i..] == was[i..]
    {
      ShiftIn(s, i);
      assert was[..i + 1][..i] == was[..i];
      assert s[i + 1..] == was[i + 1..];
    }
    assert s[..] == s[..s.Length] && was[..s.Length] == was;
  }

  /** One pass of the sort: shifts smaller scores right and drops s[i] into the gap. */
  method ShiftIn(s: array<Candidate>, i: nat)
    requires i < s.Length
    modifies s
    ensures s[..i + 1] == Insert(old(s[..i]), old(s[i]))
    ensures s[i + 1..] == old(s[i + 1..])
  {
    ghost var t := s[..i];
    ghost var tail := s[i + 1..];
    var c := s[i];
    var j := i - 1;
    while j >= 0 && s[j].score < c.score
      invariant -1 <= j < i
      invariant forall k :: 0 <= k <= j ==> s[k] == t[k]
      invariant forall k :: j + 2 <= k <= i ==> s[k] == t[k - 1]
      invariant forall k :: j + 1 <= k < i ==> t[k].score < c.score
      invariant s[i + 1..] == tail
    {
      s[j + 1] := s[j];
      j := j - 1;
    }
    s[j + 1] := c;
    InsertAt(t, c, j + 1);
    assert s[..i + 1] == t[..j + 1] + [c] + t[j + 1..];
  }

  // ---- Scanning the board ----

  /** The square's positions that the two nested loops reach before (q, s), in order; the loops run from -r to r. */
  function Scanned(r: int, q: int, s: int): seq<Position>
    requires q >= -r && -r <= s <= r + 1
    decreases q + r, s + r
  {
    if s > -r then Scanned(r, q, s - 1) + [Position(q, s - 1)]
    else if q > -r then Scanned(r, q - 1, r + 1)
    else []
  }

  lemma {:induction false} ScannedExactly(r: int, q: int, s: int, p: Position)
    requires r >= 0 && q >= -r && -r <= s <= r + 1
    ensures p in Scanned(r, q, s) <==> -r <= p.q <= q && -r <= p.r <= r && (p.q < q || p.r < s)
    decreases q + r, s + r
  {
    if s > -r {
      ScannedExactly(r, q, s - 1, p);
    } else if q > -r {
      ScannedExactly(r, q - 1, r + 1, p);
    }
  }

  predicate InScanOrder(ps: seq<Position>) {
    forall i, j :: 0 <= i < j < |ps| ==> ScannedBefore(ps[i], ps[j])
  }

  lemma {:induction false} ScannedInOrder(r: int, q: int, s: int)
    requires r >= 0 && q >= -r && -r <= s <= r + 1
    ensures InScanOrder(Scanned(r, q, s))
    decreases q + r, s + r
  {
    if s > -r {
      var before := Scanned(r, q, s - 1);
      ScannedInOrder(r, q, s - 1);
      forall i | 0 <= i < |before|
        ensures before[i].q < q || (before[i].q == q && before[i].r < s - 1)
      {
        ScannedExactly(r, q, s - 1, before[i]);
      }
    } else if q > -r {
      ScannedInOrder(r, q - 1, r + 1);
    }
  }

  /** The in-board positions among ps, in order. */
  function InBoardOf(side: int, ps: seq<Position>): seq<Position> {
    if ps == [] then []
    else InBoardOf(side, ps[..|ps| - 1]) + if In(side, ps[|ps| - 1]) then [ps[|ps| - 1]] else []
  }

  lemma {:induction false} InBoardOfExactly(side: int, ps: seq<Position>, p: Position)
    ensures p in InBoardOf(side, ps) <==> p in ps && In(side, p)
  {
    if ps != [] {
      InBoardOfExactly(side, ps[..|ps| - 1], p);
      assert ps == ps[..|ps| - 1] + [ps[|ps| - 1]];
    }
  }

  lemma {:induction false} InBoardOfInOrder(side: int, ps: seq<Position>)
    requires InScanOrder(ps)
    ensures InScanOrder(InBoardOf(side, ps))
  {
    if ps != [] {
      var rest, last := ps[..|ps| - 1], ps[|ps| - 1];
      var kept := InBoardOf(side, rest);
      InBoardOfInOrder(side, rest);
      forall i | 0 <= i < |kept|
        ensures kept[i].q < last.q || (kept[i].q == last.q && kept[i].r < last.r)
      {
        InBoardOfExactly(side, rest, kept[i]);
        var k :| 0 <= k < |rest| && rest[k] == kept[i];
        assert ps[k] == kept[i];
      }
    }
  }

  /** The client's list of valid positions: every intersection of the hexagon once, in scan order, 3N(N - 1) + 1
      in all. */
  method BoardPositions(side: int) returns (out: seq<Position>)
    requires side >= 1
    ensures InScanOrder(out) && NoDuplicates(out) && (forall p :: p in out <==> In(side, p))
    ensures |out| == 3 * side * (side - 1) + 1
  {
    hide Scanned, InBoardOf, In;
    var r := side - 1;
    out := [];
    ScanStarts(side);
    for q := -r to r + 1
      invariant out == InBoardOf(side, Scanned(r, q, -r))
    {
      for s := -r to r + 1
        invariant out == InBoardOf(side, Scanned(r, q, s))
      {
        if In(side, Position(q, s)) {
          out := out + [Position(q, s)];
        }
        ScanStep(side, q, s);
      }
      RowEnds(r, q);
    }
    ScanIsComplete(side);
  }

  lemma ScanStarts(side: int)
    requires side >= 1
    ensures InBoardOf(side, Scanned(side - 1, -(side - 1), -(side - 1))) == []
  {
  }

  lemma ScanStep(side: int, q: int, s: int)
    requires side >= 1 && q > -side && -side < s < side
    ensures InBoardOf(side, Scanned(side - 1, q, s + 1))
         == InBoardOf(side, Scanned(side - 1, q, s)) + if In(side, Position(q, s)) then [Position(q, s)] else []
  {
    var next := Scanned(side - 1, q, s + 1);
    assert next[..|next| - 1] == Scanned(side - 1, q, s);
  }

  lemma RowEnds(r: int, q: int)
    requires r >= 0 && q >= -r
    ensures Scanned(r, q + 1, -r) == Scanned(r, q, r + 1)
  {
  }

  lemma ScanIsComplete(side: int)
    requires side >= 1
    ensures var out := InBoardOf(side, Scanned(side - 1, side, -(side - 1)));
      && InScanOrder(out) && NoDuplicates(out) && (forall p :: p in out <==> In(side, p))
      && |out| == 3 * side * (side - 1) + 1
  {
    hide Scanned, InBoardOf;
    var r := side - 1;
    var all := Scanned(r, r + 1, -r);
    var out := InBoardOf(side, all);
    forall p ensures (p in out <==> In(side, p)) && (p in out <==> p in Positions(side)) {
      InBoardOfExactly(side, all, p);
      ScannedExactly(r, r + 1, -r, p);
      PositionsAreIn(side, p);
    }
    ScannedInOrder(r, r + 1, -r);
    InBoardOfInOrder(side, all);
    OrderIsDistinct(out);
    ListSize(out, Positions(side));
    HexagonSize(side);
  }

  lemma OrderIsDistinct(ps: seq<Position>)
    requires InScanOrder(ps)
    ensures NoDuplicates(ps)
  {
  }

  lemma {:induction false} ListSize(s: seq<Position>, t: set<Position>)
    requires NoDuplicates(s) && forall p :: p in s <==> p in t
    ensures |s| == |t|
  {
    if s != [] {
      var rest, last := s[..|s| - 1], s[|s| - 1];
      assert s == rest + [last];
      ListSize(rest, t - {last});
    }
  }
}
