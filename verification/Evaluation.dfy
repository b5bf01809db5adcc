/** The bot's scores: the one-ply score that ranks candidates and the static score of a position. */
module Evaluation {
  import opened Arith
  import opened Hex
  import opened Boards
  import opened Runs
  import opened Engine
  import opened Candidates

  /** The colour of the seat after `color` in rotation, EMPTY when no player has that colour. */
  function OpponentOf(players: seq<Player>, color: Color): Color {
    NextSeat(players, color, 0)
  }

  function NextSeat(players: seq<Player>, color: Color, i: nat): Color
    requires i <= |players|
    decreases |players| - i
  {
    if i == |players| then EMPTY
    else if players[i].color == color then players[(i + 1) % |players|].color
    else NextSeat(players, color, i + 1)
  }

  lemma {:induction false} NextSeatOf(players: seq<Player>, k: nat, i: nat)
    requires i <= k < |players|
    requires forall j :: 0 <= j < k ==> players[j].color != players[k].color
    ensures NextSeat(players, players[k].color, i) == players[(k + 1) % |players|].color
    decreases k - i
  {
    if i < k {
      NextSeatOf(players, k, i + 1);
    }
  }

  function HexDistance(a: Position, b: Position): int {
    var dq, dr := a.q - b.q, a.r - b.r;
    var x, y, z := Abs(dq), Abs(dr), Abs(-dq - dr);
    if x >= y && x >= z then x else if y >= z then y else z
  }

  // ---- Walking from a cell ----

  /** The number of consecutive cells of colour c from p in one sense of an axis. */
  ghost function Ray(g: Grid, c: Color, p: Position, a: Axis, sense: int): nat
    requires g.Valid() && (sense == 1 || sense == -1)
    decreases if sense == 1 then Room(g.side, p, a) else 2 * g.side - Room(g.side, p, a)
  {
    if g.Has(p, c) then
      assert In(g.side, p);
      1 + Ray(g, c, Along(p, a, sense), a, sense)
    else 0
  }

  method ConsecutiveSameColor(b: Board, from: Position, a: Axis, sense: int, color: Color) returns (n: nat)
    requires b.Valid() && (sense == 1 || sense == -1)
    ensures n == Ray(b.view, color, Along(from, a, sense), a, sense)
  {
    n := 0;
    var c := Along(from, a, sense);
    var same := Same(b, c, color);
    while same
      invariant same == b.view.Has(c, color)
      invariant n + Ray(b.view, color, c, a, sense) == Ray(b.view, color, Along(from, a, sense), a, sense)
      decreases (if sense == 1 then Room(b.side, c, a) else 2 * b.side - Room(b.side, c, a)) + if same then 1 else 0
    {
      assert In(b.side, c);
      n := n + 1;
      c := Along(c, a, sense);
      same := Same(b, c, color);
    }
  }

  // ---- The one-ply score ----

  /** The bonus for standing in the way of the opponent's lines through p, over the first n axes. */
  ghost function BlockBonus(g: Grid, p: Position, opp: Color, n: nat): int
    requires g.Valid() && n <= |AXES|
  {
    if n == 0 then 0
    else
      var a := AXES[n - 1];
      var line := Ray(g, opp, Along(p, a, 1), a, 1) + Ray(g, opp, Along(p, a, -1), a, -1);
      BlockBonus(g, p, opp, n - 1) + if line >= 3 then line * line * 8 else 0
  }

  method BlockingBonus(b: Board, p: Position, opp: Color) returns (bonus: int)
    requires b.Valid()
    ensures bonus == BlockBonus(b.view, p, opp, |AXES|)
  {
    hide Ray, Along;
    bonus := 0;
    for i := 0 to |AXES|
      invariant bonus == BlockBonus(b.view, p, opp, i)
    {
      var ahead := ConsecutiveSameColor(b, p, AXES[i], 1, opp);
      var behind := ConsecutiveSameColor(b, p, AXES[i], -1, opp);
      var line := ahead + behind;
      if line >= 3 {
        bonus := bonus + line * line * 8;
      }
    }
  }

  /** The weight of what the placement does to both sides' lines. */
  ghost function LineScore(before: Grid, after: Grid, color: Color, opp: Color): int
    requires before.Valid() && after.Valid()
  {
    (CountRuns(before, opp, 5) - CountRuns(after, opp, 5)) * 240
    + (CountRuns(before, opp, 4) - CountRuns(after, opp, 4)) * 60
    + (CountRuns(after, color, 5) - CountRuns(before, color, 5)) * 120
    + (CountRuns(after, color, 4) - CountRuns(before, color, 4)) * 30
  }

  ghost function ShallowScore(g: Game, p: Position, color: Color): int
    requires g.Valid() && p in g.grid.cell
  {
    GridAfterValid(g.grid, Move(color, p));
    var sim := GridAfter(g.grid, Move(color, p));
    var opp := OpponentOf(g.players, color);
    if ContainsRun(sim, color, 6) then WIN_SCORE
    else if g.config.align5ToWin > 0 && CountRuns(sim, color, 5) >= g.config.align5ToWin then WIN_SCORE - 1
    else if g.config.align4ToWin > 0 && CountRuns(sim, color, 4) >= g.config.align4ToWin then WIN_SCORE - 2
    else
      var lines := LineScore(g.grid, sim, color, opp);
      var block := BlockBonus(g.grid, p, opp, |AXES|);
      lines + block + |CapturesBy(g.grid, Move(color, p))| * 80 + 10 - HexDistance(p, Position(0, 0))
  }

  method ScoreLines(before: Board, after: Board, color: Color, opp: Color, mine5: nat, mine4: nat) returns (score: int)
    requires before.Valid() && after.Valid()
    requires mine5 == CountRuns(after.view, color, 5) && mine4 == CountRuns(after.view, color, 4)
    ensures score == LineScore(before.view, after.view, color, opp)
  {
    var opp5 := CountMaximalRuns(before, opp, 5);
    var opp4 := CountMaximalRuns(before, opp, 4);
    var opp5After := CountMaximalRuns(after, opp, 5);
    var opp4After := CountMaximalRuns(after, opp, 4);
    var mine5Before := CountMaximalRuns(before, color, 5);
    var mine4Before := CountMaximalRuns(before, color, 4);
    score := (opp5 - opp5After) * 240 + (opp4 - opp4After) * 60 + (mine5 - mine5Before) * 120 + (mine4 - mine4Before) * 30;
  }

  method ShallowScoring(state: GameState, p: Position, color: Color) returns (score: int)
    requires state.Valid() && In(state.board.side, p)
    ensures score == ShallowScore(state.View(), p, color)
  {
    var sim := new Board.Clone(state.board);
    var captures := PlaceStone(sim, Move(color, p));
    var six := HasRun(sim, color, 6);
    if six {
      return WIN_SCORE;
    }
    var mine5 := CountMaximalRuns(sim, color, 5);
    var mine4 := CountMaximalRuns(sim, color, 4);
    if state.config.align5ToWin > 0 && mine5 >= state.config.align5ToWin {
      return WIN_SCORE - 1;
    }
    if state.config.align4ToWin > 0 && mine4 >= state.config.align4ToWin {
      return WIN_SCORE - 2;
    }
    var opp := OpponentOf(state.players, color);
    var lines := ScoreLines(state.board, sim, color, opp, mine5, mine4);
    var block := BlockingBonus(state.board, p, opp);
    score := lines + block + |captures| * 80 + 10 - HexDistance(p, Position(0, 0));
  }

  // ---- The static score ----

  /** The weighted runs of one colour. */
  ghost function RunWeight(g: Grid, c: Color, five: int, four: int, three: int): int
    requires g.Valid()
  {
    CountRuns(g, c, 5) * five + CountRuns(g, c, 4) * four + CountRuns(g, c, 3) * three
  }

  /** What the first k players other than `color` weigh, by runs and captured pairs. */
  ghost function Opposition(g: Game, color: Color, k: nat): int
    requires g.Valid() && k <= |g.players|
  {
    if k == 0 then 0
    else
      Opposition(g, color, k - 1)
      + if g.players[k - 1].color == color then 0
        else RunWeight(g.grid, g.players[k - 1].color, 240, 70, 15) + g.players[k - 1].capturedPairs * 40
  }

  /** The captured pairs of the first player of this colour, 0 when there is none. */
  function PairsOf(players: seq<Player>, color: Color, i: nat): int
    requires i <= |players|
    decreases |players| - i
  {
    if i == |players| then 0
    else if players[i].color == color then players[i].capturedPairs
    else PairsOf(players, color, i + 1)
  }

  function CaptureWeight(pairs: int, toWin: int): int {
    pairs * 40 + if toWin > 0 then pairs * Quotient(50 * pairs, if toWin > 1 then toWin else 1) else 0
  }

  ghost function PositionScore(g: Game, color: Color): int
    requires g.Valid()
  {
    RunWeight(g.grid, color, 200, 60, 15) + CaptureWeight(PairsOf(g.players, color, 0), g.config.capturePairsWin)
    - Opposition(g, color, |g.players|)
  }

  function TerminalScore(winner: Color, color: Color): int {
    if winner == color then WIN_SCORE else if winner == EMPTY then 0 else -WIN_SCORE
  }

  method WeighRuns(b: Board, c: Color, five: int, four: int, three: int) returns (w: int)
    requires b.Valid()
    ensures w == RunWeight(b.view, c, five, four, three)
  {
    var n5 := CountMaximalRuns(b, c, 5);
    var n4 := CountMaximalRuns(b, c, 4);
    var n3 := CountMaximalRuns(b, c, 3);
    w := n5 * five + n4 * four + n3 * three;
  }

  method ScorePosition(state: GameState, color: Color) returns (score: int)
    requires state.Valid()
    ensures score == PositionScore(state.View(), color)
  {
    hide RunWeight, PairsOf, CaptureWeight;
    var mine := WeighRuns(state.board, color, 200, 60, 15);
    var opposition := 0;
    for k := 0 to |state.players|
      invariant opposition == Opposition(state.View(), color, k)
    {
      var p := state.players[k];
      if p.color != color {
        var w := WeighRuns(state.board, p.color, 240, 70, 15);
        opposition := opposition + w + p.capturedPairs * 40;
      }
    }
    var pairs := PairsOf(state.players, color, 0);
    score := mine + CaptureWeight(pairs, state.config.capturePairsWin) - opposition;
  }

  // ---- Ranked candidates ----

  /** The empty intersections among ps with their one-ply scores, in order. */
  ghost function FreeCells(g: Game, mover: Color, ps: seq<Position>): seq<Candidate>
    requires g.Valid()
  {
    if ps == [] then []
    else
      var p := ps[|ps| - 1];
      FreeCells(g, mover, ps[..|ps| - 1]) + ScoredCell(g, mover, p)
  }

  ghost function ScoredCell(g: Game, mover: Color, p: Position): seq<Candidate>
    requires g.Valid()
  {
    if g.grid.Has(p, EMPTY) then [Candidate(p, ShallowScore(g, p, mover))] else []
  }

  lemma ScoredStep(g: Game, mover: Color, r: int, q: int, s: int)
    requires g.Valid() && q >= -r && -r <= s <= r
    ensures FreeCells(g, mover, Scanned(r, q, s + 1)) == FreeCells(g, mover, Scanned(r, q, s)) + ScoredCell(g, mover, Position(q, s))
  {
    var next := Scanned(r, q, s + 1);
    assert next[..|next| - 1] == Scanned(r, q, s);
  }

  ghost function Ranked(g: Game, mover: Color, k: nat): seq<Candidate>
    requires g.Valid()
  {
    var r := g.grid.side - 1;
    var all := Ranking(FreeCells(g, mover, Scanned(r, r + 1, -r)));
    if |all| > k then all[..k] else all
  }

  method RankedCandidates(state: GameState, mover: Color, k: nat) returns (out: seq<Candidate>)
    requires state.Valid()
    ensures out == Ranked(state.View(), mover, k)
  {
    var scored := ScoreFreeCells(state, mover);
    var sorted := new Candidate[|scored|](i requires 0 <= i < |scored| => scored[i]);
    assert sorted[..] == scored;
    SortDescending(sorted);
    out := if sorted.Length > k then sorted[..k] else sorted[..];
  }

  method ScoreFreeCells(state: GameState, mover: Color) returns (scored: seq<Candidate>)
    requires state.Valid()
    ensures var r := state.board.view.side - 1; scored == FreeCells(state.View(), mover, Scanned(r, r + 1, -r))
  {
    var r := state.board.side - 1;
    scored := [];
    for q := -r to r + 1
      invariant scored == FreeCells(state.View(), mover, Scanned(r, q, -r))
    {
      var row := ScoreRow(state, mover, q, scored);
      scored := row;
    }
  }

  /** The inner loop of the scan. */
  method ScoreRow(state: GameState, mover: Color, q: int, above: seq<Candidate>) returns (scored: seq<Candidate>)
    requires state.Valid() && -state.board.side < q < state.board.side
    requires var r := state.board.side - 1; above == FreeCells(state.View(), mover, Scanned(r, q, -r))
    ensures var r := state.board.side - 1; scored == FreeCells(state.View(), mover, Scanned(r, q + 1, -r))
  {
    hide FreeCells, ScoredCell, Scanned;
    var r := state.board.side - 1;
    scored := above;
    RowEnds(r, q);
    for s := -r to r + 1
      invariant scored == FreeCells(state.View(), mover, Scanned(r, q, s))
    {
      var more := ScoreCell(state, mover, Position(q, s));
      scored := scored + more;
      ScoredStep(state.View(), mover, r, q, s);
    }
  }

  method ScoreCell(state: GameState, mover: Color, p: Position) returns (more: seq<Candidate>)
    requires state.Valid()
    ensures more == ScoredCell(state.View(), mover, p)
  {
    var free := Same(state.board, p, EMPTY);
    if free {
      var score := ShallowScoring(state, p, mover);
      more := [Candidate(p, score)];
    } else {
      more := [];
    }
  }

  ghost predicate Lists(cs: seq<Candidate>, p: Position) {
    exists i :: 0 <= i < |cs| && cs[i].pos == p
  }

  lemma ListsConcat(xs: seq<Candidate>, ys: seq<Candidate>, p: Position)
    ensures Lists(xs + ys, p) <==> Lists(xs, p) || Lists(ys, p)
  {
    var zs := xs + ys;
    if Lists(xs, p) {
      var i :| 0 <= i < |xs| && xs[i].pos == p;
      assert zs[i].pos == p;
    }
    if Lists(ys, p) {
      var i :| 0 <= i < |ys| && ys[i].pos == p;
      assert zs[|xs| + i].pos == p;
    }
    if Lists(zs, p) {
      var i :| 0 <= i < |zs| && zs[i].pos == p;
      assert if i < |xs| then xs[i].pos == p else ys[i - |xs|].pos == p;
    }
  }

  lemma {:induction false} ScoredExactly(g: Game, mover: Color, ps: seq<Position>, p: Position)
    requires g.Valid()
    ensures Lists(FreeCells(g, mover, ps), p) <==> p in ps && g.grid.Has(p, EMPTY)
  {
    if ps != [] {
      var rest, last := ps[..|ps| - 1], ps[|ps| - 1];
      ScoredExactly(g, mover, rest, p);
      assert ps == rest + [last];
      var here := ScoredCell(g, mover, last);
      ListsConcat(FreeCells(g, mover, rest), here, p);
      assert Lists(here, p) <==> p == last && g.grid.Has(p, EMPTY) by {
        if p == last && g.grid.Has(p, EMPTY) {
          assert here[0].pos == p;
        }
      }
    }
  }

  lemma RankingLists(s: seq<Candidate>, i: nat)
    requires i < |Ranking(s)|
    ensures Lists(s, Ranking(s)[i].pos)
  {
    RankingIsStableSort(s, 0);
    var c := Ranking(s)[i];
    assert c in multiset(Ranking(s)) && c in multiset(s);
    var j :| 0 <= j < |s| && s[j] == c;
  }

  lemma RankingLength(s: seq<Candidate>)
    ensures |Ranking(s)| == |s|
  {
    hide Ranking, Descending, WithScore;
    RankingIsStableSort(s, 0);
    assert |Ranking(s)| == |multiset(Ranking(s))| == |multiset(s)| == |s|;
  }

  /** The ranked list, uncut, lists exactly the empty intersections. */
  lemma RankingIsFree(g: Game, mover: Color, all: seq<Candidate>, i: nat)
    requires g.Valid()
    requires var r := g.grid.side - 1; all == FreeCells(g, mover, Scanned(r, r + 1, -r))
    requires i < |Ranking(all)|
    ensures g.grid.Has(Ranking(all)[i].pos, EMPTY)
  {
    hide Ranking, FreeCells, Scanned;
    var r := g.grid.side - 1;
    RankingLists(all, i);
    ScoredExactly(g, mover, Scanned(r, r + 1, -r), Ranking(all)[i].pos);
  }

  lemma FreeIsListed(g: Game, mover: Color, all: seq<Candidate>, p: Position)
    requires g.Valid() && g.grid.Has(p, EMPTY)
    requires var r := g.grid.side - 1; all == FreeCells(g, mover, Scanned(r, r + 1, -r))
    ensures Ranking(all) != []
  {
    hide Ranking, FreeCells, Scanned;
    var r := g.grid.side - 1;
    assert In(g.grid.side, p);
    ScannedExactly(r, r + 1, -r, p);
    ScoredExactly(g, mover, Scanned(r, r + 1, -r), p);
    RankingLength(all);
  }

  /** A bot considers only empty intersections, and considers none only on a full board. */
  lemma CandidatesAreFree(g: Game, mover: Color, k: nat)
    requires g.Valid() && k > 0
    ensures forall i :: 0 <= i < |Ranked(g, mover, k)| ==> g.grid.Has(Ranked(g, mover, k)[i].pos, EMPTY)
    ensures Ranked(g, mover, k) == [] <==> forall p :: !g.grid.Has(p, EMPTY)
  {
    hide Ranking, FreeCells, Scanned;
    var r := g.grid.side - 1;
    var all := FreeCells(g, mover, Scanned(r, r + 1, -r));
    forall i | 0 <= i < |Ranking(all)|
      ensures g.grid.Has(Ranking(all)[i].pos, EMPTY)
    {
      RankingIsFree(g, mover, all, i);
    }
    forall p | g.grid.Has(p, EMPTY)
      ensures Ranking(all) != []
    {
      FreeIsListed(g, mover, all, p);
    }
    if Ranking(all) != [] {
      assert g.grid.Has(Ranking(all)[0].pos, EMPTY);
    }
  }

  // ---- What the cut keeps ----

  ghost predicate HasItsScore(g: Game, mover: Color, c: Candidate)
    requires g.Valid()
  {
    g.grid.Has(c.pos, EMPTY) && c.score == ShallowScore(g, c.pos, mover)
  }

  /** The scored cells stand in the order of the positions they come from. */
  lemma {:induction false} FreeCellsInOrder(g: Game, mover: Color, ps: seq<Position>)
    requires g.Valid() && InScanOrder(ps)
    ensures ListedInOrder(FreeCells(g, mover, ps))
    ensures forall c :: c in FreeCells(g, mover, ps) ==> c.pos in ps && HasItsScore(g, mover, c)
  {
    hide ShallowScore, ScannedBefore;
    if ps != [] {
      var rest, last := ps[..|ps| - 1], ps[|ps| - 1];
      FreeCellsInOrder(g, mover, rest);
      var before := FreeCells(g, mover, rest);
      assert FreeCells(g, mover, ps) == before + ScoredCell(g, mover, last);
      forall i | 0 <= i < |before|
        ensures ScannedBefore(before[i].pos, last) && before[i].pos in ps
      {
        assert before[i] in before && before[i].pos in rest;
        var k :| 0 <= k < |rest| && rest[k] == before[i].pos;
        assert ps[k] == before[i].pos && ScannedBefore(ps[k], ps[|ps| - 1]);
      }
    }
  }

  /** All empty intersections with their scores, ranked. */
  lemma AllRanked(g: Game, mover: Color)
    requires g.Valid()
    ensures var r := g.grid.side - 1; var all := Ranking(FreeCells(g, mover, Scanned(r, r + 1, -r)));
      && EachAhead(all) && |all| == |g.grid.Stones(EMPTY)|
      && (forall i :: 0 <= i < |all| ==> HasItsScore(g, mover, all[i]))
      && (forall p :: g.grid.Has(p, EMPTY) ==> Lists(all, p))
  {
    hide Ranking, FreeCells, Scanned, ShallowScore;
    var r := g.grid.side - 1;
    var ps := Scanned(r, r + 1, -r);
    var cells := FreeCells(g, mover, ps);
    var all := Ranking(cells);
    ScannedInOrder(r, r + 1, -r);
    FreeCellsInOrder(g, mover, ps);
    RankingAhead(cells);
    RankingLength(cells);
    forall p
      ensures g.grid.Has(p, EMPTY) <==> Lists(cells, p)
    {
      ScoredExactly(g, mover, ps, p);
      ScannedExactly(r, r + 1, -r, p);
      assert g.grid.Has(p, EMPTY) ==> In(g.grid.side, p);
    }
    forall p | g.grid.Has(p, EMPTY)
      ensures Lists(all, p)
    {
      var i :| 0 <= i < |cells| && cells[i].pos == p;
      assert cells[i] in all;
      var j :| 0 <= j < |all| && all[j] == cells[i];
    }
    forall i | 0 <= i < |all|
      ensures HasItsScore(g, mover, all[i])
    {
      assert all[i] in cells;
    }
    var cellPositions := seq(|cells|, i requires 0 <= i < |cells| => cells[i].pos);
    forall p
      ensures p in cellPositions <==> p in g.grid.Stones(EMPTY)
    {
      if Lists(cells, p) {
        var i :| 0 <= i < |cells| && cells[i].pos == p;
        assert cellPositions[i] == p;
      }
    }
    ListSize(cellPositions, g.grid.Stones(EMPTY));
  }

  /** The bot considers the k best placements, or all when there are fewer: that many different empty intersections with
      their one-ply scores, best first, and none that is left out scores more than one that is listed, or as much and is
      scanned earlier. */
  lemma KeepsTheBest(g: Game, mover: Color, k: nat)
    requires g.Valid()
    ensures var out := Ranked(g, mover, k);
      && |out| == (if |g.grid.Stones(EMPTY)| > k then k else |g.grid.Stones(EMPTY)|)
      && EachAhead(out) && (forall i, j :: 0 <= i < j < |out| ==> out[i].pos != out[j].pos)
      && (forall i :: 0 <= i < |out| ==> HasItsScore(g, mover, out[i]))
      && (forall i, p :: 0 <= i < |out| && g.grid.Has(p, EMPTY) && !Lists(out, p) ==>
            Ahead(out[i], Candidate(p, ShallowScore(g, p, mover))))
  {
    hide Ranking, FreeCells, Scanned, ShallowScore;
    AllRanked(g, mover);
    var r := g.grid.side - 1;
    var all := Ranking(FreeCells(g, mover, Scanned(r, r + 1, -r)));
    var out := Ranked(g, mover, k);
    forall j | 0 <= j < |out|
      ensures Lists(out, all[j].pos) && out[j] == all[j]
    {
      assert out[j].pos == all[j].pos;
    }
    forall i, p | 0 <= i < |out| && g.grid.Has(p, EMPTY) && !Lists(out, p)
      ensures Ahead(out[i], Candidate(p, ShallowScore(g, p, mover)))
    {
      var j :| 0 <= j < |all| && all[j].pos == p;
      assert Ahead(all[i], all[j]) && HasItsScore(g, mover, all[j]);
    }
  }
}
