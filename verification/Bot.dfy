/** The bot: negamax with alpha-beta pruning over ranked candidates, on clones of the live game. */
module Bot {
  import opened Wrappers
  import opened Hex
  import opened Boards
  import opened Engine
  import opened Candidates
  import opened Evaluation
  import opened Search

  const SEARCH_DEPTH: nat := 2
  const ROOT_CANDIDATES: nat := 60
  const INNER_CANDIDATES: nat := 20

  // ---- The game tree that the search walks ----

  ghost function TreeOf(g: Game, mover: Color, depth: nat): Tree
    requires g.Valid()
    decreases depth, 1, 0
  {
    if g.Over() then Leaf(TerminalScore(g.winner, mover))
    else if depth == 0 then Leaf(PositionScore(g, mover))
    else
      var cs := Ranked(g, mover, INNER_CANDIDATES);
      if cs == [] then Leaf(PositionScore(g, mover)) else Node(Kids(g, mover, cs, depth))
  }

  /** What a candidate move leads to on a clone: refused, or the game after it. */
  ghost function Try(g: Game, mover: Color, c: Candidate): (r: Result<(Game, MoveResult), MoveError>)
    requires g.Valid()
    ensures r.Ok? ==> r.value.0.Valid()
  {
    Apply(g.(history := []), Move(mover, c.pos), g.turnStartedAt)
  }

  /** The subtrees of the candidates that are accepted, each seen by the opponent. */
  ghost function Kids(g: Game, mover: Color, cs: seq<Candidate>, depth: nat): seq<Tree>
    requires g.Valid() && depth > 0
    decreases depth, 0, |cs|
  {
    if cs == [] then []
    else
      var before := Kids(g, mover, cs[..|cs| - 1], depth);
      match Try(g, mover, cs[|cs| - 1])
      case Err(_) => before
      case Ok(after) => before + [TreeOf(after.0, OpponentOf(after.0.players, mover), depth - 1)]
  }

  /** The accepted candidates, in order: the moves behind Kids. */
  ghost function Legal(g: Game, mover: Color, cs: seq<Candidate>): seq<Position>
    requires g.Valid()
  {
    if cs == [] then []
    else Legal(g, mover, cs[..|cs| - 1]) + if Try(g, mover, cs[|cs| - 1]).Ok? then [cs[|cs| - 1].pos] else []
  }

  lemma {:induction false} LegalMatchesKids(g: Game, mover: Color, cs: seq<Candidate>, depth: nat)
    requires g.Valid() && depth > 0
    ensures |Legal(g, mover, cs)| == |Kids(g, mover, cs, depth)|
  {
    if cs != [] {
      LegalMatchesKids(g, mover, cs[..|cs| - 1], depth);
    }
  }

  lemma {:induction false} KidsPrefix(g: Game, mover: Color, cs: seq<Candidate>, i: nat, depth: nat)
    requires g.Valid() && depth > 0 && i <= |cs|
    ensures Kids(g, mover, cs[..i], depth) <= Kids(g, mover, cs, depth)
  {
    if i == |cs| {
      assert cs[..i] == cs;
    } else {
      assert cs[..|cs| - 1][..i] == cs[..i];
      KidsPrefix(g, mover, cs[..|cs| - 1], i, depth);
    }
  }

  // ---- The search ----

  /** The value of the position for mover, pruned to the window. The state itself is left alone. */
  method Negamax(state: GameState, mover: Color, depth: nat, alpha: int, beta: int) returns (v: int)
    requires state.Valid()
    ensures v == AlphaBeta(TreeOf(state.View(), mover, depth), alpha, beta)
    decreases depth, 1
  {
    if state.IsOver() {
      return TerminalScore(state.winner, mover);
    }
    if depth == 0 {
      v := ScorePosition(state, mover);
      return;
    }
    var cs := RankedCandidates(state, mover, INNER_CANDIDATES);
    if cs == [] {
      v := ScorePosition(state, mover);
      return;
    }
    v := SearchKids(state, mover, cs, depth, alpha, beta);
  }

  /** The loop over the candidates, left as soon as the opponent has a better alternative earlier. */
  method SearchKids(state: GameState, mover: Color, cs: seq<Candidate>, depth: nat, alpha: int, beta: int) returns (best: int)
    requires state.Valid() && depth > 0
    ensures best == Scan(Kids(state.View(), mover, cs, depth), alpha, beta).best
    decreases depth, 0, 1
  {
    hide Try, TreeOf, AlphaBeta, Apply;
    best := MIN_SCORE;
    var a := alpha;
    for i := 0 to |cs|
      invariant Scan(Kids(state.View(), mover, cs[..i], depth), alpha, beta) == Progress(best, a, false)
    {
      ghost var kids := Kids(state.View(), mover, cs[..i + 1], depth);
      assert cs[..i + 1][..i] == cs[..i];
      var score := ScoreChild(state, mover, cs[i], depth, a, beta);
      if score.None? {
        continue;
      }
      assert kids[..|kids| - 1] == Kids(state.View(), mover, cs[..i], depth);
      if score.value > best {
        best := score.value;
      }
      if score.value > a {
        a := score.value;
      }
      if a >= beta {
        ghost var all := Kids(state.View(), mover, cs, depth);
        KidsPrefix(state.View(), mover, cs, i + 1, depth);
        assert all[..|kids|] == kids;
        CutEndsScan(all, |kids|, alpha, beta);
        return;
      }
    }
    assert cs[..|cs|] == cs;
  }

  /** Plays c on a clone and scores it for mover from the opponent's reply; None when the move is refused. */
  method ScoreChild(state: GameState, mover: Color, c: Candidate, depth: nat, alpha: int, beta: int) returns (score: Option<int>)
    requires state.Valid() && depth > 0
    ensures score == match Try(state.View(), mover, c)
                     case Err(_) => None
                     case Ok(after) =>
                       Some(-AlphaBeta(TreeOf(after.0, OpponentOf(after.0.players, mover), depth - 1), -beta, -alpha))
    decreases depth, 0, 0
  {
    hide Apply;
    var child := new GameState.Clone(state);
    var res := child.ApplyMove(Move(mover, c.pos), child.turnStartedAt);
    if res.Err? {
      return None;
    }
    var reply := Negamax(child, OpponentOf(child.players, mover), depth - 1, -beta, -alpha);
    return Some(-reply);
  }

  /** The positions behind a pool of indices. */
  function Picked(pool: seq<nat>, legal: seq<Position>): seq<Position>
    requires forall j :: 0 <= j < |pool| ==> pool[j] < |legal|
  {
    seq(|pool|, i requires 0 <= i < |pool| => legal[pool[i]])
  }

  lemma {:induction false} PoolWithin(kids: seq<Tree>)
    ensures forall j :: 0 <= j < |RootScan(kids).pool| ==> RootScan(kids).pool[j] < |kids|
  {
    hide AlphaBeta;
    if kids != [] {
      PoolWithin(kids[..|kids| - 1]);
    }
  }

  /** The moves that the bot may choose for color: those tied for the best score. */
  ghost function Choices(g: Game, color: Color): seq<Position>
    requires g.Valid()
  {
    var cs := Ranked(g, color, ROOT_CANDIDATES);
    LegalMatchesKids(g, color, cs, SEARCH_DEPTH);
    PoolWithin(Kids(g, color, cs, SEARCH_DEPTH));
    Picked(RootScan(Kids(g, color, cs, SEARCH_DEPTH)).pool, Legal(g, color, cs))
  }

  /** The move for color: the one of the candidates tied for the best score that the caller's random roll picks. */
  method BestMove(state: GameState, color: Color, roll: nat) returns (pos: Position, found: bool)
    requires state.Valid()
    ensures var g := state.View();
      (found <==> !g.Over() && Choices(g, color) != []) && (found ==> pos == Choices(g, color)[roll % |Choices(g, color)|])
  {
    pos, found := Position(0, 0), false;
    ghost var g := state.View();
    LegalMatchesKids(g, color, Ranked(g, color, ROOT_CANDIDATES), SEARCH_DEPTH);
    if state.IsOver() {
      return;
    }
    var cs := RankedCandidates(state, color, ROOT_CANDIDATES);
    if cs == [] {
      return;
    }
    var best := RootPool(state, color, cs);
    if best == [] {
      return;
    }
    pos, found := best[roll % |best|], true;
  }

  /** The root loop: no cutoff, every move tied for the best is kept. */
  method RootPool(state: GameState, color: Color, cs: seq<Candidate>) returns (best: seq<Position>)
    requires state.Valid()
    ensures var root := RootScan(Kids(state.View(), color, cs, SEARCH_DEPTH));
      && (forall j :: 0 <= j < |root.pool| ==> root.pool[j] < |Legal(state.View(), color, cs)|)
      && best == Picked(root.pool, Legal(state.View(), color, cs))
  {
    hide Try, TreeOf, AlphaBeta;
    best := [];
    var bestScore, alpha, beta := MIN_SCORE, MIN_SCORE, -MIN_SCORE;
    ghost var g := state.View();
    ghost var root := RootScan([]);
    for i := 0 to |cs|
      invariant root == RootScan(Kids(g, color, cs[..i], SEARCH_DEPTH)) && root.best == bestScore && root.alpha == alpha
      invariant |Legal(g, color, cs[..i])| == |Kids(g, color, cs[..i], SEARCH_DEPTH)|
      invariant forall j :: 0 <= j < |root.pool| ==> root.pool[j] < |Legal(g, color, cs[..i])|
      invariant best == Picked(root.pool, Legal(g, color, cs[..i]))
    {
      assert cs[..i + 1][..i] == cs[..i];
      var score := ScoreChild(state, color, cs[i], SEARCH_DEPTH, alpha, beta);
      if score.None? {
        continue;
      }
      ghost var kids := Kids(g, color, cs[..i + 1], SEARCH_DEPTH);
      assert kids[..|kids| - 1] == Kids(g, color, cs[..i], SEARCH_DEPTH);
      root := RootScan(kids);
      if score.value > bestScore {
        bestScore, best := score.value, [cs[i].pos];
      } else if score.value == bestScore {
        best := best + [cs[i].pos];
      }
      if score.value > alpha {
        alpha := score.value;
      }
    }
    assert cs[..|cs|] == cs;
  }
}
