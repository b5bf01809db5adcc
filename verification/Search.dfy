/** Fail-soft alpha-beta negamax against the plain recursion without cutoffs, over game trees of any
    depth and branching. A leaf carries its score from the point of view of the player to move there. */
module Search {

  datatype Tree = Leaf(value: int) | Node(kids: seq<Tree>)

  const MIN_SCORE: int := -0x4000_0000

  function Max(a: int, b: int): int {
    if a < b then b else a
  }

  // ---- The recursion without cutoffs ----

  function Minimax(t: Tree): int
    decreases t, 0
  {
    match t
    case Leaf(v) => v
    case Node(kids) => BestOf(kids)
  }

  /** The best negated value of the kids, or MIN_SCORE when none is better. */
  function BestOf(kids: seq<Tree>): int
    decreases kids, 1
  {
    if kids == [] then MIN_SCORE
    else Max(BestOf(kids[..|kids| - 1]), -Minimax(kids[|kids| - 1]))
  }

  // ---- The pruned recursion ----

  /** The loop's state: the best score, the raised lower bound, and whether the loop has been cut. */
  datatype Progress = Progress(best: int, alpha: int, cut: bool)

  function AlphaBeta(t: Tree, alpha: int, beta: int): int
    decreases t, 0
  {
    match t
    case Leaf(v) => v
    case Node(kids) => Scan(kids, alpha, beta).best
  }

  function Scan(kids: seq<Tree>, alpha: int, beta: int): Progress
    decreases kids, 1
  {
    if kids == [] then Progress(MIN_SCORE, alpha, false)
    else
      var before := Scan(kids[..|kids| - 1], alpha, beta);
      if before.cut then before
      else
        var score := -AlphaBeta(kids[|kids| - 1], -beta, -before.alpha);
        var raised := Max(before.alpha, score);
        Progress(Max(before.best, score), raised, raised >= beta)
  }

  /** Whatever follows a cut is not looked at. */
  lemma {:induction false} CutEndsScan(kids: seq<Tree>, k: nat, alpha: int, beta: int)
    requires k <= |kids| && Scan(kids[..k], alpha, beta).cut
    ensures Scan(kids, alpha, beta) == Scan(kids[..k], alpha, beta)
    decreases |kids|
  {
    if k == |kids| {
      assert kids[..k] == kids;
    } else {
      assert kids[..|kids| - 1][..k] == kids[..k];
      CutEndsScan(kids[..|kids| - 1], k, alpha, beta);
    }
  }

  /** v bounds V as a fail-soft search with window (alpha, beta) promises. */
  ghost predicate Bounds(v: int, V: int, alpha: int, beta: int) {
    && (alpha < v < beta ==> v == V)
    && (v <= alpha ==> V <= v)
    && (v >= beta ==> V >= v)
  }

  /** Pruning is sound: for every tree and every window, the pruned value is the plain one inside the window, an
      upper bound at or below it and a lower bound at or above it. */
  lemma {:induction false} AlphaBetaSound(t: Tree, alpha: int, beta: int)
    requires alpha < beta
    ensures Bounds(AlphaBeta(t, alpha, beta), Minimax(t), alpha, beta)
    decreases t, 0
  {
    match t
    case Leaf(_) =>
    case Node(kids) => ScanSound(kids, alpha, beta);
  }

  lemma {:induction false} ScanSound(kids: seq<Tree>, alpha: int, beta: int)
    requires alpha < beta
    ensures var s := Scan(kids, alpha, beta);
      && alpha <= s.alpha <= Max(alpha, s.best)
      && (s.cut <==> s.alpha >= beta)
      && (s.cut ==> s.best >= beta)
      && (s.best > alpha ==> BestOf(kids) >= s.best)
      && (!s.cut ==> BestOf(kids) <= s.best)
    decreases kids, 1
  {
    if kids != [] {
      var last := kids[|kids| - 1];
      ScanSound(kids[..|kids| - 1], alpha, beta);
      var before := Scan(kids[..|kids| - 1], alpha, beta);
      if !before.cut {
        AlphaBetaSound(last, -beta, -before.alpha);
      }
    }
  }

  // ---- Bounds on the scores ----

  /** Every leaf score lies within MIN_SCORE and -MIN_SCORE. */
  predicate InRange(t: Tree) {
    match t
    case Leaf(v) => MIN_SCORE <= v <= -MIN_SCORE
    case Node(kids) => forall i :: 0 <= i < |kids| ==> InRange(kids[i])
  }

  lemma {:induction false} MinimaxInRange(t: Tree)
    requires InRange(t)
    ensures MIN_SCORE <= Minimax(t) <= -MIN_SCORE
    decreases t, 0
  {
    match t
    case Leaf(_) =>
    case Node(kids) => BestInRange(kids);
  }

  lemma {:induction false} BestInRange(kids: seq<Tree>)
    requires forall i :: 0 <= i < |kids| ==> InRange(kids[i])
    ensures MIN_SCORE <= BestOf(kids) <= -MIN_SCORE
    decreases kids, 1
  {
    if kids != [] {
      BestInRange(kids[..|kids| - 1]);
      MinimaxInRange(kids[|kids| - 1]);
    }
  }

  lemma {:induction false} AlphaBetaInRange(t: Tree, alpha: int, beta: int)
    requires InRange(t)
    ensures MIN_SCORE <= AlphaBeta(t, alpha, beta) <= -MIN_SCORE
    decreases t, 0
  {
    match t
    case Leaf(_) =>
    case Node(kids) => ScanInRange(kids, alpha, beta);
  }

  lemma {:induction false} ScanInRange(kids: seq<Tree>, alpha: int, beta: int)
    requires forall i :: 0 <= i < |kids| ==> InRange(kids[i])
    ensures MIN_SCORE <= Scan(kids, alpha, beta).best <= -MIN_SCORE
    decreases kids, 1
  {
    if kids != [] {
      ScanInRange(kids[..|kids| - 1], alpha, beta);
      AlphaBetaInRange(kids[|kids| - 1], -beta, -Scan(kids[..|kids| - 1], alpha, beta).alpha);
    }
  }

  // ---- The root ----

  /** The root loop's state: the best score and the indices of the moves tied for it. The root never cuts. */
  datatype Root = Root(best: int, pool: seq<nat>, alpha: int)

  /** Move n, searched against the best so far. */
  function RootStep(before: Root, n: nat, kid: Tree): Root {
    var score := -AlphaBeta(kid, MIN_SCORE, -before.alpha);
    Root(Max(before.best, score),
         if score > before.best then [n] else if score == before.best then before.pool + [n] else before.pool,
         Max(before.alpha, score))
  }

  function RootScan(kids: seq<Tree>): Root {
    if kids == [] then Root(MIN_SCORE, [], MIN_SCORE)
    else RootStep(RootScan(kids[..|kids| - 1]), |kids| - 1, kids[|kids| - 1])
  }

  /** The root's answer: its best score is the exact value without cutoffs, the first pooled move attains it,
      and no pooled move is worth more. */
  lemma {:induction false} RootExact(kids: seq<Tree>)
    requires forall i :: 0 <= i < |kids| ==> InRange(kids[i])
    ensures var root := RootScan(kids);
      && root.best == root.alpha == BestOf(kids)
      && (kids != [] ==> root.pool != [])
      && (forall j :: 0 <= j < |root.pool| ==> root.pool[j] < |kids| && -Minimax(kids[root.pool[j]]) <= root.best)
      && (root.pool != [] ==> -Minimax(kids[root.pool[0]]) == root.best)
  {
    if kids != [] {
      var n := |kids| - 1;
      RootExact(kids[..n]);
      var before := RootScan(kids[..n]);
      BestInRange(kids[..n]);
      MinimaxInRange(kids[n]);
      AlphaBetaInRange(kids[n], MIN_SCORE, -before.alpha);
      if before.alpha < -MIN_SCORE {
        AlphaBetaSound(kids[n], MIN_SCORE, -before.alpha);
      }
      assert forall j :: 0 <= j < |before.pool| ==> kids[before.pool[j]] == kids[..n][before.pool[j]];
    }
  }

  // ---- Tied moves ----

  /** How many kids the scan looks at before it is cut or runs out. */
  function Looked(kids: seq<Tree>, alpha: int, beta: int): (n: nat)
    ensures n <= |kids|
  {
    if kids == [] then 0
    else if Scan(kids[..|kids| - 1], alpha, beta).cut then Looked(kids[..|kids| - 1], alpha, beta)
    else |kids|
  }

  predicate AllLeaves(kids: seq<Tree>) {
    forall i | 0 <= i < |kids| :: kids[i].Leaf?
  }

  /** Over leaves, the scan returns the best of those it looks at. */
  lemma {:induction false} ScanOfLeaves(kids: seq<Tree>, alpha: int, beta: int)
    requires AllLeaves(kids)
    ensures Scan(kids, alpha, beta).best == BestOf(kids[..Looked(kids, alpha, beta)])
  {
    if kids == [] {
      assert kids[..0] == [];
    } else {
      var rest := kids[..|kids| - 1];
      ScanOfLeaves(rest, alpha, beta);
      if Scan(rest, alpha, beta).cut {
        assert rest[..Looked(rest, alpha, beta)] == kids[..Looked(kids, alpha, beta)];
      } else {
        LooksAtAll(rest, alpha, beta);
        assert kids[..|kids|] == kids && rest[..|rest|] == rest;
      }
    }
  }

  lemma LooksAtAll(kids: seq<Tree>, alpha: int, beta: int)
    requires !Scan(kids, alpha, beta).cut
    ensures Looked(kids, alpha, beta) == |kids|
  {
  }

  lemma {:induction false} BestAtMostIff(kids: seq<Tree>, x: int)
    ensures BestOf(kids) <= x <==> MIN_SCORE <= x && forall i | 0 <= i < |kids| :: -Minimax(kids[i]) <= x
  {
    if kids != [] {
      var rest := kids[..|kids| - 1];
      BestAtMostIff(rest, x);
      assert forall i | 0 <= i < |rest| :: rest[i] == kids[i];
    }
  }

  /** No reply that the search of a tied move skipped is worth more to the opponent than the tie. */
  ghost predicate NoBetterReplySkipped(replies: seq<Tree>, best: int) {
    forall i | Looked(replies, MIN_SCORE, -best) <= i < |replies| :: -Minimax(replies[i]) <= -best
  }

  /** A move answered by leaves whose pruned score ties with the best is worth exactly the best if and only if no reply
      after the cut is worth more to the opponent; in particular when the scan was not cut before its last reply. */
  lemma TieExactIff(replies: seq<Tree>, best: int)
    requires AllLeaves(replies) && -AlphaBeta(Node(replies), MIN_SCORE, -best) == best
    ensures -Minimax(Node(replies)) == best <==> NoBetterReplySkipped(replies, best)
    ensures Looked(replies, MIN_SCORE, -best) == |replies| ==> -Minimax(Node(replies)) == best
  {
    var n := Looked(replies, MIN_SCORE, -best);
    ScanOfLeaves(replies, MIN_SCORE, -best);
    BestAtMostIff(replies[..n], -best);
    BestAtMostIff(replies, -best);
    assert forall i | 0 <= i < n :: replies[..n][i] == replies[i];
    BestOfPrefix(replies, n);
  }

  lemma BestOfPrefix(kids: seq<Tree>, n: nat)
    requires n <= |kids|
    ensures BestOf(kids[..n]) <= BestOf(kids)
  {
    BestAtMostIff(kids, BestOf(kids));
    BestAtMostIff(kids[..n], BestOf(kids));
    assert forall i | 0 <= i < n :: kids[..n][i] == kids[i];
  }

  /** Every pooled move after the first, searched against the root's best, ties with it. */
  ghost predicate LaterTie(kids: seq<Tree>, root: Root) {
    forall j | 1 <= j < |root.pool| :: root.pool[j] < |kids| && -AlphaBeta(kids[root.pool[j]], MIN_SCORE, -root.best) == root.best
  }

  lemma LaterTieStep(kids: seq<Tree>, before: Root)
    requires kids != [] && LaterTie(kids[..|kids| - 1], before) && before.best == before.alpha
    ensures LaterTie(kids, RootStep(before, |kids| - 1, kids[|kids| - 1]))
  {
    hide AlphaBeta;
    var n := |kids| - 1;
    assert forall j | 1 <= j < |before.pool| :: before.pool[j] < n && kids[before.pool[j]] == kids[..n][before.pool[j]];
  }

  lemma {:induction false} PooledMovesTie(kids: seq<Tree>)
    requires forall i :: 0 <= i < |kids| ==> InRange(kids[i])
    ensures LaterTie(kids, RootScan(kids))
  {
    hide AlphaBeta, InRange, BestOf, Minimax, LaterTie, RootStep;
    if kids == [] {
      NothingPooled();
    } else {
      PooledMovesTie(kids[..|kids| - 1]);
      RootExact(kids[..|kids| - 1]);
      LaterTieStep(kids, RootScan(kids[..|kids| - 1]));
    }
  }

  lemma NothingPooled()
    ensures LaterTie([], RootScan([]))
  {
  }

  /** At most one more ply: a leaf, or a node over leaves. */
  predicate IsFlat(t: Tree) {
    t.Leaf? || AllLeaves(t.kids)
  }

  /** When a later pooled move of a two-ply search is worth the best, exactly: it ends the game or is not searched on, or
      no reply its search skipped is worth more to the opponent than the tie. */
  lemma PooledExactIff(kids: seq<Tree>, j: nat)
    requires forall i :: 0 <= i < |kids| ==> InRange(kids[i])
    requires var root := RootScan(kids); 1 <= j < |root.pool| && root.pool[j] < |kids| && IsFlat(kids[root.pool[j]])
    ensures var root := RootScan(kids);
      var t := kids[root.pool[j]];
      -Minimax(t) == root.best <==> t.Leaf? || NoBetterReplySkipped(t.kids, root.best)
  {
    hide RootScan, NoBetterReplySkipped;
    PooledMovesTie(kids);
    var root := RootScan(kids);
    var t := kids[root.pool[j]];
    match t
    case Leaf(_) =>
    case Node(replies) => TieExactIff(replies, root.best);
  }

  /** In a tree, a later pooled move can be worth strictly less than the best: its search was cut at the tie. */
  lemma TiedMoveMayBeWorse() returns (kids: seq<Tree>)
    ensures |kids| == 2 && InRange(kids[0]) && InRange(kids[1])
    ensures RootScan(kids).pool == [0, 1]
    ensures -Minimax(kids[1]) < RootScan(kids).best
  {
    var good, bad := Node([Leaf(5)]), Node([Leaf(5), Leaf(-3)]);
    kids := [good, bad];
    assert Minimax(good) == -5 by {
      assert [Leaf(5)][..0] == [];
    }
    assert Minimax(bad) == 3 by {
      assert [Leaf(5), Leaf(-3)][..1] == [Leaf(5)] && [Leaf(5)][..0] == [];
    }
    assert AlphaBeta(good, MIN_SCORE, -MIN_SCORE) == -5 by {
      assert [Leaf(5)][..0] == [];
    }
    assert Scan([Leaf(5)], MIN_SCORE, -5) == Progress(-5, -5, true) by {
      assert [Leaf(5)][..0] == [];
    }
    assert AlphaBeta(bad, MIN_SCORE, -5) == -5 by {
      assert [Leaf(5), Leaf(-3)][..1] == [Leaf(5)];
    }
    assert RootScan([good]) == Root(5, [0], 5) by {
      assert [good][..0] == [];
    }
    assert kids[..1] == [good];
  }

  // ---- When every mover can play ----

  /** Every inner node has a move, and every leaf score lies strictly inside the extreme scores. */
  predicate Healthy(t: Tree) {
    match t
    case Leaf(v) => MIN_SCORE < v < -MIN_SCORE
    case Node(kids) => kids != [] && forall i :: 0 <= i < |kids| ==> Healthy(kids[i])
  }

  /** v is the game value of t in the textbook sense: at a node, one kid's negated value attains it and none exceeds it. */
  ghost predicate IsGameValue(t: Tree, v: int)
    decreases t, 0
  {
    match t
    case Leaf(w) => v == w
    case Node(kids) =>
      && (exists i :: 0 <= i < |kids| && IsGameValue(kids[i], -v))
      && (forall i :: 0 <= i < |kids| ==> AtLeast(kids[i], -v))
  }

  /** The kid is worth at least x to the player to move there. */
  ghost predicate AtLeast(t: Tree, x: int)
    decreases t, 1
  {
    exists w :: x <= w && IsGameValue(t, w)
  }

  lemma {:induction false} HealthyValue(t: Tree)
    requires Healthy(t)
    ensures IsGameValue(t, Minimax(t)) && MIN_SCORE < Minimax(t) < -MIN_SCORE
    decreases t, 0
  {
    match t
    case Leaf(_) =>
    case Node(kids) =>
      var i := HealthyBest(kids);
      HealthyValue(kids[i]);
      forall j | 0 <= j < |kids| ensures AtLeast(kids[j], -BestOf(kids)) {
        HealthyValue(kids[j]);
        BestIsUpperBound(kids, j);
      }
  }

  lemma {:induction false} BestIsUpperBound(kids: seq<Tree>, j: nat)
    requires j < |kids|
    ensures -Minimax(kids[j]) <= BestOf(kids)
  {
    if j < |kids| - 1 {
      BestIsUpperBound(kids[..|kids| - 1], j);
    }
  }

  lemma {:induction false} HealthyBest(kids: seq<Tree>) returns (i: nat)
    requires kids != [] && forall i :: 0 <= i < |kids| ==> Healthy(kids[i])
    ensures i < |kids| && BestOf(kids) == -Minimax(kids[i]) && MIN_SCORE < BestOf(kids) < -MIN_SCORE
    decreases kids, 1
  {
    var n := |kids| - 1;
    HealthyValue(kids[n]);
    i := n;
    if n > 0 {
      var k := HealthyBest(kids[..n]);
      if BestOf(kids[..n]) > -Minimax(kids[n]) {
        i := k;
      }
    } else {
      assert kids[..n] == [];
    }
  }

  /** The game value is unique, so a healthy tree's search value is its game value. */
  lemma {:induction false} GameValueUnique(t: Tree, v: int, w: int)
    requires IsGameValue(t, v) && IsGameValue(t, w)
    ensures v == w
    decreases t
  {
    match t
    case Leaf(_) =>
    case Node(kids) =>
      GameValueAtMost(kids, v, w);
      GameValueAtMost(kids, w, v);
  }

  lemma {:induction false} GameValueAtMost(kids: seq<Tree>, v: int, w: int)
    requires IsGameValue(Node(kids), v) && IsGameValue(Node(kids), w)
    ensures v <= w
    decreases Node(kids), 0
  {
    var i :| 0 <= i < |kids| && IsGameValue(kids[i], -v);
    assert AtLeast(kids[i], -w);
    var x :| -w <= x && IsGameValue(kids[i], x);
    GameValueUnique(kids[i], -v, x);
  }
}
