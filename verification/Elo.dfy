/** Rating updates after a finished rated game, over an abstract expected-score curve and exact reals. */
module Elo {
  import opened Arith

  const K: int := 32

  datatype Outcome = Loss | Draw | Win

  datatype MultiResult = MultiResult(userId: string, newRating: int, result: char)

  /** expected(a, b) is the expected score of a player rated a against one rated b. */
  type Curve = (int, int) -> real

  /** What the logistic curve gives: a probability, complementary, and at least one half for the higher rated. */
  ghost predicate IsCurve(expected: Curve) {
    forall a, b ::
      && 0.0 < expected(a, b) < 1.0
      && expected(a, b) + expected(b, a) == 1.0
      && (a >= b ==> expected(a, b) >= 0.5)
  }

  function Score(o: Outcome): real {
    match o
    case Win => 1.0
    case Draw => 0.5
    case Loss => 0.0
  }

  function Opposite(o: Outcome): Outcome {
    match o
    case Win => Loss
    case Draw => Draw
    case Loss => Win
  }

  /** To the nearest integer, halves away from zero. */
  function Round(x: real): (n: int)
    ensures -0.5 <= n as real - x <= 0.5
  {
    if x >= 0.0 then (x + 0.5).Floor else -((-x + 0.5).Floor)
  }

  lemma RoundIsOdd(x: real)
    ensures Round(-x) == -Round(x)
  {
    assert -(-x) == x;
  }

  function Update(expected: Curve, rating: int, opponent: int, o: Outcome): int {
    rating + Round(K as real * (Score(o) - expected(rating, opponent)))
  }

  /** In a 1v1 game what one player gains the other loses, whoever wins; the winner never loses points, nobody's rating
      moves by more than K, an upset is worth at least K / 2 and a favourite's win at most that, and on a draw the
      higher rated player never gains. */
  lemma ZeroSumLaw(expected: Curve, a: int, b: int, o: Outcome)
    requires IsCurve(expected)
    ensures (Update(expected, a, b, o) - a) + (Update(expected, b, a, Opposite(o)) - b) == 0
    ensures o == Win ==> 0 <= Update(expected, a, b, o) - a <= K
    ensures o == Loss ==> -K <= Update(expected, a, b, o) - a <= 0
    ensures o == Win && a <= b ==> Update(expected, a, b, o) - a >= K / 2
    ensures o == Win && a >= b ==> Update(expected, a, b, o) - a <= K / 2
    ensures o == Draw && a >= b ==> Update(expected, a, b, o) <= a
  {
    var x, y := K as real * (Score(o) - expected(a, b)), K as real * (Score(Opposite(o)) - expected(b, a));
    assert expected(a, b) + expected(b, a) == 1.0;
    assert y == -x;
    RoundIsOdd(x);
    assert a <= b ==> expected(b, a) >= 0.5;
  }

  function Sum(xs: seq<int>): int {
    if xs == [] then 0 else Sum(xs[..|xs| - 1]) + xs[|xs| - 1]
  }

  function Ratings(results: seq<MultiResult>): seq<int> {
    seq(|results|, i requires 0 <= i < |results| => results[i].newRating)
  }

  lemma SumOfNone()
    ensures Sum([]) == 0 && Sum(Ratings([])) == 0
  {
    assert Ratings([]) == [];
  }

  lemma SumGrows(xs: seq<int>, i: nat)
    requires i < |xs|
    ensures Sum(xs[..i + 1]) == Sum(xs[..i]) + xs[i]
  {
    assert xs[..i + 1][..i] == xs[..i];
  }

  lemma RatingsGrow(results: seq<MultiResult>, last: MultiResult)
    ensures Sum(Ratings(results + [last])) == Sum(Ratings(results)) + last.newRating
  {
    assert Ratings(results + [last])[..|results|] == Ratings(results);
  }

  /** The points the winner of a field gains: those of beating a player of the field's average rating. */
  function Gain(expected: Curve, winner: int, opponents: seq<int>): int
    requires opponents != []
  {
    Update(expected, winner, Quotient(Sum(opponents), |opponents|), Win) - winner
  }

  /** What opponent i pays: an equal share each, the first also the remainder. */
  function Pays(gain: int, n: nat, i: nat): int
    requires n > 0
  {
    Quotient(gain, n) + if i == 0 then gain - Quotient(gain, n) * n else 0
  }

  /** What the first i opponents pay together. */
  function Paid(gain: int, n: nat, i: nat): int
    requires n > 0
  {
    if i == 0 then 0 else Paid(gain, n, i - 1) + Pays(gain, n, i - 1)
  }

  lemma {:induction false} PaidSoFar(gain: int, n: nat, i: nat)
    requires n > 0 && i > 0
    ensures Paid(gain, n, i) == Quotient(gain, n) * i + gain - Quotient(gain, n) * n
  {
    hide Quotient;
    if i == 1 {
      assert Paid(gain, n, 0) == 0;
    } else {
      PaidSoFar(gain, n, i - 1);
    }
  }

  /** The shares add up to the gain, positive or negative. */
  lemma AllPaid(gain: int, n: nat)
    requires n > 0
    ensures Paid(gain, n, n) == gain
  {
    hide Quotient, Paid;
    PaidSoFar(gain, n, n);
  }

  method UpdateMulti(expected: Curve, winnerId: string, winnerRating: int, opponentIds: seq<string>, opponentRatings: seq<int>)
    returns (out: seq<MultiResult>)
    ensures opponentIds == [] || |opponentIds| != |opponentRatings| ==> out == []
    ensures opponentIds != [] && |opponentIds| == |opponentRatings| ==>
      && |out| == |opponentIds| + 1
      && Sum(Ratings(out)) == winnerRating + Sum(opponentRatings)
      && out[0] == MultiResult(winnerId, winnerRating + Gain(expected, winnerRating, opponentRatings), 'W')
      && forall i | 0 <= i < |opponentIds| :: out[i + 1] == MultiResult(opponentIds[i],
           opponentRatings[i] - Pays(Gain(expected, winnerRating, opponentRatings), |opponentIds|, i), 'L')
  {
    hide Quotient, Update, Sum, Ratings;
    SumOfNone();
    var n := |opponentIds|;
    if n == 0 || n != |opponentRatings| {
      return [];
    }
    var avg := 0;
    var j := 0;
    while j < n
      invariant j <= n && avg == Sum(opponentRatings[..j])
    {
      SumGrows(opponentRatings, j);
      avg := avg + opponentRatings[j];
      j := j + 1;
    }
    assert opponentRatings[..n] == opponentRatings;
    avg := Quotient(avg, n);
    var newWinner := Update(expected, winnerRating, avg, Win);
    var gain := newWinner - winnerRating;
    var perLoss := Quotient(gain, n);
    var remainder := gain - perLoss * n;
    out := [MultiResult(winnerId, newWinner, 'W')];
    RatingsGrow([], out[0]);
    assert [] + out == out;
    var i := 0;
    while i < n
      invariant i <= n && |out| == i + 1
      invariant out[0] == MultiResult(winnerId, newWinner, 'W')
      invariant forall k | 0 <= k < i :: out[k + 1] == MultiResult(opponentIds[k], opponentRatings[k] - Pays(gain, n, k), 'L')
      invariant Sum(Ratings(out)) == newWinner + Sum(opponentRatings[..i]) - Paid(gain, n, i)
    {
      SumGrows(opponentRatings, i);
      var loss := perLoss;
      if i == 0 {
        loss := loss + remainder;
      }
      var last := MultiResult(opponentIds[i], opponentRatings[i] - loss, 'L');
      RatingsGrow(out, last);
      assert loss == Pays(gain, n, i);
      out := out + [last];
      i := i + 1;
    }
    AllPaid(gain, n);
  }

  lemma ShareBounds(gain: nat, n: nat, i: nat)
    requires i < n
    ensures 0 <= Pays(gain, n, i) <= gain
    ensures i == 0 ==> 0 <= Pays(gain, n, i) - gain / n <= n - 1
    ensures i > 0 ==> Pays(gain, n, i) == gain / n
  {
    QuotientRemainder(gain, n);
    QuotientAtMost(gain, n);
    var q := gain / n;
    MulGrows(q, n);
  }

  /** The field's shares: nobody gains by losing, the first loser pays at most n - 1 more than the others, who pay
      equally, and the winner's gain lies between 0 and K. */
  lemma SharesLaw(expected: Curve, winner: int, opponents: seq<int>, i: nat, k: nat)
    requires IsCurve(expected) && i < |opponents| && k < |opponents|
    ensures var gain, n := Gain(expected, winner, opponents), |opponents|;
      && 0 <= gain <= K
      && 0 <= Pays(gain, n, i) <= gain
      && (k > 0 ==> 0 <= Pays(gain, n, 0) - Pays(gain, n, k) <= n - 1)
      && (i > 0 && k > 0 ==> Pays(gain, n, i) == Pays(gain, n, k))
  {
    hide Pays, Quotient, Update;
    var gain, n := Gain(expected, winner, opponents), |opponents|;
    ZeroSumLaw(expected, winner, Quotient(Sum(opponents), n), Win);
    ShareBounds(gain, n, i);
    ShareBounds(gain, n, 0);
    ShareBounds(gain, n, k);
  }

  /** A win counts the more the lower it was expected: never less, and strictly more once the expectations differ by 1/K. */
  lemma StrongerPaysMore(expected: Curve, a: int, strong: int, weak: int)
    requires expected(a, strong) <= expected(a, weak)
    ensures Update(expected, a, strong, Win) >= Update(expected, a, weak, Win)
    ensures K as real * (expected(a, weak) - expected(a, strong)) >= 1.0 ==>
      Update(expected, a, strong, Win) > Update(expected, a, weak, Win)
  {
    var x, y := K as real * (1.0 - expected(a, weak)), K as real * (1.0 - expected(a, strong));
    RoundGrows(x, y);
  }

  lemma RoundGrows(x: real, y: real)
    requires x <= y
    ensures Round(x) <= Round(y) && (y - x >= 1.0 ==> Round(x) < Round(y))
  {
  }

  /** The winner's gain depends on the field only through its size and its rating sum. */
  lemma GainOfField(expected: Curve, winner: int, field: seq<int>, other: seq<int>)
    requires field != [] && |field| == |other| && Sum(field) == Sum(other)
    ensures Gain(expected, winner, field) == Gain(expected, winner, other)
  {
  }

  lemma {:induction false} SumOfEquals(field: seq<int>, rating: int)
    requires forall i | 0 <= i < |field| :: field[i] == rating
    ensures Sum(field) == rating * |field|
  {
    if field != [] {
      SumOfEquals(field[..|field| - 1], rating);
    }
  }

  /** Beating a field of equals is worth what beating one of them is. */
  lemma GainOverEquals(expected: Curve, winner: int, field: seq<int>, rating: int)
    requires field != [] && forall i | 0 <= i < |field| :: field[i] == rating
    ensures Gain(expected, winner, field) == Update(expected, winner, rating, Win) - winner
  {
    hide Update;
    SumOfEquals(field, rating);
    QuotientOfMultiple(rating, |field|);
  }

  lemma QuotientOfMultiple(rating: int, n: nat)
    requires n > 0
    ensures Quotient(rating * n, n) == rating
  {
    if rating >= 0 {
      MulMonotone(0, rating, n);
      DivModUnique(rating, 0, n);
    } else {
      MulMonotone(rating, -1, n);
      DivModUnique(-rating, 0, n);
    }
  }
}
