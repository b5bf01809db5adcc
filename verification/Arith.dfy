/** The few facts about products, quotients and remainders that the geometry and the turn order need. */
module Arith {

  lemma {:induction false} MulGrows(q: nat, b: nat)
    requires b >= 1
    ensures q * b >= q
  {
    if q > 0 {
      MulGrows(q - 1, b);
      assert q * b == (q - 1) * b + b;
    }
  }

  lemma MulMonotone(a: int, b: int, n: nat)
    requires a <= b
    ensures a * n <= b * n
  {
    assert (b - a) * n >= 0;
    assert b * n == a * n + (b - a) * n;
  }

  lemma ProductBound(a: nat, b: nat, c: nat, d: nat)
    requires a <= b && c <= d
    ensures 0 <= a * c <= b * d
  {
    MulMonotone(a, b, c);
    MulMonotone(c, d, b);
    assert b * c == c * b && b * d == d * b;
  }

  lemma OneMore(k: int, n: int)
    ensures (k + 1) * n == k * n + n
  {
  }

  lemma QuotientRemainder(x: int, n: int)
    requires n > 0
    ensures x == (x / n) * n + x % n && 0 <= x % n < n
  {
  }

  lemma SmallMultiple(d: int, n: int)
    requires -n < d * n < n
    ensures d == 0
  {
    if d >= 1 {
      MulMonotone(1, d, n);
    } else if d <= -1 {
      MulMonotone(d, -1, n);
    }
  }

  /** Quotient and remainder are unique. */
  lemma DivModUnique(row: int, col: int, n: int)
    requires 0 <= col < n
    ensures (row * n + col) / n == row && (row * n + col) % n == col
  {
    var x := row * n + col;
    QuotientRemainder(x, n);
    var d := x / n - row;
    assert d * n == (x / n) * n - row * n;
    SmallMultiple(d, n);
  }

  lemma MulBounds(a: int, b: int, n: int)
    requires 0 <= a < n && 0 <= b < n
    ensures 0 <= a * n + b < n * n
  {
    MulMonotone(a, n - 1, n);
    MulMonotone(0, a, n);
    OneMore(n - 1, n);
  }

  lemma QuotientBounds(i: int, n: int)
    requires n > 0 && 0 <= i < n * n
    ensures 0 <= i / n < n
  {
    QuotientRemainder(i, n);
    var d := i / n;
    if d >= n {
      MulMonotone(n, d, n);
    } else if d <= -1 {
      MulMonotone(d, -1, n);
    }
  }

  lemma QuotientBelow(m: nat, n: nat, most: nat)
    requires n > 0 && m < most * n
    ensures 0 <= m / n < most
  {
    QuotientRemainder(m, n);
    var k := m / n;
    if k >= most {
      MulMonotone(most, k, n);
    } else if k < 0 {
      MulMonotone(k, -1, n);
    }
  }

  lemma QuotientAtMost(a: nat, b: nat)
    requires b > 0
    ensures 0 <= a / b <= a
  {
    QuotientRemainder(a, b);
    if a / b < 0 {
      MulMonotone(a / b, -1, b);
    } else {
      MulGrows(a / b, b);
    }
  }

  /** Counting on by one among n. */
  lemma SuccessorDivMod(m: nat, n: nat)
    requires n > 0
    ensures (m + 1) % n == (if m % n == n - 1 then 0 else m % n + 1)
    ensures (m + 1) / n == m / n + (if m % n == n - 1 then 1 else 0)
  {
    var k, t := m / n, m % n;
    QuotientRemainder(m, n);
    OneMore(k, n);
    if t == n - 1 {
      DivModUnique(k + 1, 0, n);
    } else {
      DivModUnique(k, t + 1, n);
    }
  }

  function Abs(x: int): nat {
    if x < 0 then -x else x
  }

  /** Division rounding toward zero. */
  function Quotient(x: int, n: int): int
    requires n > 0
  {
    if x >= 0 then x / n else -((-x) / n)
  }

  /** A subset is no larger. */
  lemma {:induction false} Cardinality<T>(small: set<T>, big: set<T>)
    requires small <= big
    ensures |small| <= |big|
  {
    if x :| x in small {
      Cardinality(small - {x}, big - {x});
    }
  }
}
