/** Small facts of real arithmetic that the proofs about the score grid
    and the markets apply to single cells and prices. Each is stated here
    once so that the solver meets a product or a quotient in isolation. */
module Arith {
  lemma ProductNonnegative(x: real, y: real)
    requires x >= 0.0 && y >= 0.0
    ensures x * y >= 0.0
  {
  }

  lemma TimesOne(x: real, y: real)
    requires y == 1.0
    ensures x * y == x
  {
  }

  lemma ZeroTimes(x: real, y: real)
    requires x == 0.0
    ensures x * y == 0.0
  {
  }

  lemma TimesZero(x: real, y: real)
    requires y == 0.0
    ensures x * y == 0.0
  {
  }

  lemma ZeroDivided(x: real, s: real)
    requires x == 0.0 && s != 0.0
    ensures x / s == 0.0
  {
  }

  lemma ProductPositive(x: real, y: real)
    requires x > 0.0 && y > 0.0
    ensures x * y > 0.0
  {
  }

  lemma ProductNonpositive(x: real, y: real)
    requires x <= 0.0 && y > 0.0
    ensures x * y <= 0.0
  {
  }

  lemma QuotientOfSelf(x: real)
    requires x != 0.0
    ensures x / x == 1.0
  {
  }

  lemma QuotientNonnegative(x: real, s: real)
    requires x >= 0.0 && s > 0.0
    ensures x / s >= 0.0
  {
  }

  lemma ProductOfEquals(a: real, b: real, c: real, d: real)
    requires a == c && b == d
    ensures a * b == c * d
  {
  }

  lemma QuotientTimes(x: real, s: real)
    requires s != 0.0
    ensures (x / s) * s == x
  {
  }

  lemma QuotientsAdd(x: real, y: real, s: real)
    requires s != 0.0
    ensures x / s + y / s == (x + y) / s
  {
  }

  lemma QuotientBounded(x: real, s: real)
    requires 0.0 <= x <= s && s > 0.0
    ensures 0.0 <= x / s <= 1.0
  {
    QuotientOfSelf(s);
    assert x / s <= s / s;
  }
}
