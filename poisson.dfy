/** The Poisson probability mass function used for goal counts
    (prob_agent.py, `_poisson_pmf`). The exponential function is a
    parameter `exp`: the engine's transcendental numerics are not modelled,
    and the only fact about `exp` any proof relies on is that it is
    positive (`PositiveEverywhere`). */
module Poisson {
  import opened Sums

  ghost predicate PositiveEverywhere(exp: real -> real)
  {
    forall x: real :: exp(x) > 0.0
  }

  /** `x ** k` for a natural exponent. */
  function Power(x: real, k: nat): (r: real)
    ensures x > 0.0 ==> r > 0.0
  {
    if k == 0 then 1.0 else x * Power(x, k - 1)
  }

  /** `math.factorial(k)`. */
  function Factorial(k: nat): (r: nat)
    ensures r >= 1
  {
    if k == 0 then 1 else k * Factorial(k - 1)
  }

  /** Probability of exactly `k` goals at rate `rate`. A non-positive rate
      is the point distribution at zero goals. */
  function Pmf(exp: real -> real, rate: real, k: nat): (r: real)
    ensures rate <= 0.0 ==> (r == 1.0 <==> k == 0) && (r == 0.0 <==> k != 0)
  {
    if rate <= 0.0 then (if k == 0 then 1.0 else 0.0)
    else exp(-rate) * Power(rate, k) / Factorial(k) as real
  }

  /** A mass is never negative, and a positive rate gives every goal count
      a positive mass. */
  lemma PmfSign(exp: real -> real, rate: real, k: nat)
    requires PositiveEverywhere(exp)
    ensures Pmf(exp, rate, k) >= 0.0
    ensures rate > 0.0 ==> Pmf(exp, rate, k) > 0.0
  {
    if rate > 0.0 {
      assert exp(-rate) > 0.0;
      assert Power(rate, k) > 0.0;
      assert exp(-rate) * Power(rate, k) > 0.0;
    }
  }

  /** `pmf(rate, 0), ..., pmf(rate, n-1)`. */
  function Masses(exp: real -> real, rate: real, n: nat): (ps: seq<real>)
    ensures |ps| == n && forall k :: 0 <= k < n ==> ps[k] == Pmf(exp, rate, k)
  {
    seq(n, k requires 0 <= k < n => Pmf(exp, rate, k))
  }

  /** Mass of the goal counts 0 .. n-1. */
  function Mass(exp: real -> real, rate: real, n: nat): real
  {
    PrefixSum(Masses(exp, rate, n), n)
  }

  lemma {:induction false} DegeneratePrefix(exp: real -> real, rate: real, n: nat, b: nat)
    requires rate <= 0.0 && 1 <= b <= n
    ensures PrefixSum(Masses(exp, rate, n), b) == 1.0
  {
    if b > 1 {
      DegeneratePrefix(exp, rate, n, b - 1);
    }
  }

  /** A non-positive rate puts all of its mass on zero goals, so every
      truncation that keeps zero goals carries mass exactly 1. */
  lemma DegenerateMass(exp: real -> real, rate: real, n: nat)
    requires rate <= 0.0 && n >= 1
    ensures Mass(exp, rate, n) == 1.0
  {
    DegeneratePrefix(exp, rate, n, n);
  }
}
