/** Finite sums of reals, shared by the Poisson masses and the score
    grid. */
module Sums {

  /** `xs[0] + ... + xs[b-1]`. */
  function PrefixSum(xs: seq<real>, b: nat): real
    requires b <= |xs|
  {
    if b == 0 then 0.0 else PrefixSum(xs, b - 1) + xs[b - 1]
  }
}
