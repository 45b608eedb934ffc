/** Small helpers on reals shared by the models: the fminf/fmaxf of the
    kernels and a closed-segment test. */
module RealMath {

  function Min(a: real, b: real): real { if a <= b then a else b }

  function Max(a: real, b: real): real { if a <= b then b else a }

  /** p forced into [lo, hi]. */
  function Clamp(p: real, lo: real, hi: real): real
  {
    if p < lo then lo else if p > hi then hi else p
  }

  /** x lies on the closed segment between a and b, in either order. */
  predicate Between(x: real, a: real, b: real)
  {
    (a <= x <= b) || (b <= x <= a)
  }

  /** b raised to the natural power n. */
  function Pow(b: real, n: nat): real
  {
    if n == 0 then 1.0 else b * Pow(b, n - 1)
  }

  lemma PowStep(b: real, n: nat)
    requires n > 0
    ensures Pow(b, n) == b * Pow(b, n - 1)
  {
  }
}
