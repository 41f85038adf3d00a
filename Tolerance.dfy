/** The tolerance model: where the n-th isotope of a seed is expected for a
    given charge and direction, and when a candidate peak is close enough. */
module Tolerance {
  import opened Peaks

  /** Expected m/z spacing of neighbouring isotopes at charge 1, in Da: the
      mass of a neutron less the binding energy it contributes on average. */
  const IsotopeDistance: real := 1.0033

  function Abs(x: real): (r: real)
    ensures r >= 0.0 && (r == x || r == -x)
  {
    if x < 0.0 then -x else x
  }

  /** n times x, as repeated addition, so that unfolding it yields only
      linear arithmetic. */
  function Multiple(n: nat, x: real): real {
    if n == 0 then 0.0 else Multiple(n - 1, x) + x
  }

  /** Multiple is multiplication. */
  lemma {:induction false} MultipleIsProduct(n: nat, x: real)
    ensures Multiple(n, x) == n as real * x
  {
    if n > 0 {
      MultipleIsProduct(n - 1, x);
    }
  }

  /** The m/z offset of the n-th isotope in `direction` (-1 or +1) from the
      seed: n steps of direction * isotopeDistance / charge. */
  function ExpectedShift(charge: int, direction: int, n: nat): real
    requires charge != 0
  {
    Multiple(n, IsotopeDistance * direction as real / charge as real)
  }

  /** The offset is the source's direction * n * isotopeDistance / charge. */
  lemma ShiftFormula(charge: int, direction: int, n: nat)
    requires charge != 0
    ensures ExpectedShift(charge, direction, n) == IsotopeDistance * direction as real * n as real / charge as real
  {
    MultipleIsProduct(n, IsotopeDistance * direction as real / charge as real);
  }

  /** The candidate lies within the m/z tolerance (inclusive) of the expected
      position and within the RT tolerance (exclusive) of the seed. Stated as
      the source writes it, with absolute values; the ensures gives the same
      condition as two intervals. */
  predicate Matches(candidate: Peak, seed: Peak, charge: int, direction: int, n: nat, p: Params): (b: bool)
    requires charge != 0
    ensures b <==>
      && seed.mz + ExpectedShift(charge, direction, n) - p.mzTolerance <= candidate.mz
      && candidate.mz <= seed.mz + ExpectedShift(charge, direction, n) + p.mzTolerance
      && seed.rt - p.rtTolerance < candidate.rt < seed.rt + p.rtTolerance
  {
    && Abs((candidate.mz - ExpectedShift(charge, direction, n)) - seed.mz) <= p.mzTolerance
    && Abs(candidate.rt - seed.rt) < p.rtTolerance
  }
}
