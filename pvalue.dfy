/** P-value truncation, `int(p * 100) / 100`, and the significance level
    the drift flag compares against. Floating-point rounding is not
    modelled: values are reals. */
module PValue {

  /** The significance level of the drift flag. */
  const Threshold: real := 0.05

  /** Python's `int(x)` on a float: the integer part, rounded toward zero. */
  function TruncateTowardZero(x: real): int {
    if x >= 0.0 then x.Floor else -((-x).Floor)
  }

  /** `int(p * 100) / 100`: cut `p` to two decimals toward zero. */
  function Truncate(p: real): real {
    TruncateTowardZero(p * 100.0) as real / 100.0
  }

  /** A whole number of hundredths. */
  predicate IsHundredths(r: real) {
    (r * 100.0).Floor as real == r * 100.0
  }

  /** For a non-negative p the result r is the largest whole number of
      hundredths not above p: r <= p < r + 0.01; for a negative p the cut is
      toward zero, so r - 0.01 < p <= r <= 0. */
  lemma TruncateBounds(p: real)
    ensures IsHundredths(Truncate(p))
    ensures p >= 0.0 ==> 0.0 <= Truncate(p) <= p < Truncate(p) + 0.01
    ensures p < 0.0 ==> Truncate(p) - 0.01 < p <= Truncate(p) <= 0.0
  {
    var n := TruncateTowardZero(p * 100.0);
    assert Truncate(p) * 100.0 == n as real;
  }

  /** A p-value in [0, 1] stays in [0, 1]. */
  lemma TruncateUnitInterval(p: real)
    requires 0.0 <= p <= 1.0
    ensures 0.0 <= Truncate(p) <= 1.0
  {
    TruncateBounds(p);
  }

  /** Truncating an already truncated value changes nothing. */
  lemma TruncateIdempotent(p: real)
    ensures Truncate(Truncate(p)) == Truncate(p)
  {
    var n := TruncateTowardZero(p * 100.0);
    assert Truncate(p) * 100.0 == n as real;
    assert TruncateTowardZero(n as real) == n;
  }

  /** Truncation is monotone. */
  lemma TruncateMonotone(p: real, q: real)
    requires p <= q
    ensures Truncate(p) <= Truncate(q)
  {
    var m, n := TruncateTowardZero(p * 100.0), TruncateTowardZero(q * 100.0);
    assert m <= n;
  }

  /** Since 0.05 is a whole number of hundredths, cutting a p-value to two
      decimals never changes whether it falls under the threshold. */
  lemma TruncatePreservesVerdict(p: real)
    ensures Truncate(p) < Threshold <==> p < Threshold
  {
    TruncateBounds(p);
    var n := TruncateTowardZero(p * 100.0);
    assert Truncate(p) * 100.0 == n as real;
  }

  /** The boundary cases: 0.05 is kept as it is and is therefore not below
      the threshold, while 0.049999 is cut to 0.04 and is. */
  lemma TruncateAtThreshold()
    ensures Truncate(0.05) == 0.05 && !(Truncate(0.05) < Threshold)
    ensures Truncate(0.049999) == 0.04 && Truncate(0.049999) < Threshold
  {
    assert (0.05 * 100.0).Floor == 5;
    assert (0.049999 * 100.0).Floor == 4;
  }

  /** `ks_2samp`: the Kolmogorov-Smirnov p-value of the two series as the
      statistics library reports it (`raw`), cut to two decimals. */
  function KsTwoSample<T>(s1: seq<T>, s2: seq<T>, ks: (seq<T>, seq<T>) -> real): (p: real)
    ensures IsHundredths(p)
    ensures ks(s1, s2) >= 0.0 ==> 0.0 <= p <= ks(s1, s2) < p + 0.01
    ensures p < Threshold <==> ks(s1, s2) < Threshold
  {
    TruncateBounds(ks(s1, s2));
    TruncatePreservesVerdict(ks(s1, s2));
    Truncate(ks(s1, s2))
  }
}
