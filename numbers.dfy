/**
 * Numeric input as the server sees it after `parseFloat`, and the
 * `Math.round(x * 100) / 100` rounding it applies before storing prices and
 * tax rates. Values are exact reals: binary floating point is not modelled.
 */
module Numbers {

  /** The result of `parseFloat`: not-a-number, a finite value, or an infinity. */
  datatype Number = NaN | Finite(value: real) | Infinite(negative: bool)

  /** The server's rejection test `isNaN(x) || x < 0 || x > hi`. */
  predicate Rejected(n: Number, hi: nat) {
    match n
    case NaN => true
    case Finite(v) => v < 0.0 || v > hi as real
    case Infinite(negative) => true
  }

  /** A value the test lets through is finite and lies in [0, hi]. */
  lemma AcceptedIsInRange(n: Number, hi: nat)
    ensures !Rejected(n, hi) <==> n.Finite? && 0.0 <= n.value <= hi as real
  {
  }

  /** A whole number of hundredths. */
  predicate IsCents(x: real) {
    (x * 100.0).Floor as real == x * 100.0
  }

  /** `Math.round(x * 100) / 100`; `Math.round` rounds halves upwards. The result is always in hundredths. */
  function Round2(x: real): (r: real)
    ensures IsCents(r)
  {
    var k := (x * 100.0 + 0.5).Floor;
    assert (k as real / 100.0) * 100.0 == k as real;
    k as real / 100.0
  }

  /** Rounding a value in [0, hi] stays in [0, hi] and gives whole hundredths. */
  lemma Round2InRange(x: real, hi: nat)
    requires 0.0 <= x <= hi as real
    ensures 0.0 <= Round2(x) <= hi as real
    ensures IsCents(Round2(x))
  {
    var k := (x * 100.0 + 0.5).Floor;
    assert k as real <= x * 100.0 + 0.5 <= (hi * 100) as real + 0.5;
    assert k <= hi * 100;
    assert Round2(x) * 100.0 == k as real;
  }

  /** Rounding moves a value by at most half a hundredth, with exact halves going up. */
  lemma Round2Nearest(x: real)
    ensures x - 0.005 < Round2(x) <= x + 0.005
  {
    var k := (x * 100.0 + 0.5).Floor;
    assert x * 100.0 + 0.5 - 1.0 < k as real <= x * 100.0 + 0.5;
  }

  /** A value already in hundredths is left as it is. */
  lemma Round2OfCents(x: real)
    requires IsCents(x)
    ensures Round2(x) == x
  {
    var k := (x * 100.0).Floor;
    assert (x * 100.0 + 0.5).Floor == k;
  }
}
