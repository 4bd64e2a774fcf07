/**
 * roundCurrency (lib/calculations.ts:5-8) with the default two decimals:
 * `Math.round(value * 100 + Number.EPSILON) / 100`. The model returns the
 * result in cents. Every other computation of the engine works on cents
 * already, where this rounding changes nothing (RoundCurrencyKeepsCents).
 */
module Currency {

  /** The nearest cent, halves rounded up (towards positive infinity) as `Math.round` does. */
  function RoundCurrency(value: real): (cents: int)
    ensures (cents as real) - 0.5 <= value * 100.0 < (cents as real) + 0.5
  {
    (value * 100.0 + 0.5).Floor
  }

  /** A whole number of cents is already rounded. */
  lemma RoundCurrencyKeepsCents(c: int)
    ensures RoundCurrency(c as real / 100.0) == c
  {
    assert (c as real / 100.0) * 100.0 == c as real;
  }
}
