/**
 * JavaScript values as the app receives them from OpenStreetMap JSON:
 * nullable values, the numbers `parseFloat` can produce, and tag maps whose
 * entries are tested for truthiness.
 */
module JsValues {

  /** `null` (or `undefined`) versus a present value. */
  datatype Option<+T> = None | Some(value: T)

  /** A JavaScript number as `parseFloat` may return it. */
  datatype Number = Finite(value: real) | NaN | Infinity(negative: bool)

  /**
   * The smallest magnitude an exact real result must reach for IEEE 754
   * round-to-nearest multiplication to overflow to an infinity:
   * 2^1024 - 2^970, half an ulp above the largest finite double.
   */
  const OverflowBound: real := 179769313486231580793728971405303415079934132710037826936173778980444968292764750946649017977587207096330286416692887910946555547851940402630657488671505820681908902000708383676273854845817711531764475730270069855571366959622842914819860834936475292719074168444365510704342711559699508093042880177904174497792.0

  /**
   * `n * 3` in JavaScript arithmetic: NaN and the infinities propagate, and a
   * product at or beyond `OverflowBound` in magnitude becomes an infinity of
   * its sign. A finite product is the exact real one.
   */
  function Triple(n: Number): (r: Number)
    ensures !n.Finite? ==> r == n
    ensures r.Finite? ==> n.Finite? && r.value == 3.0 * n.value
    ensures n.Finite? && -OverflowBound < 3.0 * n.value < OverflowBound ==> r.Finite?
    ensures n.Finite? && r.Infinity? ==> r.negative == (n.value < 0.0)
    ensures !r.NaN? <==> !n.NaN?
  {
    match n
    case Finite(v) =>
      if 3.0 * v >= OverflowBound then Infinity(false)
      else if 3.0 * v <= -OverflowBound then Infinity(true)
      else Finite(v * 3.0)
    case NaN => NaN
    case Infinity(neg) => Infinity(neg)
  }

  /** An OSM tag map: every value is a string. */
  type Tags = map<string, string>

  /** `tags[key]` is truthy: the key is present and its string is non-empty. */
  predicate Truthy(tags: Tags, key: string)
  {
    key in tags && tags[key] != ""
  }
}
