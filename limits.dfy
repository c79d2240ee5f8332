/**
 * The request `limit` as every handler reads it: `parseInt(raw, 10)`, with a
 * default for anything that is not a positive number and a cap.
 */
module Limits {
  import opened Json

  /** `Math.min(a, b)` on integers. */
  function Min(a: int, b: int): int {
    if a <= b then a else b
  }

  /**
   * `sanitizeLimit(raw, def, max)`: `parseInt(raw, 10)` when it is positive,
   * `def` when it is `NaN` or not positive, and never more than `max`.
   */
  function SanitizeLimit(raw: Json, def: int, max: int): (n: int)
    ensures n <= max
    ensures def >= 1 && max >= 1 ==> n >= 1
  {
    SanitizeParsed(ParseIntOf(raw), def, max)
  }

  /** The same rule once `parseInt` has run; `None` is `NaN`. */
  function SanitizeParsed(p: Option<int>, def: int, max: int): (n: int)
    ensures n <= max
    ensures def >= 1 && max >= 1 ==> n >= 1
    ensures p.None? ==> n == Min(def, max)
    ensures p.Some? && p.value <= 0 ==> n == Min(def, max)
    ensures p.Some? && 0 < p.value <= max ==> n == p.value
    ensures p.Some? && p.value > 0 && p.value > max ==> n == max
  {
    var n := if p.None? || p.value <= 0 then def else p.value;
    if n > max then max else n
  }

  /**
   * `sanitizeLimit(k, def, max)` for a limit that is already a number: the
   * handlers sanitise the request's `limit` once and hand the resulting integer
   * to the normalisers and fallbacks, which sanitise it again.
   */
  function SanitizeInt(k: int, def: int, max: int): (n: int)
    ensures n <= max
    ensures def >= 1 && max >= 1 ==> n >= 1
    ensures 0 < k <= max ==> n == k
  {
    SanitizeParsed(Some(k), def, max)
  }

  /** `SanitizeInt` is `sanitizeLimit` applied to the number `k`. */
  lemma SanitizeIntIsSanitizeLimit(k: int, def: int, max: int)
    ensures SanitizeLimit(JNum(k as real), def, max) == SanitizeInt(k, def, max)
  {
    ParseIntOfInt(k);
  }

  /**
   * A sanitised limit is a fixed point: handlers sanitise once and pass the
   * number on to a normaliser or fallback that sanitises it again, and the
   * second pass changes nothing.
   */
  lemma SanitizeLimitIdempotent(raw: Json, def: int, max: int)
    requires def >= 1 && max >= 1
    ensures SanitizeLimit(JNum(SanitizeLimit(raw, def, max) as real), def, max) == SanitizeLimit(raw, def, max)
  {
    var n := SanitizeLimit(raw, def, max);
    ParseIntOfInt(n);
  }

  /** Every positive integer up to the cap passes through unchanged. */
  lemma SanitizeLimitOfInRange(k: int, def: int, max: int)
    requires 1 <= k <= max
    ensures SanitizeLimit(JNum(k as real), def, max) == k
  {
    ParseIntOfInt(k);
  }
}
