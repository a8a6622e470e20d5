/**
 * Numeric helpers shared by the model: JavaScript's `Math.round`, `Math.min`/`Math.max`
 * clamping, `Math.abs`, the `| 0` truncation to a signed 32-bit integer, and the laws
 * a square-root function must obey.
 *
 * All numbers are exact: `real` for statistics, `int` for scores. `Math.sqrt` is not
 * definable here, so every computation that needs it takes a `sqrt: real -> real`
 * parameter; the lemmas that depend on its behaviour require `SqrtLaws(sqrt)`.
 */
module Numeric {

  /** `Math.round(x)`: the nearest integer, halves rounded up. */
  function Round(x: real): (r: int)
    ensures x - 0.5 < r as real <= x + 0.5
  {
    (x + 0.5).Floor
  }

  /** `Math.round` never decreases when its argument grows. */
  lemma RoundMonotone(x: real, y: real)
    requires x <= y
    ensures Round(x) <= Round(y)
  {
  }

  /** `Math.round` of an integer value is that integer. */
  lemma RoundOfInt(n: int)
    ensures Round(n as real) == n
  {
  }

  function AbsReal(x: real): (r: real)
    ensures r >= 0.0
    ensures r == x || r == -x
  {
    if x < 0.0 then -x else x
  }

  function AbsInt(x: int): (r: int)
    ensures r >= 0
    ensures r == x || r == -x
  {
    if x < 0 then -x else x
  }

  /** `Math.min(Math.max(value, lo), hi)` over reals. */
  function ClampReal(value: real, lo: real, hi: real): (r: real)
    ensures lo <= hi ==> lo <= r <= hi
    ensures lo <= value <= hi ==> r == value
    ensures r == value || r == lo || r == hi
  {
    var m := if value > lo then value else lo;
    if m < hi then m else hi
  }

  /** `Math.min(Math.max(value, lo), hi)` over integers. */
  function ClampInt(value: int, lo: int, hi: int): (r: int)
    ensures lo <= hi ==> lo <= r <= hi
    ensures lo <= value <= hi ==> r == value
    ensures r == value || r == lo || r == hi
  {
    var m := if value > lo then value else lo;
    if m < hi then m else hi
  }

  /** Clamping is monotone in the clamped value. */
  lemma ClampIntMonotone(a: int, b: int, lo: int, hi: int)
    requires a <= b
    requires lo <= hi
    ensures ClampInt(a, lo, hi) <= ClampInt(b, lo, hi)
  {
  }

  lemma ClampRealMonotone(a: real, b: real, lo: real, hi: real)
    requires a <= b
    requires lo <= hi
    ensures ClampReal(a, lo, hi) <= ClampReal(b, lo, hi)
  {
  }

  const TwoTo31: int := 0x8000_0000
  const TwoTo32: int := 0x1_0000_0000

  predicate IsInt32(x: int) {
    -TwoTo31 <= x < TwoTo31
  }

  /** `x | 0`: the integer reduced modulo 2^32 into the signed 32-bit range. */
  function ToInt32(x: int): (r: int)
    ensures IsInt32(r)
    ensures (r - x) % TwoTo32 == 0
    ensures IsInt32(x) ==> r == x
  {
    (x + TwoTo31) % TwoTo32 - TwoTo31
  }

  /** The laws assumed of `Math.sqrt` on non-negative arguments. */
  ghost predicate SqrtLaws(sqrt: real -> real) {
    && sqrt(0.0) == 0.0
    && (forall x :: x >= 0.0 ==> sqrt(x) >= 0.0 && sqrt(x) * sqrt(x) == x)
    && (forall x, y :: 0.0 <= x <= y ==> sqrt(x) <= sqrt(y))
  }

  /** Under the laws, a square root is zero exactly when its argument is. */
  lemma SqrtZeroIff(sqrt: real -> real, x: real)
    requires SqrtLaws(sqrt)
    requires x >= 0.0
    ensures sqrt(x) == 0.0 <==> x == 0.0
  {
    if sqrt(x) == 0.0 {
      assert sqrt(x) * sqrt(x) == x;
    }
  }
}
