/** Scalar helpers of the motion engine (wasm/src/geometry.rs): clamping and
    the signed shortest angle between two headings. `random_f32` is the
    random stream of the `Numeric` module. */
module Geometry {
  import opened Numeric
  import opened Constants

  /** `value.max(min).min(max)`. */
  function Clamp(v: real, lo: real, hi: real): (r: real)
    ensures r <= hi
    ensures lo <= hi ==> lo <= r
    ensures lo <= v <= hi ==> r == v
    ensures v < lo && lo <= hi ==> r == lo
    ensures v > hi ==> r == hi
  {
    Min(Max(v, lo), hi)
  }

  /** Clamping twice is clamping once, whatever the bounds. */
  lemma ClampIdempotent(v: real, lo: real, hi: real)
    ensures Clamp(Clamp(v, lo, hi), lo, hi) == Clamp(v, lo, hi)
  {
  }

  /** f32 `%`: the truncated remainder, which takes the sign of `a`. */
  function FMod(a: real, b: real): (r: real)
    requires b > 0.0
    ensures a >= 0.0 ==> 0.0 <= r < b
    ensures a < 0.0 ==> -b < r <= 0.0
    ensures r == a - (Trunc(a / b) as real) * b
  {
    var q := Trunc(a / b);
    FModBounds(a, b, q);
    a - (q as real) * b
  }

  lemma FModBounds(a: real, b: real, q: int)
    requires b > 0.0 && q == Trunc(a / b)
    ensures a >= 0.0 ==> 0.0 <= a - (q as real) * b < b
    ensures a < 0.0 ==> -b < a - (q as real) * b <= 0.0
  {
    DivMul(a, b);
    if a >= 0.0 {
      RemainderBelow(a, b, q as real, a / b);
    } else {
      RemainderAbove(a, b, q as real, a / b);
    }
  }

  /** For `a == t * b`, rounding `t` down to `k` leaves a remainder in [0, b). */
  lemma RemainderBelow(a: real, b: real, k: real, t: real)
    requires b > 0.0 && t * b == a && k <= t < k + 1.0
    ensures 0.0 <= a - k * b < b
  {
    var r := (t - k) * b;
    MulNonneg(t - k, b);
    MulLt(t - k, 1.0, b);
    assert r < b;
    assert a - k * b == r;
  }

  /** For `a == t * b`, rounding `t` up to `k` leaves a remainder in (-b, 0]. */
  lemma RemainderAbove(a: real, b: real, k: real, t: real)
    requires b > 0.0 && t * b == a && k - 1.0 < t <= k
    ensures -b < a - k * b <= 0.0
  {
    var r := (k - t) * b;
    MulNonneg(k - t, b);
    MulLt(k - t, 1.0, b);
    assert r < b;
    assert k * b - a == r;
  }

  lemma MulLe(x: real, y: real, b: real)
    requires x <= y && b > 0.0
    ensures x * b <= y * b
  {
  }

  lemma MulLt(x: real, y: real, b: real)
    requires x < y && b > 0.0
    ensures x * b < y * b
  {
  }

  /** The number of whole turns `ShortestAngleDiff` removes from `t - c`. */
  function AngleTurns(target: real, current: real): int {
    var q := Trunc((target - current + PI) / TWO_PI);
    var diff := FMod(target - current + PI, TWO_PI) - PI;
    if diff < -PI then 1 - q else -q
  }

  /** `shortest_angle_diff`: `(t - c + PI) % 2PI - PI`, plus one turn when
      that falls below -PI. The result lies in [-PI, PI) and differs from
      `t - c` by a whole number of turns. */
  function ShortestAngleDiff(target: real, current: real): (d: real)
    ensures -PI <= d < PI
    ensures d == target - current + (AngleTurns(target, current) as real) * TWO_PI
  {
    var diff := FMod(target - current + PI, TWO_PI) - PI;
    if diff < -PI then diff + TWO_PI else diff
  }

  /** A quarter of the shortest difference, the per-tick heading change,
      never exceeds a quarter turn of PI. */
  lemma QuarterTurnBound(target: real, current: real)
    ensures -PI / 4.0 <= ShortestAngleDiff(target, current) * 0.25 < PI / 4.0
  {
  }
}
