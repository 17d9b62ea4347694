/** Numeric helpers shared by the whole model: absolute value, min/max,
    rounding, the saturating float-to-i32 cast Rust performs with `as i32`,
    the oracle for the transcendental functions, and the random stream. */
module Numeric {

  function Abs(x: real): (r: real)
    ensures r >= 0.0 && (r == x || r == -x)
  {
    if x < 0.0 then -x else x
  }

  function Min(a: real, b: real): (r: real)
    ensures r <= a && r <= b && (r == a || r == b)
  {
    if a <= b then a else b
  }

  function Max(a: real, b: real): (r: real)
    ensures r >= a && r >= b && (r == a || r == b)
  {
    if a >= b then a else b
  }

  function MinInt(a: int, b: int): (r: int)
    ensures r <= a && r <= b && (r == a || r == b)
  {
    if a <= b then a else b
  }

  function MaxInt(a: int, b: int): (r: int)
    ensures r >= a && r >= b && (r == a || r == b)
  {
    if a >= b then a else b
  }

  function AbsInt(x: int): (r: int)
    ensures r >= 0 && (r == x || r == -x)
  {
    if x < 0 then -x else x
  }

  lemma MulPos(x: real, y: real)
    requires x > 0.0 && y > 0.0
    ensures x * y > 0.0
  {
  }

  lemma MulNonneg(x: real, y: real)
    requires x >= 0.0 && y >= 0.0
    ensures x * y >= 0.0
  {
  }

  /** Squaring is monotone on the non-negative reals. */
  lemma SquareMonotone(s: real, c: real)
    requires s >= 0.0 && c >= 0.0
    ensures s < c ==> s * s < c * c
    ensures s <= c ==> s * s <= c * c
  {
    assert c * c - s * s == (c - s) * (c + s);
    if s < c {
      MulPos(c - s, c + s);
    } else if s == c {
    } else {
      MulNonneg(s - c, s + c);
      assert s * s - c * c == (s - c) * (s + c);
    }
  }

  // The product identities below are split one step per lemma (and per
  // `calc` line): the solver proves each step alone but not several at once.

  lemma DivMul(v: real, len: real)
    requires len != 0.0
    ensures (v / len) * len == v
  {
  }

  lemma SquareScale(u: real, len: real, v: real)
    requires u * len == v
    ensures v * v == (u * u) * (len * len)
  {
  }

  lemma DivSquare(v: real, len: real)
    requires len != 0.0
    ensures v * v == ((v / len) * (v / len)) * (len * len)
  {
    DivMul(v, len);
    SquareScale(v / len, len, v);
  }

  lemma SumOfScaledSquare(a: real, b: real, len: real)
    requires len > 0.0 && a * (len * len) + b * (len * len) == len * len
    ensures a + b == 1.0
  {
    var n := a + b;
    assert n * (len * len) == a * (len * len) + b * (len * len);
    MulPos(len, len);
    assert (n - 1.0) * (len * len) == 0.0;
  }

  /** Dividing a vector by its (positive) length gives a unit vector. */
  lemma UnitLength(vx: real, vy: real, len: real)
    requires len > 0.0 && len * len == vx * vx + vy * vy
    ensures (vx / len) * (vx / len) + (vy / len) * (vy / len) == 1.0
  {
    var a, b := (vx / len) * (vx / len), (vy / len) * (vy / len);
    calc {
      a * (len * len) + b * (len * len);
      { DivSquare(vx, len); }
      vx * vx + b * (len * len);
      { DivSquare(vy, len); }
      vx * vx + vy * vy;
      len * len;
    }
    SumOfScaledSquare(a, b, len);
  }

  /** A direction `(c, s)` that scales by the (positive) length `d` to the
      vector `(dx, dy)` is a unit vector. */
  lemma UnitFromScaled(c: real, s: real, d: real, dx: real, dy: real)
    requires d > 0.0 && c * d == dx && s * d == dy && d * d == dx * dx + dy * dy
    ensures c * c + s * s == 1.0
  {
    calc {
      (c * c) * (d * d) + (s * s) * (d * d);
      { SquareScale(c, d, dx); }
      dx * dx + (s * s) * (d * d);
      { SquareScale(s, d, dy); }
      dx * dx + dy * dy;
      d * d;
    }
    SumOfScaledSquare(c * c, s * s, d);
  }

  /** Scaling a unit vector by `k` gives a vector of squared length `k * k`. */
  lemma ScaledUnitLength(ux: real, uy: real, k: real)
    requires ux * ux + uy * uy == 1.0
    ensures (ux * k) * (ux * k) + (uy * k) * (uy * k) == k * k
  {
    calc {
      (ux * k) * (ux * k) + (uy * k) * (uy * k);
      { SquareScale(ux, k, ux * k); }
      (ux * ux) * (k * k) + (uy * k) * (uy * k);
      { SquareScale(uy, k, uy * k); }
      (ux * ux) * (k * k) + (uy * uy) * (k * k);
      (ux * ux + uy * uy) * (k * k);
      k * k;
    }
  }

  /** `f32::floor` followed by a conversion to an integer. */
  function Floor(x: real): (r: int)
    ensures r as real <= x < r as real + 1.0
  {
    x.Floor
  }

  /** `f32::ceil` followed by a conversion to an integer. */
  function Ceil(x: real): (r: int)
    ensures r as real - 1.0 < x <= r as real
  {
    -((-x).Floor)
  }

  /** Rounding toward zero, as Rust's `as` casts and JavaScript's `%` do. */
  function Trunc(x: real): (r: int)
    ensures x >= 0.0 ==> r as real <= x < r as real + 1.0
    ensures x < 0.0 ==> r as real - 1.0 < x <= r as real
  {
    if x >= 0.0 then x.Floor else -((-x).Floor)
  }

  const I32_MIN: int := -0x8000_0000
  const I32_MAX: int := 0x7fff_ffff

  predicate IsI32(i: int) {
    I32_MIN <= i <= I32_MAX
  }

  /** Rust's float-to-`i32` cast saturates at the bounds of `i32`. */
  function SaturateI32(i: int): (r: int)
    ensures IsI32(r)
    ensures IsI32(i) ==> r == i
    ensures i < I32_MIN ==> r == I32_MIN
    ensures i > I32_MAX ==> r == I32_MAX
  {
    if i < I32_MIN then I32_MIN else if i > I32_MAX then I32_MAX else i
  }

  /** `v as i32` for a float `v`: truncate toward zero, then saturate. */
  function F32ToI32(v: real): int {
    SaturateI32(Trunc(v))
  }

  /** The transcendental functions the source calls (`sqrt`, `atan2`, `cos`,
      `sin`). They are left uninterpreted: the model is given them as a value
      and states, where a property needs it, what it assumes of them. */
  datatype MathOracle = MathOracle(
    sqrt: real -> real,
    atan2: (real, real) -> real,
    cos: real -> real,
    sin: real -> real)

  /** The oracle's square root is exact at `v`. */
  predicate ExactSqrtAt(m: MathOracle, v: real) {
    m.sqrt(v) >= 0.0 && m.sqrt(v) * m.sqrt(v) == v
  }

  /** The stream of values `Math.random()` / `random_f32()` would return:
      `draw(i)` is the i-th value, `next` the index of the next one. */
  datatype Rng = Rng(draw: nat -> real, next: nat)

  /** Take the next random value from the stream. */
  function Random(g: Rng): (res: (real, Rng))
    ensures res.0 == g.draw(g.next)
    ensures res.1 == g.(next := g.next + 1)
  {
    (g.draw(g.next), g.(next := g.next + 1))
  }

  /** Every value still to come lies in [0, 1), as `Math.random()` promises. */
  ghost predicate UnitDraws(g: Rng) {
    forall i: nat :: i >= g.next ==> 0.0 <= g.draw(i) < 1.0
  }
}
