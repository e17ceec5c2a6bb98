/** The scalar helpers the engine uses: Math.min, Math.max, the [0,1] clamp,
    THREE.Math.lerp and squaring (Math.pow with the literal exponent 2). */
module RealMath {

  function Min(a: real, b: real): real { if a <= b then a else b }

  function Max(a: real, b: real): real { if a >= b then a else b }

  /** `Math.max(0, Math.min(1, t))`; on reals it equals `Math.min(1, Math.max(0, t))`. */
  function Clamp01(t: real): (r: real)
    ensures 0.0 <= r <= 1.0
    ensures 0.0 <= t <= 1.0 ==> r == t
    ensures t < 0.0 ==> r == 0.0
    ensures t > 1.0 ==> r == 1.0
  {
    Max(0.0, Min(1.0, t))
  }

  /** THREE.Math.lerp(x, y, t) = (1 - t) * x + t * y. */
  function Lerp(x: real, y: real, t: real): (r: real)
    ensures t == 0.0 ==> r == x
    ensures t == 1.0 ==> r == y
    ensures x == y ==> r == x
    ensures 0.0 <= t <= 1.0 ==> Min(x, y) <= r <= Max(x, y)
  {
    LerpBetween(x, y, t);
    (1.0 - t) * x + t * y
  }

  /** The weighted sum is x moved by a fraction t of the way to y. */
  lemma LerpBetween(x: real, y: real, t: real)
    ensures 0.0 <= t <= 1.0 ==> Min(x, y) <= (1.0 - t) * x + t * y <= Max(x, y)
  {
    if 0.0 <= t <= 1.0 {
      LerpAsShift(x, y, t);
      ScaledBetween(t, y - x);
      ShiftBetween(x, y, t * (y - x));
    }
  }

  /** Moving x by part of the way to y stays between the two. */
  lemma ShiftBetween(x: real, y: real, m: real)
    requires x <= y ==> 0.0 <= m <= y - x
    requires y <= x ==> y - x <= m <= 0.0
    ensures Min(x, y) <= x + m <= Max(x, y)
  {
  }

  /** The weighted sum is x moved by t times the difference. */
  lemma LerpAsShift(x: real, y: real, t: real)
    ensures (1.0 - t) * x + t * y == x + t * (y - x)
  {
  }

  /** A fraction t of a difference k lies between 0 and k. */
  lemma ScaledBetween(t: real, k: real)
    requires 0.0 <= t <= 1.0
    ensures k >= 0.0 ==> 0.0 <= t * k <= k
    ensures k <= 0.0 ==> k <= t * k <= 0.0
  {
  }

  /** Math.pow(t, 2). */
  function Square(t: real): (r: real)
    ensures r >= 0.0
    ensures 0.0 <= t <= 1.0 ==> r <= t
  {
    if 0.0 <= t <= 1.0 then ScaledBetween(t, t); t * t else t * t
  }
}
