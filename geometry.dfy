// Vectors, clamped linear interpolation and the Unity rounding helpers the
// shape engine relies on. Coordinates are exact reals.
module Geometry {

  datatype Vec2 = Vec2(x: real, y: real)
  datatype Vec3 = Vec3(x: real, y: real, z: real)
  datatype Vec4 = Vec4(x: real, y: real, z: real, w: real)

  datatype Option<T> = None | Some(value: T)

  function Add3(a: Vec3, b: Vec3): Vec3 {
    Vec3(a.x + b.x, a.y + b.y, a.z + b.z)
  }

  function Sub3(a: Vec3, b: Vec3): Vec3 {
    Vec3(a.x - b.x, a.y - b.y, a.z - b.z)
  }

  function Scale3(a: Vec3, k: real): Vec3 {
    Vec3(a.x * k, a.y * k, a.z * k)
  }

  function Neg3(a: Vec3): Vec3 {
    Vec3(-a.x, -a.y, -a.z)
  }

  /** Vector3.up. */
  const Up := Vec3(0.0, 1.0, 0.0)

  function Max(a: real, b: real): (r: real)
    ensures r >= a && r >= b && (r == a || r == b)
  {
    if a >= b then a else b
  }

  function Min(a: real, b: real): (r: real)
    ensures r <= a && r <= b && (r == a || r == b)
  {
    if a <= b then a else b
  }

  function MaxInt(a: int, b: int): (r: int)
    ensures r >= a && r >= b && (r == a || r == b)
  {
    if a >= b then a else b
  }

  /** Unity's Mathf.Clamp01. */
  function Clamp01(t: real): (r: real)
    ensures 0.0 <= r <= 1.0
    ensures 0.0 <= t <= 1.0 ==> r == t
  {
    if t < 0.0 then 0.0 else if t > 1.0 then 1.0 else t
  }

  /** Mathf.Lerp: interpolation with the parameter clamped to [0, 1]. */
  function Lerp(a: real, b: real, t: real): real {
    a + (b - a) * Clamp01(t)
  }

  /** Lerp stays between its end values and returns them outside [0, 1]. */
  lemma LerpBetween(a: real, b: real, t: real)
    ensures Min(a, b) <= Lerp(a, b, t) <= Max(a, b)
    ensures t <= 0.0 ==> Lerp(a, b, t) == a
    ensures t >= 1.0 ==> Lerp(a, b, t) == b
  {
    ScaledBetween(b - a, Clamp01(t));
  }

  /** A fraction c in [0, 1] of d lies between 0 and d. */
  lemma ScaledBetween(d: real, c: real)
    requires 0.0 <= c <= 1.0
    ensures Min(0.0, d) <= d * c <= Max(0.0, d)
    ensures c == 0.0 ==> d * c == 0.0
    ensures c == 1.0 ==> d * c == d
  {
    if d >= 0.0 {
      assert d * c >= 0.0;
      assert d - d * c == d * (1.0 - c);
      assert d * (1.0 - c) >= 0.0;
    } else {
      assert (-d) * c >= 0.0;
      assert d * c - d == (-d) * (1.0 - c);
      assert (-d) * (1.0 - c) >= 0.0;
    }
  }

  function Lerp2(a: Vec2, b: Vec2, t: real): Vec2 {
    Vec2(Lerp(a.x, b.x, t), Lerp(a.y, b.y, t))
  }

  /** Mathf.FloorToInt. */
  function FloorToInt(x: real): (r: int)
    ensures r as real <= x < r as real + 1.0
  {
    x.Floor
  }

  /** Mathf.CeilToInt. */
  function CeilToInt(x: real): (r: int)
    ensures r as real - 1.0 < x <= r as real
  {
    -((-x).Floor)
  }

  /** Mathf.RoundToInt: nearest integer, ties to the even neighbour. */
  function RoundToInt(x: real): (r: int)
    ensures x - 0.5 <= r as real <= x + 0.5
    ensures r as real == x - 0.5 || r as real == x + 0.5 ==> r % 2 == 0
  {
    var f := x.Floor;
    var d := x - f as real;
    if d < 0.5 then f
    else if d > 0.5 then f + 1
    else if f % 2 == 0 then f
    else f + 1
  }
}
