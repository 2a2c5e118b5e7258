// Size rules shared by the resizers, the fairing adapter and the side
// parts: node sizes from diameters, the cubic mass formula and the wall
// thickness of a base or adapter.
module Sizing {
  import opened Geometry

  /**
   * The fields a resizer or an adapter writes into the fairing base module
   * of the same part: the inner diameter, the wall and the rebuild request
   * with its delay.
   */
  datatype BaseLink = BaseLink(baseSize: real, sideThickness: real, needShapeUpdate: bool, updateDelay: real)

  /** A stack node's size: the diameter in units of the large diameter step, rounded. */
  function StackNodeSize(scale: real, step: real): int
    requires step != 0.0
  {
    RoundToInt(scale / step)
  }

  /** A connect node's size: one below the stack node size, never negative. */
  function SideNodeSize(scale: real, step: real): (s: int)
    requires step != 0.0
    ensures s >= 0
    ensures s >= StackNodeSize(scale, step) - 1
    ensures s == 0 || s == StackNodeSize(scale, step) - 1
  {
    var s := RoundToInt(scale / step) - 1;
    if s < 0 then 0 else s
  }

  /** Rounding to the nearest integer (ties to even) never reverses an order. */
  lemma RoundMonotone(x: real, y: real)
    requires x <= y
    ensures RoundToInt(x) <= RoundToInt(y)
  {
  }

  /** A wider part never gets a smaller connect node. */
  lemma SideNodeSizeMonotone(a: real, b: real, step: real)
    requires step > 0.0 && a <= b
    ensures SideNodeSize(a, step) <= SideNodeSize(b, step)
  {
    assert a / step <= b / step by {
      assert b / step - a / step == (b - a) / step;
    }
    RoundMonotone(a / step, b / step);
  }

  /** A diameter k steps wide gives stack size k and connect size k - 1 (0 for a single step). */
  lemma NodeSizesOfWholeSteps(k: int, step: real)
    requires k >= 0 && step != 0.0
    ensures StackNodeSize(k as real * step, step) == k
    ensures SideNodeSize(k as real * step, step) == if k == 0 then 0 else k - 1
  {
    assert k as real * step / step == k as real;
    assert (k as real).Floor == k;
  }

  /** The part-mass polynomial ((a·s + b)·s + c)·s + d with the coefficients of specificMass. */
  function Horner(m: Vec4, s: real): real {
    ((m.x * s + m.y) * s + m.z) * s + m.w
  }

  /** Horner's form is the cubic a·s³ + b·s² + c·s + d. */
  lemma HornerIsCubic(m: Vec4, s: real)
    ensures Horner(m, s) == m.x * (s * s * s) + m.y * (s * s) + m.z * s + m.w
  {
  }

  /** With non-negative coefficients a larger scale never weighs less. */
  lemma HornerMonotone(m: Vec4, s: real, t: real)
    requires m.x >= 0.0 && m.y >= 0.0 && m.z >= 0.0
    requires 0.0 <= s <= t
    ensures Horner(m, s) <= Horner(m, t)
  {
    var p, q := m.x * s + m.y, m.x * t + m.y;
    assert p <= q by { assert m.x * s <= m.x * t; }
    assert 0.0 <= p;
    var u, v := p * s + m.z, q * t + m.z;
    assert p * s <= q * t by { assert p * s <= p * t; assert p * t <= q * t; }
    assert 0.0 <= u <= v;
    assert u * s <= v * t by { assert u * s <= u * t; assert u * t <= v * t; }
  }

  /** Mathf.Pow(x, 2). */
  function Square(x: real): (r: real)
    ensures r >= 0.0
  {
    x * x
  }

  /** A breaking force or torque that grows with the square of a size: specific·s². */
  function Strength(specific: real, s: real): real {
    specific * Square(s)
  }

  /** A strength with a non-negative coefficient never shrinks as the size grows away from zero. */
  lemma StrengthMonotone(specific: real, s: real, t: real)
    requires specific >= 0.0 && 0.0 <= s <= t
    ensures 0.0 <= Strength(specific, s) <= Strength(specific, t)
  {
    assert s * s <= t * t by {
      assert s * s <= s * t;
      assert s * t <= t * t;
    }
    assert specific * (s * s) <= specific * (t * t);
  }

  /**
   * The wall thickness of an adapter with base and top diameters b and t:
   * the configured fraction of the larger diameter, but at most a quarter
   * of the smaller one.  A resizer has b == t == size.
   */
  function WallThickness(sideThickness: real, b: real, t: real): real {
    Min(sideThickness * Max(b, t), Min(b, t) * 0.25)
  }

  /** The wall never takes more than a quarter of the narrower end, and is not negative for non-negative inputs. */
  lemma WallThicknessBounds(sideThickness: real, b: real, t: real)
    ensures WallThickness(sideThickness, b, t) <= Min(b, t) * 0.25
    ensures WallThickness(sideThickness, b, t) <= sideThickness * Max(b, t)
    ensures WallThickness(sideThickness, b, t) == sideThickness * Max(b, t)
         || WallThickness(sideThickness, b, t) == Min(b, t) * 0.25
    ensures sideThickness >= 0.0 && b >= 0.0 && t >= 0.0 ==> WallThickness(sideThickness, b, t) >= 0.0
  {
    if sideThickness >= 0.0 && b >= 0.0 && t >= 0.0 {
      assert sideThickness * Max(b, t) >= 0.0;
    }
  }

  /** The radius left inside the wall at an end of diameter d is at least a quarter of d. */
  lemma InnerRadiusBound(sideThickness: real, b: real, t: real)
    ensures b * 0.5 - WallThickness(sideThickness, b, t) >= Min(b, t) * 0.25 + (b - Min(b, t)) * 0.5
    ensures t * 0.5 - WallThickness(sideThickness, b, t) >= Min(b, t) * 0.25 + (t - Min(b, t)) * 0.5
  {
    WallThicknessBounds(sideThickness, b, t);
  }
}
