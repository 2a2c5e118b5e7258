// The shared helpers of the plug-in: the Bezier slope used for cone
// curvature, the list maximum used by the envelope fit, the tech-tree
// minimum / maximum folds and the recursive listing of a part subtree.
module Utilities {
  import opened Geometry

  // ---------------------------------------------------------------------
  // Bezier slope

  /** A cubic Bezier curve from (0,0) to (1,1) with control points p1, p2. */
  datatype BezierSlope = BezierSlope(p1: Vec2, p2: Vec2)

  /** The constructor from a four-vector (x, y) = p1, (z, w) = p2. */
  function SlopeOf(v: Vec4): (s: BezierSlope)
    ensures s.p1 == Vec2(v.x, v.y) && s.p2 == Vec2(v.z, v.w)
  {
    BezierSlope(Vec2(v.x, v.y), Vec2(v.z, v.w))
  }

  function Lo4(a: real, b: real, c: real, d: real): real { Min(Min(a, b), Min(c, d)) }
  function Hi4(a: real, b: real, c: real, d: real): real { Max(Max(a, b), Max(c, d)) }

  /** De Casteljau evaluation of the slope with clamped interpolation. */
  function Interp(s: BezierSlope, t: real): Vec2 {
    var a := Lerp2(Vec2(0.0, 0.0), s.p1, t);
    var b := Lerp2(s.p1, s.p2, t);
    var c := Lerp2(s.p2, Vec2(1.0, 1.0), t);
    var d := Lerp2(a, b, t);
    var e := Lerp2(b, c, t);
    Lerp2(d, e, t)
  }

  /** One coordinate of the evaluator: three levels of clamped interpolation. */
  function Casteljau(c1: real, c2: real, t: real): real {
    Lerp(Lerp(Lerp(0.0, c1, t), Lerp(c1, c2, t), t), Lerp(Lerp(c1, c2, t), Lerp(c2, 1.0, t), t), t)
  }

  /** One coordinate starts at 0, ends at 1 and stays inside the hull of 0, c1, c2, 1. */
  lemma CasteljauBounds(c1: real, c2: real, t: real)
    ensures t <= 0.0 ==> Casteljau(c1, c2, t) == 0.0
    ensures t >= 1.0 ==> Casteljau(c1, c2, t) == 1.0
    ensures Lo4(0.0, c1, c2, 1.0) <= Casteljau(c1, c2, t) <= Hi4(0.0, c1, c2, 1.0)
  {
    var a, b, c := Lerp(0.0, c1, t), Lerp(c1, c2, t), Lerp(c2, 1.0, t);
    var d, e := Lerp(a, b, t), Lerp(b, c, t);
    LerpBetween(0.0, c1, t);
    LerpBetween(c1, c2, t);
    LerpBetween(c2, 1.0, t);
    LerpBetween(a, b, t);
    LerpBetween(b, c, t);
    LerpBetween(d, e, t);
  }

  /**
   * The curve starts at the origin, ends at (1,1) and never leaves the
   * bounding box of its four control points.
   */
  lemma InterpBounds(s: BezierSlope, t: real)
    ensures t <= 0.0 ==> Interp(s, t) == Vec2(0.0, 0.0)
    ensures t >= 1.0 ==> Interp(s, t) == Vec2(1.0, 1.0)
    ensures Lo4(0.0, s.p1.x, s.p2.x, 1.0) <= Interp(s, t).x <= Hi4(0.0, s.p1.x, s.p2.x, 1.0)
    ensures Lo4(0.0, s.p1.y, s.p2.y, 1.0) <= Interp(s, t).y <= Hi4(0.0, s.p1.y, s.p2.y, 1.0)
  {
    assert Interp(s, t) == Vec2(Casteljau(s.p1.x, s.p2.x, t), Casteljau(s.p1.y, s.p2.y, t));
    CasteljauBounds(s.p1.x, s.p2.x, t);
    CasteljauBounds(s.p1.y, s.p2.y, t);
  }

  /** The cubic Bernstein polynomial with end values 0 and 1. */
  function Bernstein(c1: real, c2: real, t: real): real {
    3.0 * (1.0 - t) * (1.0 - t) * t * c1 + 3.0 * (1.0 - t) * t * t * c2 + t * t * t
  }

  /** The clamp is inactive on [0, 1]. */
  lemma LerpOnUnit(a: real, b: real, t: real, u: real)
    requires 0.0 <= t <= 1.0 && u == 1.0 - t
    ensures Lerp(a, b, t) == u * a + t * b
  {
    assert a + (b - a) * t == u * a + t * b;
  }

  /** The second de Casteljau level, lower half. */
  lemma LowerQuadratic(c1: real, c2: real, t: real, u: real, a: real, b: real, d: real)
    requires u == 1.0 - t
    requires a == u * 0.0 + t * c1 && b == u * c1 + t * c2 && d == u * a + t * b
    ensures d == 2.0 * u * t * c1 + t * t * c2
  {
    assert d == u * (t * c1) + t * (u * c1 + t * c2);
  }

  /** The second de Casteljau level, upper half. */
  lemma UpperQuadratic(c1: real, c2: real, t: real, u: real, b: real, c: real, e: real)
    requires u == 1.0 - t
    requires b == u * c1 + t * c2 && c == u * c2 + t * 1.0 && e == u * b + t * c
    ensures e == u * u * c1 + 2.0 * u * t * c2 + t * t
  {
    assert e == u * (u * c1 + t * c2) + t * (u * c2 + t);
  }

  /** The last level combines the two quadratics into the cubic. */
  lemma CubicCombine(c1: real, c2: real, t: real, u: real, d: real, e: real, f: real)
    requires u == 1.0 - t
    requires d == 2.0 * u * t * c1 + t * t * c2
    requires e == u * u * c1 + 2.0 * u * t * c2 + t * t
    requires f == u * d + t * e
    ensures f == Bernstein(c1, c2, t)
  {
    assert f == u * (2.0 * u * t * c1 + t * t * c2) + t * (u * u * c1 + 2.0 * u * t * c2 + t * t);
    assert f == 3.0 * u * u * t * c1 + 3.0 * u * t * t * c2 + t * t * t;
  }

  lemma BernsteinScalar(c1: real, c2: real, t: real)
    requires 0.0 <= t <= 1.0
    ensures Casteljau(c1, c2, t) == Bernstein(c1, c2, t)
  {
    var a := Lerp(0.0, c1, t);
    var b := Lerp(c1, c2, t);
    var c := Lerp(c2, 1.0, t);
    var d := Lerp(a, b, t);
    var e := Lerp(b, c, t);
    var f := Lerp(d, e, t);
    var u := 1.0 - t;
    LerpOnUnit(0.0, c1, t, u);
    LerpOnUnit(c1, c2, t, u);
    LerpOnUnit(c2, 1.0, t, u);
    LerpOnUnit(a, b, t, u);
    LerpOnUnit(b, c, t, u);
    LerpOnUnit(d, e, t, u);
    LowerQuadratic(c1, c2, t, u, a, b, d);
    UpperQuadratic(c1, c2, t, u, b, c, e);
    CubicCombine(c1, c2, t, u, d, e, f);
  }

  /** On [0, 1] the evaluator is the cubic Bernstein form of the curve. */
  lemma InterpIsBernstein(s: BezierSlope, t: real)
    requires 0.0 <= t <= 1.0
    ensures Interp(s, t) == Vec2(Bernstein(s.p1.x, s.p2.x, t), Bernstein(s.p1.y, s.p2.y, t))
  {
    BernsteinScalar(s.p1.x, s.p2.x, t);
    BernsteinScalar(s.p1.y, s.p2.y, t);
  }

  // ---------------------------------------------------------------------
  // GetMaxValueFromList

  /** The running maximum of a list, started at 0. */
  function ListMax0(s: seq<real>): real {
    if |s| == 0 then 0.0 else Max(ListMax0(s[..|s| - 1]), s[|s| - 1])
  }

  lemma {:induction false} ListMax0Bounds(s: seq<real>)
    ensures ListMax0(s) >= 0.0
    ensures forall i :: 0 <= i < |s| ==> s[i] <= ListMax0(s)
    ensures ListMax0(s) == 0.0 || ListMax0(s) in s
  {
    if |s| > 0 {
      var p := s[..|s| - 1];
      ListMax0Bounds(p);
      assert forall i :: 0 <= i < |p| ==> s[i] == p[i];
      assert ListMax0(p) in p ==> ListMax0(p) in s;
    }
  }

  method GetMaxValueFromList(list: seq<real>) returns (max: real)
    ensures max == ListMax0(list)
    ensures max >= 0.0
    ensures forall i :: 0 <= i < |list| ==> list[i] <= max
    ensures max == 0.0 || max in list
  {
    max := 0.0;
    var i := 0;
    while i < |list|
      invariant 0 <= i <= |list|
      invariant max == ListMax0(list[..i])
    {
      assert list[..i + 1][..i] == list[..i];
      if max < list[i] {
        max := list[i];
      }
      i := i + 1;
    }
    assert list[..i] == list;
    ListMax0Bounds(list);
  }

  // ---------------------------------------------------------------------
  // Tech-tree limits

  /** One `name = value` entry of a tech-limit configuration node. */
  datatype ConfigValue = ConfigValue(name: string, value: real)

  /** The values of one node whose tech is available, in order. */
  function PassingRow(vs: seq<ConfigValue>, haveTech: string -> bool): seq<real> {
    if |vs| == 0 then []
    else PassingRow(vs[..|vs| - 1], haveTech)
         + (if haveTech(vs[|vs| - 1].name) then [vs[|vs| - 1].value] else [])
  }

  /** The values of all nodes whose tech is available, in order. */
  function Passing(nodes: seq<seq<ConfigValue>>, haveTech: string -> bool): seq<real> {
    if |nodes| == 0 then []
    else Passing(nodes[..|nodes| - 1], haveTech) + PassingRow(nodes[|nodes| - 1], haveTech)
  }

  /** has / m describe the minimum (less) or maximum (!less) of s as the fold does. */
  predicate Extremum(has: bool, m: real, s: seq<real>, less: bool) {
    (has <==> s != []) && (has ==> m in s)
    && forall v :: v in s ==> if less then m <= v else v <= m
  }

  /** The inner loop of both folds: one configuration node. */
  method ScanNode(tech: seq<ConfigValue>, haveTech: string -> bool, less: bool,
                  has0: bool, m0: real, ghost done: seq<real>)
    returns (has: bool, m: real)
    requires Extremum(has0, m0, done, less)
    ensures Extremum(has, m, done + PassingRow(tech, haveTech), less)
  {
    has, m := has0, m0;
    var i := 0;
    while i < |tech|
      invariant 0 <= i <= |tech|
      invariant Extremum(has, m, done + PassingRow(tech[..i], haveTech), less)
    {
      assert tech[..i + 1][..i] == tech[..i];
      var value := tech[i];
      ghost var seen := done + PassingRow(tech[..i], haveTech);
      assert done + PassingRow(tech[..i + 1], haveTech)
        == seen + (if haveTech(value.name) then [value.value] else []);
      if haveTech(value.name) {
        var v := value.value;
        if !has || (if less then v < m else v > m) {
          m := v;
          has := true;
        }
      }
      i := i + 1;
    }
    assert tech[..i] == tech;
  }

  /** Both folds over all configuration nodes. */
  method ScanNodes(nodes: seq<seq<ConfigValue>>, haveTech: string -> bool, less: bool, defVal: real)
    returns (r: real)
    ensures Passing(nodes, haveTech) == [] ==> r == defVal
    ensures Passing(nodes, haveTech) != [] ==> Extremum(true, r, Passing(nodes, haveTech), less)
  {
    var hasValue := false;
    var val := 0.0;
    var j := 0;
    while j < |nodes|
      invariant 0 <= j <= |nodes|
      invariant Extremum(hasValue, val, Passing(nodes[..j], haveTech), less)
    {
      assert nodes[..j + 1][..j] == nodes[..j];
      hasValue, val := ScanNode(nodes[j], haveTech, less, hasValue, val, Passing(nodes[..j], haveTech));
      j := j + 1;
    }
    assert nodes[..j] == nodes;
    if !hasValue {
      return defVal;
    }
    return val;
  }

  /** getTechMinValue: defVal when no entry is available, else their minimum. */
  method GetTechMinValue(nodes: seq<seq<ConfigValue>>, haveTech: string -> bool, defVal: real)
    returns (r: real)
    ensures Passing(nodes, haveTech) == [] ==> r == defVal
    ensures Passing(nodes, haveTech) != [] ==>
      r in Passing(nodes, haveTech) && forall v :: v in Passing(nodes, haveTech) ==> r <= v
  {
    r := ScanNodes(nodes, haveTech, true, defVal);
  }

  /** getTechMaxValue: defVal when no entry is available, else their maximum. */
  method GetTechMaxValue(nodes: seq<seq<ConfigValue>>, haveTech: string -> bool, defVal: real)
    returns (r: real)
    ensures Passing(nodes, haveTech) == [] ==> r == defVal
    ensures Passing(nodes, haveTech) != [] ==>
      r in Passing(nodes, haveTech) && forall v :: v in Passing(nodes, haveTech) ==> v <= r
  {
    r := ScanNodes(nodes, haveTech, false, defVal);
  }

  // ---------------------------------------------------------------------
  // getAllChildrenRecursive

  /** A part of the vessel tree: an identity and its attached children. */
  datatype Part = Part(id: int, children: seq<Part>)

  /** The subtree of p in pre-order, p itself first unless root is set. */
  function AllChildren(p: Part, root: bool): seq<Part>
    decreases p, |p.children| + 1
  {
    (if root then [] else [p]) + ChildrenFrom(p, 0)
  }

  /** The listings of p's children from index i on, concatenated. */
  function ChildrenFrom(p: Part, i: nat): seq<Part>
    decreases p, |p.children| - i
  {
    if i >= |p.children| then []
    else AllChildren(p.children[i], false) + ChildrenFrom(p, i + 1)
  }

  /** q lies in the subtree rooted at p (p included). */
  predicate InSubtree(q: Part, p: Part)
    decreases p, |p.children| + 1
  {
    q == p || InChildrenFrom(q, p, 0)
  }

  predicate InChildrenFrom(q: Part, p: Part, i: nat)
    decreases p, |p.children| - i
  {
    i < |p.children| && (InSubtree(q, p.children[i]) || InChildrenFrom(q, p, i + 1))
  }

  /** The number of parts in a subtree. */
  function Size(p: Part): nat
    decreases p, |p.children| + 1
  {
    1 + SizeFrom(p, 0)
  }

  function SizeFrom(p: Part, i: nat): nat
    decreases p, |p.children| - i
  {
    if i >= |p.children| then 0 else Size(p.children[i]) + SizeFrom(p, i + 1)
  }

  /**
   * The listing contains exactly the parts of the subtree, the root only when
   * root is false, starts with the root when it is included, and has one
   * entry per part of the subtree.
   */
  lemma {:induction false} AllChildrenListsSubtree(p: Part, root: bool, q: Part)
    decreases p, |p.children| + 1
    ensures q in AllChildren(p, root) <==> InSubtree(q, p) && !(root && q == p)
    ensures !root ==> AllChildren(p, root)[0] == p
    ensures |AllChildren(p, root)| == Size(p) - (if root then 1 else 0)
  {
    ChildrenFromListsSubtree(p, 0, q);
    if q == p && InChildrenFrom(q, p, 0) {
      ChildrenAreSmaller(q, p, 0);
    }
  }

  lemma {:induction false} ChildrenFromListsSubtree(p: Part, i: nat, q: Part)
    decreases p, |p.children| - i
    ensures q in ChildrenFrom(p, i) <==> InChildrenFrom(q, p, i)
    ensures |ChildrenFrom(p, i)| == SizeFrom(p, i)
  {
    if i < |p.children| {
      AllChildrenListsSubtree(p.children[i], false, q);
      ChildrenFromListsSubtree(p, i + 1, q);
    }
  }

  /** A proper descendant is a strictly smaller tree, so no part is its own descendant. */
  lemma {:induction false} ChildrenAreSmaller(q: Part, p: Part, i: nat)
    decreases p, |p.children| - i
    requires InChildrenFrom(q, p, i)
    ensures Size(q) <= SizeFrom(p, i) < Size(p)
  {
    SizeFromBelow(p, i);
    if InSubtree(q, p.children[i]) {
      if q != p.children[i] {
        ChildrenAreSmaller(q, p.children[i], 0);
      }
    } else {
      ChildrenAreSmaller(q, p, i + 1);
    }
  }

  lemma {:induction false} SizeFromBelow(p: Part, i: nat)
    decreases i
    ensures SizeFrom(p, i) < Size(p)
  {
    if i < |p.children| && i > 0 {
      SizeFromBelow(p, i - 1);
    }
  }
}
