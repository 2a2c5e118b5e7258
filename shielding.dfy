// Fairing shielding: which side fairing defines the shell, the silhouette
// thickened by the wall, the cylinder and sphere that bound it, and the
// filter that decides which nearby parts lie inside the shell.
module Shielding {
  import opened Geometry

  /** What shielding reads from a side module: its silhouette as the shape builders make it, its wall, and whether it is inline. */
  datatype SideInfo = SideInfo(shape: seq<Vec3>, sideThickness: real, inline: bool)

  /** A connect node of the base: the part attached to it, and the side module that part carries. */
  datatype Slot = Slot(part: Option<int>, side: Option<SideInfo>)

  /** A node holding a part that carries a side module. */
  predicate Sided(s: Slot) {
    s.part.Some? && s.side.Some?
  }

  /** Every side module's silhouette has the two points or more that the shape builders always produce. */
  predicate WellBuilt(attached: seq<Slot>) {
    forall i :: 0 <= i < |attached| && attached[i].side.Some? ==> |attached[i].side.value.shape| >= 2
  }

  /**
   * The side-selection loop of getFairingParams over the first count
   * connect nodes (the node tweaker's count in the current copy, every
   * connect node in the older one): a side module is found exactly when
   * there is at least one node and each of them holds a side part, and it
   * is the last node's.
   */
  method SelectSide(attached: seq<Slot>, count: int) returns (sf: Option<SideInfo>)
    requires 0 <= count <= |attached|
    ensures sf.Some? <==> count >= 1 && forall i :: 0 <= i < count ==> Sided(attached[i])
    ensures sf.Some? ==> sf == attached[count - 1].side
  {
    sf := None;
    var i := 0;
    while i < count
      invariant 0 <= i <= count
      invariant forall k :: 0 <= k < i ==> Sided(attached[k])
      invariant sf == if i == 0 then None else attached[i - 1].side
    {
      var n := attached[i];
      if n.part.None? {
        return None;
      }
      sf := n.side;
      if sf.None? {
        return;
      }
      i := i + 1;
    }
  }

  /** An end point moves outwards by the wall thickness. */
  function EndOffset(p: Vec3, th: real): Vec3 {
    Add3(p, Vec3(th, 0.0, 0.0))
  }

  /**
   * An interior point moves by the wall thickness along the normalised
   * normal of the chord from its predecessor to its successor.
   */
  function InteriorOffset(prev: Vec3, p: Vec3, next: Vec3, th: real, normalize: Vec2 -> Vec2): Vec3 {
    var n := normalize(Vec2(next.y - prev.y, -(next.x - prev.x)));
    Add3(p, Scale3(Vec3(n.x, n.y, 0.0), th))
  }

  /**
   * The first k points of the in-place offset loop.  The loop reads the
   * predecessor from the array it is rewriting, so an interior point's
   * chord starts at its predecessor's already offset position.
   */
  function Offset(s: seq<Vec3>, th: real, normalize: Vec2 -> Vec2, k: int): (r: seq<Vec3>)
    requires 0 <= k <= |s|
    ensures |r| == k
  {
    if k == 0 then []
    else
      var done := Offset(s, th, normalize, k - 1);
      var i := k - 1;
      done + [if i == 0 || i == |s| - 1 then EndOffset(s[i], th) else InteriorOffset(done[i - 1], s[i], s[i + 1], th, normalize)]
  }

  /** Later iterations never revisit a point. */
  lemma {:induction false} OffsetPrefix(s: seq<Vec3>, th: real, normalize: Vec2 -> Vec2, j: int, k: int)
    requires 0 <= j <= k <= |s|
    ensures Offset(s, th, normalize, k)[..j] == Offset(s, th, normalize, j)
  {
    if j < k {
      OffsetPrefix(s, th, normalize, j, k - 1);
      assert Offset(s, th, normalize, k)[..k - 1] == Offset(s, th, normalize, k - 1);
    }
  }

  /** The offset keeps the length, and the two ends move only outwards by the wall. */
  lemma OffsetEnds(s: seq<Vec3>, th: real, normalize: Vec2 -> Vec2)
    requires |s| >= 1
    ensures |Offset(s, th, normalize, |s|)| == |s|
    ensures Offset(s, th, normalize, |s|)[0] == Vec3(s[0].x + th, s[0].y, s[0].z)
    ensures Offset(s, th, normalize, |s|)[|s| - 1] == Vec3(s[|s| - 1].x + th, s[|s| - 1].y, s[|s| - 1].z)
  {
    OffsetPrefix(s, th, normalize, 1, |s|);
    assert Offset(s, th, normalize, |s|)[0] == Offset(s, th, normalize, 1)[0];
  }

  /** Each interior point is offset along the chord from its predecessor's new position. */
  lemma OffsetInterior(s: seq<Vec3>, th: real, normalize: Vec2 -> Vec2, i: int)
    requires 0 < i < |s| - 1
    ensures Offset(s, th, normalize, |s|)[i]
         == InteriorOffset(Offset(s, th, normalize, |s|)[i - 1], s[i], s[i + 1], th, normalize)
  {
    OffsetPrefix(s, th, normalize, i + 1, |s|);
    OffsetPrefix(s, th, normalize, i, i + 1);
    var o := Offset(s, th, normalize, |s|);
    assert o[i] == Offset(s, th, normalize, i + 1)[i];
    assert o[i - 1] == Offset(s, th, normalize, i + 1)[i - 1];
  }

  /**
   * On a straight vertical wall (1,0), (1,1), (1,2) the middle point's
   * normal is taken from the chord (1 + th, 0) to (1, 2), i.e. the vector
   * (2, th) is normalised, not the horizontal (2, 0) of the unmoved chord.
   */
  lemma OffsetOfVerticalWall(th: real, normalize: Vec2 -> Vec2)
    ensures var s := [Vec3(1.0, 0.0, 0.0), Vec3(1.0, 1.0, 0.0), Vec3(1.0, 2.0, 0.0)];
      var n := normalize(Vec2(2.0, th));
      Offset(s, th, normalize, 3)[1] == Vec3(1.0 + n.x * th, 1.0 + n.y * th, 0.0)
  {
    var s := [Vec3(1.0, 0.0, 0.0), Vec3(1.0, 1.0, 0.0), Vec3(1.0, 2.0, 0.0)];
    OffsetInterior(s, th, normalize, 1);
    OffsetEnds(s, th, normalize);
    assert Offset(s, th, normalize, 3)[0] == Vec3(1.0 + th, 0.0, 0.0);
    assert Vec2(2.0 - 0.0, -(1.0 - (1.0 + th))) == Vec2(2.0, th);
  }

  /** The offset loop of getFairingParams, in place on the silhouette array. */
  method OffsetShape(shape: array<Vec3>, th: real, normalize: Vec2 -> Vec2)
    modifies shape
    ensures shape[..] == Offset(old(shape[..]), th, normalize, shape.Length)
  {
    ghost var s := shape[..];
    var i := 0;
    while i < shape.Length
      invariant 0 <= i <= shape.Length
      invariant shape[..i] == Offset(s, th, normalize, i)
      invariant shape[i..] == s[i..]
    {
      ghost var done := shape[..i];
      assert shape[i] == s[i];
      if i == 0 || i == shape.Length - 1 {
        shape[i] := Add3(shape[i], Vec3(th, 0.0, 0.0));
      } else {
        assert shape[i + 1] == s[i + 1] && shape[i - 1] == done[i - 1];
        var prev, next := shape[i - 1], shape[i + 1];
        var n := normalize(Vec2(next.y - prev.y, -(next.x - prev.x)));
        shape[i] := Add3(shape[i], Scale3(Vec3(n.x, n.y, 0.0), th));
      }
      assert shape[..i + 1] == done + [shape[i]];
      assert shape[i + 1..] == s[i + 1..];
      i := i + 1;
    }
    assert shape[..] == shape[..shape.Length];
  }

  /**
   * The bounds loop of getFairingParams: the lowest and highest y and the
   * largest x of the silhouette, each attained by some point.
   */
  method ShapeBounds(shape: array<Vec3>) returns (y0: real, y1: real, mr: real)
    requires shape.Length >= 1
    ensures forall i :: 0 <= i < shape.Length ==> y0 <= shape[i].y <= y1 && shape[i].x <= mr
    ensures exists i :: 0 <= i < shape.Length && shape[i].y == y0
    ensures exists i :: 0 <= i < shape.Length && shape[i].y == y1
    ensures exists i :: 0 <= i < shape.Length && shape[i].x == mr
  {
    y0, y1 := shape[0].y, shape[0].y;
    mr := shape[0].x;
    ghost var iy0, iy1, imr := 0, 0, 0;
    var i := 0;
    while i < shape.Length
      invariant 0 <= i <= shape.Length
      invariant y0 <= y1
      invariant forall k :: 0 <= k < i ==> y0 <= shape[k].y <= y1 && shape[k].x <= mr
      invariant 0 <= iy0 < shape.Length && shape[iy0].y == y0
      invariant 0 <= iy1 < shape.Length && shape[iy1].y == y1
      invariant 0 <= imr < shape.Length && shape[imr].x == mr
    {
      var p := shape[i];
      if p.x > mr {
        mr := p.x;
        imr := i;
      }
      if p.y < y0 {
        y0 := p.y;
        iy0 := i;
      } else if p.y > y1 {
        y1 := p.y;
        iy1 := i;
      }
      i := i + 1;
    }
  }

  /** The y of the lookup sphere's centre: midway up the bounding cylinder. */
  function LookupCenterY(y0: real, y1: real): real {
    (y0 + y1) * 0.5
  }

  /** The lookup sphere's radius: the length of (mr, (y1 − y0)/2). */
  function LookupRadius(mr: real, y0: real, y1: real, sqrt: real -> real): real {
    sqrt(mr * mr + ((y1 - y0) * 0.5) * ((y1 - y0) * 0.5))
  }

  /**
   * With a square root that is one, the lookup sphere holds the whole
   * bounding cylinder: a point within radius mr of the axis and between
   * the two heights is within the sphere's radius of its centre.
   */
  lemma LookupSphereHoldsCylinder(mr: real, y0: real, y1: real, sqrt: real -> real, xsq: real, y: real)
    requires var v := mr * mr + ((y1 - y0) * 0.5) * ((y1 - y0) * 0.5); sqrt(v) * sqrt(v) == v
    requires 0.0 <= xsq <= mr * mr && y0 <= y <= y1
    ensures var d := y - LookupCenterY(y0, y1); xsq + d * d <= LookupRadius(mr, y0, y1, sqrt) * LookupRadius(mr, y0, y1, sqrt)
  {
    var h := (y1 - y0) * 0.5;
    var d := y - LookupCenterY(y0, y1);
    assert -h <= d <= h;
    assert d * d <= h * h by {
      if d >= 0.0 {
        assert d * d <= d * h <= h * h;
      } else {
        assert d * d == (-d) * (-d) <= (-d) * h <= h * h;
      }
    }
  }

  /** The radius of the chord p0–p1 (p0 the lower end) at height y; the midpoint's for a nearly flat chord. */
  function SpanRadius(p0: Vec3, p1: Vec3, y: real): real {
    var dy := p1.y - p0.y;
    if dy <= 0.000001 then (p0.x + p1.x) * 0.5 else (p1.x - p0.x) * (y - p0.y) / dy + p0.x
  }

  /** Segment a–b, its ends ordered by y, spans height y and reaches out to radius x there. */
  predicate SegmentHolds(a: Vec3, b: Vec3, x: real, y: real) {
    var p0 := if a.y > b.y then b else a;
    var p1 := if a.y > b.y then a else b;
    p0.y <= y <= p1.y && x <= SpanRadius(p0, p1, y)
  }

  /** The point at radius x and height y is inside the silhouette: some segment holds it. */
  predicate Inside(shape: seq<Vec3>, x: real, y: real) {
    exists i :: 1 <= i < |shape| && SegmentHolds(shape[i - 1], shape[i], x, y)
  }

  /** The accurate centroid check: segments in order, stopping at the first that holds the point. */
  method InsideTest(shape: array<Vec3>, x: real, y: real) returns (inside: bool)
    ensures inside <==> Inside(shape[..], x, y)
  {
    var i := 1;
    while i < shape.Length
      invariant 1 <= i <= shape.Length || shape.Length == 0
      invariant forall k :: 1 <= k < i && k < shape.Length ==> !SegmentHolds(shape[k - 1], shape[k], x, y)
    {
      var p0, p1 := shape[i - 1], shape[i];
      if p0.y > p1.y {
        p0, p1 := p1, p0;
      }
      if y < p0.y || y > p1.y {
        assert !SegmentHolds(shape[i - 1], shape[i], x, y);
        i := i + 1;
        continue;
      }
      var r := SpanRadius(p0, p1, y);
      if x > r {
        assert !SegmentHolds(shape[i - 1], shape[i], x, y);
        i := i + 1;
        continue;
      }
      assert SegmentHolds(shape[..][i - 1], shape[..][i], x, y);
      return true;
    }
    return false;
  }

  /** Between the ends of a chord the interpolated radius lies between their radii. */
  lemma SpanRadiusBetween(p0: Vec3, p1: Vec3, y: real)
    requires p0.y <= y <= p1.y
    ensures Min(p0.x, p1.x) <= SpanRadius(p0, p1, y) <= Max(p0.x, p1.x)
  {
    var dy := p1.y - p0.y;
    if dy > 0.000001 {
      var t := (y - p0.y) / dy;
      assert 0.0 <= t <= 1.0;
      assert (p1.x - p0.x) * (y - p0.y) / dy == (p1.x - p0.x) * t;
      assert SpanRadius(p0, p1, y) == (p1.x - p0.x) * t + p0.x;
      LerpLike(p0.x, p1.x, t);
    }
  }

  lemma MulNonNegative(a: real, b: real)
    requires a >= 0.0 && b >= 0.0
    ensures a * b >= 0.0
  {
  }

  lemma LerpLike(a: real, b: real, t: real)
    requires 0.0 <= t <= 1.0
    ensures Min(a, b) <= (b - a) * t + a <= Max(a, b)
  {
    var d := b - a;
    if a <= b {
      MulNonNegative(d, t);
      MulNonNegative(d, 1.0 - t);
      assert d * t <= d;
    } else {
      MulNonNegative(-d, t);
      MulNonNegative(-d, 1.0 - t);
      assert d * t >= d;
    }
  }

  /** A point inside the silhouette is no farther out than its farthest point, and lies within its heights. */
  lemma InsideWithinBounds(shape: seq<Vec3>, x: real, y: real, y0: real, y1: real, mr: real)
    requires Inside(shape, x, y)
    requires forall i :: 0 <= i < |shape| ==> y0 <= shape[i].y <= y1 && shape[i].x <= mr
    ensures x <= mr && y0 <= y <= y1
  {
    var i :| 1 <= i < |shape| && SegmentHolds(shape[i - 1], shape[i], x, y);
    var a, b := shape[i - 1], shape[i];
    var p0 := if a.y > b.y then b else a;
    var p1 := if a.y > b.y then a else b;
    SpanRadiusBetween(p0, p1, y);
  }

  /**
   * A nearby part: its id, its renderer bounds' centroid in the base's
   * frame, the squared size of its merged bounds, whether it is on the
   * base's vessel and whether its expanded bounds contain the top of an
   * inline fairing.
   */
  datatype Candidate = Candidate(id: int, centroid: Vec3, sizeSqr: real, sameVessel: bool, closesTop: bool)

  /** The shell a filter checks against: the offset silhouette, its bounding cylinder and the lookup radius. */
  datatype Shell = Shell(shape: seq<Vec3>, y0: real, y1: real, rad: real, lookupRad: real)

  /** The part is attached to one of the connect nodes. */
  predicate IsSide(attached: seq<Slot>, id: int) {
    exists i :: 0 <= i < |attached| && attached[i].part == Some(id)
  }

  /** The squared distance of a point from the axis. */
  function AxisDistSq(c: Vec3): real {
    c.x * c.x + c.z * c.z
  }

  /**
   * A candidate is shielded: the base itself always; otherwise a part that
   * is not a side, (in the older copy) fits the lookup sphere, has its
   * centroid between the cylinder's heights and within its radius, and
   * inside the silhouette.
   */
  predicate Admit(c: Candidate, selfId: int, attached: seq<Slot>, shell: Shell, legacy: bool, sqrt: real -> real) {
    || c.id == selfId
    || (&& !IsSide(attached, c.id)
        && (legacy ==> c.sizeSqr <= shell.lookupRad * shell.lookupRad * 4.0)
        && shell.y0 <= c.centroid.y <= shell.y1
        && AxisDistSq(c.centroid) <= shell.rad * shell.rad
        && Inside(shell.shape, sqrt(AxisDistSq(c.centroid)), c.centroid.y))
  }

  /** The ids of the first k candidates that are shielded, in order. */
  function Admitted(cs: seq<Candidate>, selfId: int, attached: seq<Slot>, shell: Shell, legacy: bool, sqrt: real -> real, k: int): (r: seq<int>)
    requires 0 <= k <= |cs|
    ensures |r| <= k
  {
    if k == 0 then []
    else
      Admitted(cs, selfId, attached, shell, legacy, sqrt, k - 1)
        + (if Admit(cs[k - 1], selfId, attached, shell, legacy, sqrt) then [cs[k - 1].id] else [])
  }

  /** A candidate other than the base and the sides, on the same vessel, whose bounds close the inline top. */
  predicate ClosesTop(c: Candidate, selfId: int, attached: seq<Slot>) {
    c.id != selfId && !IsSide(attached, c.id) && c.sameVessel && c.closesTop
  }

  /** The isSide loop: a first-match scan of every connect node. */
  method IsSideTest(attached: seq<Slot>, id: int) returns (isSide: bool)
    ensures isSide <==> IsSide(attached, id)
  {
    isSide := false;
    var i := 0;
    while i < |attached|
      invariant 0 <= i <= |attached|
      invariant forall k :: 0 <= k < i ==> attached[k].part != Some(id)
    {
      if attached[i].part == Some(id) {
        return true;
      }
      i := i + 1;
    }
  }

  /** Candidate c's check after the base and side cases: the legacy size test, the cylinder tests and the silhouette test. */
  method CheckCandidate(c: Candidate, shape: array<Vec3>, shell: Shell, legacy: bool, sqrt: real -> real)
    returns (admit: bool)
    requires shell.shape == shape[..]
    ensures admit <==>
      && (legacy ==> c.sizeSqr <= shell.lookupRad * shell.lookupRad * 4.0)
      && shell.y0 <= c.centroid.y <= shell.y1
      && AxisDistSq(c.centroid) <= shell.rad * shell.rad
      && Inside(shell.shape, sqrt(AxisDistSq(c.centroid)), c.centroid.y)
  {
    var sizeSqr := shell.lookupRad * shell.lookupRad * 4.0;
    if legacy && c.sizeSqr > sizeSqr {
      return false;
    }
    var y := c.centroid.y;
    if y < shell.y0 || y > shell.y1 {
      return false;
    }
    var xsq := AxisDistSq(c.centroid);
    if xsq > shell.rad * shell.rad {
      return false;
    }
    var x := sqrt(xsq);
    admit := InsideTest(shape, x, y);
  }

  /**
   * The filter loop of enableShielding: the shielded ids in candidate
   * order, and whether some candidate closes the top of an inline fairing
   * (checked only for inline fairings, before the position tests).
   */
  method FilterCandidates(cs: seq<Candidate>, selfId: int, attached: seq<Slot>, shape: array<Vec3>, shell: Shell,
                          legacy: bool, isInline: bool, sqrt: real -> real)
    returns (shielded: seq<int>, topClosed: bool)
    requires shell.shape == shape[..]
    ensures shielded == Admitted(cs, selfId, attached, shell, legacy, sqrt, |cs|)
    ensures topClosed <==> !legacy && isInline && exists i :: 0 <= i < |cs| && ClosesTop(cs[i], selfId, attached)
  {
    shielded, topClosed := [], false;
    var pi := 0;
    while pi < |cs|
      invariant 0 <= pi <= |cs|
      invariant shielded == Admitted(cs, selfId, attached, shell, legacy, sqrt, pi)
      invariant topClosed <==> !legacy && isInline && exists i :: 0 <= i < pi && ClosesTop(cs[i], selfId, attached)
    {
      var admit, closes := Classify(cs[pi], selfId, attached, shape, shell, legacy, sqrt);
      if !legacy && isInline && !topClosed && closes {
        topClosed := true;
      }
      if admit {
        shielded := shielded + [cs[pi].id];
      }
      pi := pi + 1;
    }
  }

  /**
   * One pass of the filter loop: the base is taken at once, a side part
   * skipped, and any other part checked for closing the top and then for
   * position.
   */
  method Classify(pt: Candidate, selfId: int, attached: seq<Slot>, shape: array<Vec3>, shell: Shell,
                  legacy: bool, sqrt: real -> real)
    returns (admit: bool, closes: bool)
    requires shell.shape == shape[..]
    ensures admit == Admit(pt, selfId, attached, shell, legacy, sqrt)
    ensures closes == ClosesTop(pt, selfId, attached)
  {
    if pt.id == selfId {
      return true, false;
    }
    var isSide := IsSideTest(attached, pt.id);
    if isSide {
      return false, false;
    }
    closes := pt.sameVessel && pt.closesTop;
    admit := CheckCandidate(pt, shape, shell, legacy, sqrt);
  }

  /** The base is shielded whenever it is among the candidates. */
  lemma {:induction false} BaseAlwaysShielded(cs: seq<Candidate>, selfId: int, attached: seq<Slot>, shell: Shell,
                                               legacy: bool, sqrt: real -> real, k: int, j: int)
    requires 0 <= j < k <= |cs| && cs[j].id == selfId
    ensures selfId in Admitted(cs, selfId, attached, shell, legacy, sqrt, k)
  {
    if j < k - 1 {
      BaseAlwaysShielded(cs, selfId, attached, shell, legacy, sqrt, k - 1, j);
    }
  }

  /**
   * Every shielded id other than the base's belongs to a candidate that is
   * not a side part and whose centroid is within the cylinder's heights
   * and radius.
   */
  lemma {:induction false} ShieldedAreInside(cs: seq<Candidate>, selfId: int, attached: seq<Slot>, shell: Shell,
                                             legacy: bool, sqrt: real -> real, k: int, id: int)
    requires 0 <= k <= |cs| && id in Admitted(cs, selfId, attached, shell, legacy, sqrt, k) && id != selfId
    ensures exists i :: (0 <= i < k && cs[i].id == id && !IsSide(attached, id)
      && shell.y0 <= cs[i].centroid.y <= shell.y1 && AxisDistSq(cs[i].centroid) <= shell.rad * shell.rad)
  {
    var prev := Admitted(cs, selfId, attached, shell, legacy, sqrt, k - 1);
    if id in prev {
      ShieldedAreInside(cs, selfId, attached, shell, legacy, sqrt, k - 1, id);
    } else {
      var c := cs[k - 1];
      assert Admitted(cs, selfId, attached, shell, legacy, sqrt, k) == prev + (if Admit(c, selfId, attached, shell, legacy, sqrt) then [c.id] else []);
      assert Admit(c, selfId, attached, shell, legacy, sqrt) && c.id == id;
    }
  }

  /**
   * The shell of a side fairing: its silhouette offset by its wall, the
   * least and greatest height and the greatest radius of that outline,
   * each attained, and the lookup sphere around that cylinder.
   */
  ghost predicate OffsetBounded(sh: seq<Vec3>, side: SideInfo, y0: real, y1: real, mr: real,
                                lcy: real, lr: real, normalize: Vec2 -> Vec2, sqrt: real -> real)
  {
    && sh == Offset(side.shape, side.sideThickness, normalize, |side.shape|)
    && (forall i :: 0 <= i < |sh| ==> y0 <= sh[i].y <= y1 && sh[i].x <= mr)
    && (exists i :: 0 <= i < |sh| && sh[i].y == y0)
    && (exists i :: 0 <= i < |sh| && sh[i].y == y1)
    && (exists i :: 0 <= i < |sh| && sh[i].x == mr)
    && lcy == LookupCenterY(y0, y1)
    && lr == LookupRadius(mr, y0, y1, sqrt)
  }

  /** The with-a-side-fairing branch of getFairingParams: copy, offset and bound the silhouette. */
  method BuildShell(side: SideInfo, normalize: Vec2 -> Vec2, sqrt: real -> real)
    returns (a: array<Vec3>, y0: real, y1: real, mr: real, lcy: real, lr: real)
    requires |side.shape| >= 2
    ensures fresh(a)
    ensures OffsetBounded(a[..], side, y0, y1, mr, lcy, lr, normalize, sqrt)
  {
    var s := side.shape;
    a := new Vec3[|s|](i requires 0 <= i < |s| => s[i]);
    assert a[..] == s;
    OffsetShape(a, side.sideThickness, normalize);
    y0, y1, mr := ShapeBounds(a);
    lcy := (y0 + y1) * 0.5;
    lr := sqrt(mr * mr + ((y1 - y0) * 0.5) * ((y1 - y0) * 0.5));
  }

  /** The shielding module of a fairing base. */
  class FairingShielding {
    const selfId: int
    /** The older copy: every connect node selects, no inline top test, no count, a size pre-filter. */
    const legacy: bool
    var sideFairing: Option<SideInfo>
    var shape: array?<Vec3>
    var boundCylY0: real
    var boundCylY1: real
    var boundCylRad: real
    var lookupCenterY: real
    var lookupRad: real
    var shieldedParts: seq<int>
    var numShieldedDisplay: int

    constructor (selfId: int, legacy: bool)
      ensures this.selfId == selfId && this.legacy == legacy
      ensures sideFairing == None && shape == null && shieldedParts == [] && numShieldedDisplay == 0
    {
      this.selfId := selfId;
      this.legacy := legacy;
      sideFairing := None;
      shape := null;
      boundCylY0, boundCylY1, boundCylRad, lookupCenterY, lookupRad := 0.0, 0.0, 0.0, 0.0, 0.0;
      shieldedParts := [];
      numShieldedDisplay := 0;
    }

    /** The shell the filter checks against, from the fields getFairingParams sets. */
    function CurrentShell(): Shell
      requires shape != null
      reads this`shape, this`boundCylY0, this`boundCylY1, this`boundCylRad, this`lookupRad, shape
    {
      Shell(shape[..], boundCylY0, boundCylY1, boundCylRad, lookupRad)
    }

    /**
     * The shell getFairingParams leaves: a side fairing exactly when the
     * first count nodes (every node in the older copy) all hold side parts,
     * and then the last one's; without one no shape and every bound zero;
     * with one the side's silhouette offset by its wall, bounded by the
     * least and greatest height and the greatest radius, each attained, and
     * the lookup sphere around that cylinder.
     */
    ghost predicate Params(attached: seq<Slot>, numNodes: int, normalize: Vec2 -> Vec2, sqrt: real -> real)
      reads this`sideFairing, this`shape, this`boundCylY0, this`boundCylY1, this`boundCylRad
      reads this`lookupCenterY, this`lookupRad, shape
    {
      var count := if legacy then |attached| else numNodes;
      && (sideFairing.Some? <==> 0 <= count <= |attached| && count >= 1 && forall i :: 0 <= i < count ==> Sided(attached[i]))
      && (sideFairing.Some? ==> sideFairing == attached[count - 1].side)
      && (sideFairing.None? ==>
          shape == null && boundCylY0 == 0.0 && boundCylY1 == 0.0 && boundCylRad == 0.0
          && lookupCenterY == 0.0 && lookupRad == 0.0)
      && (sideFairing.Some? ==>
          && shape != null
          && OffsetBounded(shape[..], sideFairing.value, boundCylY0, boundCylY1, boundCylRad,
                           lookupCenterY, lookupRad, normalize, sqrt))
    }

    /** disableShielding: the list is emptied and (in the current copy) the count reset. */
    method DisableShielding()
      modifies this`shieldedParts, this`numShieldedDisplay
      ensures shieldedParts == []
      ensures numShieldedDisplay == if legacy then old(numShieldedDisplay) else 0
    {
      shieldedParts := [];
      if !legacy {
        numShieldedDisplay := 0;
      }
    }

    /**
     * getFairingParams: selects the side fairing; without one the shape
     * is dropped and every bound zeroed; with one its silhouette is copied,
     * offset by its wall, and bounded by a cylinder and a lookup sphere.
     */
    method GetFairingParams(attached: seq<Slot>, numNodes: int, normalize: Vec2 -> Vec2, sqrt: real -> real)
      requires WellBuilt(attached)
      requires legacy || 0 <= numNodes <= |attached|
      modifies this`sideFairing, this`shape, this`boundCylY0, this`boundCylY1, this`boundCylRad
      modifies this`lookupCenterY, this`lookupRad
      ensures Params(attached, numNodes, normalize, sqrt)
      ensures sideFairing.Some? ==> fresh(shape)
    {
      var count := if legacy then |attached| else numNodes;
      var sf := SelectSide(attached, count);
      sideFairing := sf;
      if sf.None? {
        shape := null;
        boundCylY0, boundCylY1, boundCylRad := 0.0, 0.0, 0.0;
        lookupCenterY, lookupRad := 0.0, 0.0;
        return;
      }
      var a, y0, y1, mr, lcy, lr := BuildShell(sf.value, normalize, sqrt);
      shape := a;
      boundCylY0, boundCylY1, boundCylRad := y0, y1, mr;
      lookupCenterY, lookupRad := lcy, lr;
    }

    /**
     * enableShielding: starts from an empty list; with no side fairing it
     * stays empty; otherwise the shielded candidates are listed in order,
     * unless an inline fairing's top is not closed (current copy), which
     * empties the list again; the current copy then shows the count.
     */
    method EnableShielding(cs: seq<Candidate>, attached: seq<Slot>, numNodes: int, normalize: Vec2 -> Vec2, sqrt: real -> real)
      requires WellBuilt(attached)
      requires legacy || 0 <= numNodes <= |attached|
      modifies this`sideFairing, this`shape, this`boundCylY0, this`boundCylY1, this`boundCylRad
      modifies this`lookupCenterY, this`lookupRad, this`shieldedParts, this`numShieldedDisplay
      ensures Params(attached, numNodes, normalize, sqrt)
      ensures sideFairing.Some? ==> fresh(shape)
      ensures sideFairing.None? ==> shieldedParts == []
      ensures (&& sideFairing.Some? && !legacy && sideFairing.value.inline
               && !(exists i :: 0 <= i < |cs| && ClosesTop(cs[i], selfId, attached))) ==> shieldedParts == []
      ensures sideFairing.Some? && (legacy || !sideFairing.value.inline || exists i :: 0 <= i < |cs| && ClosesTop(cs[i], selfId, attached)) ==>
        shieldedParts == Admitted(cs, selfId, attached, CurrentShell(), legacy, sqrt, |cs|)
      ensures !legacy ==> numShieldedDisplay == |shieldedParts|
      ensures legacy ==> numShieldedDisplay == old(numShieldedDisplay)
    {
      DisableShielding();
      GetFairingParams(attached, numNodes, normalize, sqrt);
      if sideFairing.None? {
        return;
      }
      var shell := Shell(shape[..], boundCylY0, boundCylY1, boundCylRad, lookupRad);
      var isInline := sideFairing.value.inline;
      var shielded, topClosed := FilterCandidates(cs, selfId, attached, shape, shell, legacy, isInline, sqrt);
      shieldedParts := shielded;
      if !legacy && isInline && !topClosed {
        DisableShielding();
        return;
      }
      if !legacy {
        numShieldedDisplay := |shieldedParts|;
      }
    }
  }
}
