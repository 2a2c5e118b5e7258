// The silhouette builders of the fairing base: the outline of one fairing
// half as a point list (x = radius, y = height, z = texture v coordinate),
// for a fairing closed by a nose cone and for an inline fairing that ends
// under another base.
module FairingShape {
  import opened Geometry
  import opened Utilities

  // ---------------------------------------------------------------------
  // The points, one function per loop of the builders

  /** Point i of the base cone: the slope scaled from (baseRad, 0) to (maxRad, cylStart). */
  function BaseConePoint(baseRad: real, maxRad: real, cylStart: real, s: BezierSlope,
                         segs: int, v0: real, v1: real, i: int): Vec3
    requires segs >= 1
  {
    var t := i as real / segs as real;
    var p := Interp(s, t);
    Vec3(p.x * (maxRad - baseRad) + baseRad, p.y * cylStart, Lerp(v0, v1, t))
  }

  /** Point i of the nose cone: the slope run backwards from (maxRad, cylEnd) to the tip. */
  function NosePoint(maxRad: real, tip: real, cylEnd: real, s: BezierSlope,
                     segs: int, v0: real, v1: real, i: int): Vec3
    requires segs >= 1
  {
    var t := i as real / segs as real;
    var p := Interp(s, 1.0 - t);
    Vec3(p.x * maxRad, (1.0 - p.y) * tip + cylEnd, Lerp(v0, v1, t))
  }

  /**
   * Point i of the top cone of an inline fairing: from (maxRad, cylEnd) to
   * (topRad, top), its texture coordinate running from v0 to v1 (the inline
   * builder passes the base cone's pair swapped, so it runs from baseV1 back
   * to baseV0).
   */
  function TopConePoint(topRad: real, maxRad: real, top: real, cylEnd: real, s: BezierSlope,
                        segs: int, v0: real, v1: real, i: int): Vec3
    requires segs >= 1
  {
    var t := i as real / segs as real;
    var p := Interp(s, 1.0 - t);
    Vec3(p.x * (maxRad - topRad) + topRad, Lerp(top, cylEnd, p.y), Lerp(v0, v1, t))
  }

  /** The b + 1 points of a base cone. */
  function BaseCone(baseRad: real, maxRad: real, cylStart: real, s: BezierSlope, b: int, v0: real, v1: real): (r: seq<Vec3>)
    requires b >= 1
    ensures |r| == b + 1
  {
    seq(b + 1, i => BaseConePoint(baseRad, maxRad, cylStart, s, b, v0, v1, i))
  }

  /** The base part of the outline: one point when there is no base cone, else b + 1. */
  function BasePart(baseRad: real, maxRad: real, cylStart: real, s: BezierSlope, b: int, v0: real, v1: real): (r: seq<Vec3>)
    requires b >= 1
    ensures |r| == if cylStart == 0.0 then 1 else b + 1
  {
    if cylStart == 0.0 then [Vec3(baseRad, 0.0, v1)]
    else BaseCone(baseRad, maxRad, cylStart, s, b, v0, v1)
  }

  /** The n + 1 points of a nose cone. */
  function NosePart(maxRad: real, tip: real, cylEnd: real, s: BezierSlope, n: int, v0: real, v1: real): (r: seq<Vec3>)
    requires n >= 1
    ensures |r| == n + 1
  {
    seq(n + 1, i => NosePoint(maxRad, tip, cylEnd, s, n, v0, v1, i))
  }

  /**
   * The b + 1 points of the top cone of an inline fairing, from the
   * cylinder's end at texture coordinate v0 to the top ring at v1.
   */
  function TopCone(topRad: real, maxRad: real, top: real, cylEnd: real, s: BezierSlope, b: int, v0: real, v1: real): (r: seq<Vec3>)
    requires b >= 1
    ensures |r| == b + 1
    ensures r[0] == Vec3(maxRad, cylEnd, v0) && r[b] == Vec3(topRad, top, v1)
  {
    TopConeEnds(topRad, maxRad, top, cylEnd, s, b, v0, v1);
    seq(b + 1, i => TopConePoint(topRad, maxRad, top, cylEnd, s, b, v0, v1, i))
  }

  /** The outline buildFairingShape produces. */
  function FairingOutline(baseRad: real, maxRad: real, cylStart: real, cylEnd: real, noseHeightRatio: real,
                          baseConeShape: Vec4, noseConeShape: Vec4, b: int, n: int,
                          vertMapping: Vec4, mappingScaleY: real): seq<Vec3>
    requires b >= 1 && n >= 1 && mappingScaleY != 0.0
  {
    BasePart(baseRad, maxRad, cylStart, SlopeOf(baseConeShape), b,
             vertMapping.x / mappingScaleY, vertMapping.y / mappingScaleY)
    + NosePart(maxRad, maxRad * noseHeightRatio, cylEnd, SlopeOf(noseConeShape), n,
               vertMapping.z / mappingScaleY, vertMapping.w / mappingScaleY)
  }

  /** The base cone of an inline outline: absent when the cone has zero height. */
  function InlineBasePart(baseRad: real, maxRad: real, cylStart: real, s: BezierSlope, b: int, v0: real, v1: real): (r: seq<Vec3>)
    requires b >= 1
    ensures |r| == if cylStart == 0.0 then 0 else b + 1
  {
    if cylStart == 0.0 then [] else BaseCone(baseRad, maxRad, cylStart, s, b, v0, v1)
  }

  /** The top cone of an inline outline: absent when the cylinder reaches the top. */
  function TopPart(topRad: real, maxRad: real, top: real, cylEnd: real, s: BezierSlope, b: int, v0: real, v1: real): (r: seq<Vec3>)
    requires b >= 1
    ensures |r| == if cylEnd == top then 0 else b + 1
    ensures cylEnd != top ==> r[0] == Vec3(maxRad, cylEnd, v0) && r[b] == Vec3(topRad, top, v1)
  {
    if cylEnd == top then [] else TopCone(topRad, maxRad, top, cylEnd, s, b, v0, v1)
  }

  /** The outline buildInlineFairingShape produces. */
  function InlineOutline(baseRad: real, maxRad: real, topRad: real, cylStart: real, cylEnd: real, top: real,
                         baseConeShape: Vec4, b: int, vertMapping: Vec4, mappingScaleY: real): seq<Vec3>
    requires b >= 1 && mappingScaleY != 0.0
  {
    var v0, v1, nv0 := vertMapping.x / mappingScaleY, vertMapping.y / mappingScaleY, vertMapping.z / mappingScaleY;
    InlineBasePart(baseRad, maxRad, cylStart, SlopeOf(baseConeShape), b, v0, v1)
    + [Vec3(maxRad, cylStart, v1), Vec3(maxRad, cylEnd, nv0)]
    + TopPart(topRad, maxRad, top, cylEnd, SlopeOf(baseConeShape), b, v1, v0)
  }

  // ---------------------------------------------------------------------
  // What the outlines promise

  /** The base cone runs from the base ring (baseRad, 0) to the cylinder (maxRad, cylStart). */
  lemma BaseConeEnds(baseRad: real, maxRad: real, cylStart: real, s: BezierSlope, segs: int, v0: real, v1: real)
    requires segs >= 1
    ensures BaseConePoint(baseRad, maxRad, cylStart, s, segs, v0, v1, 0).x == baseRad
    ensures BaseConePoint(baseRad, maxRad, cylStart, s, segs, v0, v1, 0).y == 0.0
    ensures BaseConePoint(baseRad, maxRad, cylStart, s, segs, v0, v1, segs).x == maxRad
    ensures BaseConePoint(baseRad, maxRad, cylStart, s, segs, v0, v1, segs).y == cylStart
  {
    assert 0 as real / segs as real == 0.0;
    assert segs as real / segs as real == 1.0;
    var p0, p1 := Interp(s, 0.0), Interp(s, 1.0);
    InterpBounds(s, 0.0);
    InterpBounds(s, 1.0);
    assert p0.x * (maxRad - baseRad) + baseRad == baseRad && p0.y * cylStart == 0.0;
    assert p1.x * (maxRad - baseRad) + baseRad == maxRad && p1.y * cylStart == cylStart;
  }

  /** The nose cone runs from the cylinder (maxRad, cylEnd) to the tip (0, cylEnd + tip). */
  lemma NoseEnds(maxRad: real, tip: real, cylEnd: real, s: BezierSlope, segs: int, v0: real, v1: real)
    requires segs >= 1
    ensures NosePoint(maxRad, tip, cylEnd, s, segs, v0, v1, 0).x == maxRad
    ensures NosePoint(maxRad, tip, cylEnd, s, segs, v0, v1, 0).y == cylEnd
    ensures NosePoint(maxRad, tip, cylEnd, s, segs, v0, v1, segs).x == 0.0
    ensures NosePoint(maxRad, tip, cylEnd, s, segs, v0, v1, segs).y == cylEnd + tip
  {
    assert 0 as real / segs as real == 0.0;
    assert segs as real / segs as real == 1.0;
    var p0, p1 := Interp(s, 1.0), Interp(s, 0.0);
    InterpBounds(s, 0.0);
    InterpBounds(s, 1.0);
    assert p0.x * maxRad == maxRad && (1.0 - p0.y) * tip + cylEnd == cylEnd;
    assert p1.x * maxRad == 0.0 && (1.0 - p1.y) * tip + cylEnd == cylEnd + tip;
  }

  /** The top cone runs from the cylinder (maxRad, cylEnd) to the top ring (topRad, top). */
  lemma TopConeEnds(topRad: real, maxRad: real, top: real, cylEnd: real, s: BezierSlope, segs: int, v0: real, v1: real)
    requires segs >= 1
    ensures TopConePoint(topRad, maxRad, top, cylEnd, s, segs, v0, v1, 0).x == maxRad
    ensures TopConePoint(topRad, maxRad, top, cylEnd, s, segs, v0, v1, 0).y == cylEnd
    ensures TopConePoint(topRad, maxRad, top, cylEnd, s, segs, v0, v1, segs).x == topRad
    ensures TopConePoint(topRad, maxRad, top, cylEnd, s, segs, v0, v1, segs).y == top
    ensures TopConePoint(topRad, maxRad, top, cylEnd, s, segs, v0, v1, 0).z == v0
    ensures TopConePoint(topRad, maxRad, top, cylEnd, s, segs, v0, v1, segs).z == v1
  {
    assert 0 as real / segs as real == 0.0;
    assert segs as real / segs as real == 1.0;
    var p0, p1 := Interp(s, 1.0), Interp(s, 0.0);
    InterpBounds(s, 0.0);
    InterpBounds(s, 1.0);
    LerpBetween(top, cylEnd, 1.0);
    LerpBetween(top, cylEnd, 0.0);
    LerpBetween(v0, v1, 0.0);
    LerpBetween(v0, v1, 1.0);
    assert p0.x * (maxRad - topRad) + topRad == maxRad;
    assert p1.x * (maxRad - topRad) + topRad == topRad;
  }

  /**
   * The outline of a closed fairing has 1 + (cylStart == 0 ? 0 : b) + 1 + n
   * points, starts on the base ring at (baseRad, 0), reaches the cylinder at
   * (maxRad, cylStart), leaves it at (maxRad, cylEnd) and ends on the axis at
   * the tip, maxRad * noseHeightRatio above cylEnd.
   */
  lemma FairingOutlineShape(baseRad: real, maxRad: real, cylStart: real, cylEnd: real, noseHeightRatio: real,
                            baseConeShape: Vec4, noseConeShape: Vec4, b: int, n: int,
                            vertMapping: Vec4, mappingScaleY: real)
    requires b >= 1 && n >= 1 && mappingScaleY != 0.0
    ensures var r := FairingOutline(baseRad, maxRad, cylStart, cylEnd, noseHeightRatio,
                                    baseConeShape, noseConeShape, b, n, vertMapping, mappingScaleY);
      var nose := if cylStart == 0.0 then 1 else b + 1;
      && |r| == 1 + (if cylStart == 0.0 then 0 else b) + 1 + n
      && r[0].x == baseRad && r[0].y == 0.0
      && (cylStart != 0.0 ==> r[b].x == maxRad && r[b].y == cylStart)
      && r[nose].x == maxRad && r[nose].y == cylEnd
      && r[|r| - 1].x == 0.0 && r[|r| - 1].y == cylEnd + maxRad * noseHeightRatio
  {
    var bs, ns := SlopeOf(baseConeShape), SlopeOf(noseConeShape);
    var v0, v1 := vertMapping.x / mappingScaleY, vertMapping.y / mappingScaleY;
    var w0, w1 := vertMapping.z / mappingScaleY, vertMapping.w / mappingScaleY;
    var tip := maxRad * noseHeightRatio;
    var base := BasePart(baseRad, maxRad, cylStart, bs, b, v0, v1);
    var nose := NosePart(maxRad, tip, cylEnd, ns, n, w0, w1);
    var r := base + nose;
    NoseEnds(maxRad, tip, cylEnd, ns, n, w0, w1);
    assert r[|base|] == nose[0];
    assert r[|r| - 1] == nose[n];
    if cylStart != 0.0 {
      BaseConeEnds(baseRad, maxRad, cylStart, bs, b, v0, v1);
      assert r[0] == base[0] && r[b] == base[b];
    }
  }

  /**
   * The inline outline has 2 + (cylStart == 0 ? 0 : b + 1) + (cylEnd == top ? 0 : b + 1)
   * points, holds the cylinder edge (maxRad, cylStart), (maxRad, cylEnd) as
   * two consecutive points and, when there is a top cone, ends at (topRad, top);
   * the top cone's texture coordinate runs from baseV1 down to baseV0.
   */
  lemma InlineOutlineShape(baseRad: real, maxRad: real, topRad: real, cylStart: real, cylEnd: real, top: real,
                           baseConeShape: Vec4, b: int, vertMapping: Vec4, mappingScaleY: real)
    requires b >= 1 && mappingScaleY != 0.0
    ensures var r := InlineOutline(baseRad, maxRad, topRad, cylStart, cylEnd, top, baseConeShape, b, vertMapping, mappingScaleY);
      var k := if cylStart == 0.0 then 0 else b + 1;
      && |r| == 2 + (if cylStart == 0.0 then 0 else b + 1) + (if cylEnd == top then 0 else b + 1)
      && r[k].x == maxRad && r[k].y == cylStart
      && r[k + 1].x == maxRad && r[k + 1].y == cylEnd
      && (cylStart != 0.0 ==> r[0].x == baseRad && r[0].y == 0.0 && r[b].x == maxRad && r[b].y == cylStart)
      && (cylEnd != top ==> r[k + 2].x == maxRad && r[k + 2].y == cylEnd)
      && (cylEnd != top ==> r[|r| - 1].x == topRad && r[|r| - 1].y == top)
      && (cylEnd != top ==> r[k + 2].z == vertMapping.y / mappingScaleY)
      && (cylEnd != top ==> r[|r| - 1].z == vertMapping.x / mappingScaleY)
  {
    var s := SlopeOf(baseConeShape);
    var v0, v1, nv0 := vertMapping.x / mappingScaleY, vertMapping.y / mappingScaleY, vertMapping.z / mappingScaleY;
    var base := InlineBasePart(baseRad, maxRad, cylStart, s, b, v0, v1);
    var mid := [Vec3(maxRad, cylStart, v1), Vec3(maxRad, cylEnd, nv0)];
    var topc := TopPart(topRad, maxRad, top, cylEnd, s, b, v1, v0);
    var r := base + mid + topc;
    assert r[|base|] == mid[0] && r[|base| + 1] == mid[1];
    if cylStart != 0.0 {
      BaseConeEnds(baseRad, maxRad, cylStart, s, b, v0, v1);
      assert r[0] == base[0] && r[b] == base[b];
    }
    if cylEnd != top {
      TopConeEnds(topRad, maxRad, top, cylEnd, s, b, v1, v0);
      assert r[|base| + 2] == topc[0];
      assert r[|r| - 1] == topc[b];
    }
  }

  // ---------------------------------------------------------------------
  // The builders

  /** The base cone loop: writes the b + 1 base cone points from index vi on. */
  method FillBaseCone(shape: array<Vec3>, vi: int, baseRad: real, maxRad: real, cylStart: real,
                      s: BezierSlope, b: int, v0: real, v1: real)
    requires b >= 1 && 0 <= vi && vi + b + 1 <= shape.Length
    modifies shape
    ensures shape[..vi] == old(shape[..vi])
    ensures shape[vi..vi + b + 1] == BaseCone(baseRad, maxRad, cylStart, s, b, v0, v1)
    ensures shape[vi + b + 1..] == old(shape[vi + b + 1..])
  {
    ghost var cone := BaseCone(baseRad, maxRad, cylStart, s, b, v0, v1);
    for i := 0 to b + 1
      invariant forall k :: 0 <= k < vi ==> shape[k] == old(shape[k])
      invariant forall k :: vi + b + 1 <= k < shape.Length ==> shape[k] == old(shape[k])
      invariant forall k :: 0 <= k < i ==> shape[vi + k] == cone[k]
    {
      shape[vi + i] := BaseConePoint(baseRad, maxRad, cylStart, s, b, v0, v1, i);
    }
    assert shape[vi..vi + b + 1] == cone;
  }

  /** The nose cone loop: writes the n + 1 nose points from index vi on. */
  method FillNose(shape: array<Vec3>, vi: int, maxRad: real, tip: real, cylEnd: real,
                  s: BezierSlope, n: int, v0: real, v1: real)
    requires n >= 1 && 0 <= vi && vi + n + 1 <= shape.Length
    modifies shape
    ensures shape[..vi] == old(shape[..vi])
    ensures shape[vi..vi + n + 1] == NosePart(maxRad, tip, cylEnd, s, n, v0, v1)
    ensures shape[vi + n + 1..] == old(shape[vi + n + 1..])
  {
    ghost var cone := NosePart(maxRad, tip, cylEnd, s, n, v0, v1);
    for i := 0 to n + 1
      invariant forall k :: 0 <= k < vi ==> shape[k] == old(shape[k])
      invariant forall k :: vi + n + 1 <= k < shape.Length ==> shape[k] == old(shape[k])
      invariant forall k :: 0 <= k < i ==> shape[vi + k] == cone[k]
    {
      shape[vi + i] := NosePoint(maxRad, tip, cylEnd, s, n, v0, v1, i);
    }
    assert shape[vi..vi + n + 1] == cone;
  }

  /** The top cone loop of an inline fairing: writes the b + 1 top cone points from index vi on. */
  method FillTopCone(shape: array<Vec3>, vi: int, topRad: real, maxRad: real, top: real, cylEnd: real,
                     s: BezierSlope, b: int, v0: real, v1: real)
    requires b >= 1 && 0 <= vi && vi + b + 1 <= shape.Length
    modifies shape
    ensures shape[..vi] == old(shape[..vi])
    ensures shape[vi..vi + b + 1] == TopCone(topRad, maxRad, top, cylEnd, s, b, v0, v1)
    ensures shape[vi + b + 1..] == old(shape[vi + b + 1..])
  {
    ghost var cone := TopCone(topRad, maxRad, top, cylEnd, s, b, v0, v1);
    for i := 0 to b + 1
      invariant forall k :: 0 <= k < vi ==> shape[k] == old(shape[k])
      invariant forall k :: vi + b + 1 <= k < shape.Length ==> shape[k] == old(shape[k])
      invariant forall k :: 0 <= k < i ==> shape[vi + k] == cone[k]
    {
      shape[vi + i] := TopConePoint(topRad, maxRad, top, cylEnd, s, b, v0, v1, i);
    }
    assert shape[vi..vi + b + 1] == cone;
  }

  /** buildFairingShape: base cone (or a single base point), then the nose. */
  method BuildFairingShape(baseRad: real, maxRad: real, cylStart: real, cylEnd: real, noseHeightRatio: real,
                           baseConeShape: Vec4, noseConeShape: Vec4, baseConeSegments: int, noseConeSegments: int,
                           vertMapping: Vec4, mappingScaleY: real)
    returns (shape: array<Vec3>)
    requires baseConeSegments >= 1 && noseConeSegments >= 1 && mappingScaleY != 0.0
    ensures shape.Length == 1 + (if cylStart == 0.0 then 0 else baseConeSegments) + 1 + noseConeSegments
    ensures shape[..] == FairingOutline(baseRad, maxRad, cylStart, cylEnd, noseHeightRatio, baseConeShape, noseConeShape,
                                        baseConeSegments, noseConeSegments, vertMapping, mappingScaleY)
  {
    var tip := maxRad * noseHeightRatio;
    var baseSlope := SlopeOf(baseConeShape);
    var noseSlope := SlopeOf(noseConeShape);
    var baseV0 := vertMapping.x / mappingScaleY;
    var baseV1 := vertMapping.y / mappingScaleY;
    var noseV0 := vertMapping.z / mappingScaleY;
    var noseV1 := vertMapping.w / mappingScaleY;
    ghost var base := BasePart(baseRad, maxRad, cylStart, baseSlope, baseConeSegments, baseV0, baseV1);
    ghost var nose := NosePart(maxRad, tip, cylEnd, noseSlope, noseConeSegments, noseV0, noseV1);

    shape := new Vec3[1 + (if cylStart == 0.0 then 0 else baseConeSegments) + 1 + noseConeSegments];
    var vi := 0;
    if cylStart != 0.0 {
      FillBaseCone(shape, vi, baseRad, maxRad, cylStart, baseSlope, baseConeSegments, baseV0, baseV1);
      vi := vi + baseConeSegments + 1;
    } else {
      shape[vi] := Vec3(baseRad, 0.0, baseV1);
      vi := vi + 1;
    }
    assert vi == |base| && shape[..vi] == base;
    FillNose(shape, vi, maxRad, tip, cylEnd, noseSlope, noseConeSegments, noseV0, noseV1);
    assert shape[..] == shape[..vi] + shape[vi..vi + noseConeSegments + 1];
  }

  /** buildInlineFairingShape: base cone (if any), the cylinder edge, top cone (if any). */
  method BuildInlineFairingShape(baseRad: real, maxRad: real, topRad: real, cylStart: real, cylEnd: real, top: real,
                                 baseConeShape: Vec4, baseConeSegments: int, vertMapping: Vec4, mappingScaleY: real)
    returns (shape: array<Vec3>)
    requires baseConeSegments >= 1 && mappingScaleY != 0.0
    ensures shape.Length == 2 + (if cylStart == 0.0 then 0 else baseConeSegments + 1)
                              + (if cylEnd == top then 0 else baseConeSegments + 1)
    ensures shape[..] == InlineOutline(baseRad, maxRad, topRad, cylStart, cylEnd, top, baseConeShape,
                                       baseConeSegments, vertMapping, mappingScaleY)
  {
    var baseSlope := SlopeOf(baseConeShape);
    var baseV0 := vertMapping.x / mappingScaleY;
    var baseV1 := vertMapping.y / mappingScaleY;
    var noseV0 := vertMapping.z / mappingScaleY;
    ghost var base := InlineBasePart(baseRad, maxRad, cylStart, baseSlope, baseConeSegments, baseV0, baseV1);
    ghost var mid := [Vec3(maxRad, cylStart, baseV1), Vec3(maxRad, cylEnd, noseV0)];
    ghost var topc := TopPart(topRad, maxRad, top, cylEnd, baseSlope, baseConeSegments, baseV1, baseV0);

    shape := new Vec3[2 + (if cylStart == 0.0 then 0 else baseConeSegments + 1)
                        + (if cylEnd == top then 0 else baseConeSegments + 1)];
    var vi := 0;
    if cylStart != 0.0 {
      FillBaseCone(shape, vi, baseRad, maxRad, cylStart, baseSlope, baseConeSegments, baseV0, baseV1);
      vi := vi + baseConeSegments + 1;
    }
    assert vi == |base| && shape[..vi] == base;
    shape[vi] := Vec3(maxRad, cylStart, baseV1);
    shape[vi + 1] := Vec3(maxRad, cylEnd, noseV0);
    vi := vi + 2;
    assert shape[..vi] == base + mid;
    if cylEnd != top {
      FillTopCone(shape, vi, topRad, maxRad, top, cylEnd, baseSlope, baseConeSegments, baseV1, baseV0);
      assert shape[..] == shape[..vi] + shape[vi..vi + baseConeSegments + 1];
    } else {
      assert shape[..] == shape[..vi];
    }
  }
}
