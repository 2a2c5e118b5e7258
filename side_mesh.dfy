// The side part's module: the surface area and mass of its shell, the
// cost and mass modifiers it reports, the size of its connect node and
// the mesh rebuild that ties the vertex and triangle buffers to them.
module SideMesh {
  import opened Geometry
  import opened Sizing
  import ShellMesh
  import SideVertices
  import FairingShape

  /** Mathf.PI, the single-precision value of pi. */
  const Pi: real := 3.14159274

  /**
   * The band of the shell between silhouette points a and b, for one of
   * numSideParts sides: (x0 + x1)·(y1 − y0)·π / numSideParts.
   */
  function BandArea(a: Vec3, b: Vec3, numSideParts: int): real
    requires numSideParts != 0
  {
    (a.x + b.x) * (b.y - a.y) * Pi / numSideParts as real
  }

  /** The bands between the first n silhouette points. */
  function Area(shape: seq<Vec3>, n: int, numSideParts: int): real
    requires 0 <= n <= |shape| && numSideParts != 0
  {
    if n <= 1 then 0.0 else Area(shape, n - 1, numSideParts) + BandArea(shape[n - 2], shape[n - 1], numSideParts)
  }

  /** The area loop of rebuildMesh. */
  method ComputeArea(shape: seq<Vec3>, numSideParts: int) returns (area: real)
    requires numSideParts != 0
    ensures area == Area(shape, |shape|, numSideParts)
  {
    area := 0.0;
    var i := 1;
    while i < |shape|
      invariant 1 <= i <= |shape| || (|shape| == 0 && i == 1)
      invariant area == Area(shape, if |shape| == 0 then 0 else i, numSideParts)
    {
      area := area + BandArea(shape[i - 1], shape[i], numSideParts);
      i := i + 1;
    }
  }

  /** A silhouette that never turns downwards and stays off the axis's far side. */
  predicate Rising(shape: seq<Vec3>) {
    && (forall i :: 0 <= i < |shape| ==> shape[i].x >= 0.0)
    && (forall i, j :: 0 <= i < j < |shape| ==> shape[i].y <= shape[j].y)
  }

  /** Such a silhouette has a non-negative area, so the side's mass is not negative. */
  lemma {:induction false} AreaNonNegative(shape: seq<Vec3>, n: int, numSideParts: int)
    requires 0 <= n <= |shape| && numSideParts > 0 && Rising(shape)
    ensures Area(shape, n, numSideParts) >= 0.0
  {
    if n > 1 {
      AreaNonNegative(shape, n - 1, numSideParts);
      var a, b := shape[n - 2], shape[n - 1];
      assert (a.x + b.x) * (b.y - a.y) >= 0.0;
      assert (a.x + b.x) * (b.y - a.y) * Pi >= 0.0;
    }
  }

  /** All points of the first n at radius r. */
  predicate Cylinder(shape: seq<Vec3>, n: int, r: real)
    requires 0 <= n <= |shape|
  {
    forall i :: 0 <= i < n ==> shape[i].x == r
  }

  /** The lateral area of a cylinder of radius r and height h, shared among numSideParts sides: 2·π·r·h / numSideParts. */
  function WallArea(r: real, h: real, numSideParts: int): real
    requires numSideParts != 0
  {
    2.0 * r * h * Pi / numSideParts as real
  }

  /** A straight wall of radius r gets the lateral area of its cylinder. */
  lemma {:induction false} CylinderArea(shape: seq<Vec3>, n: int, numSideParts: int, r: real)
    requires 1 <= n <= |shape| && numSideParts != 0 && Cylinder(shape, n, r)
    ensures Area(shape, n, numSideParts) == WallArea(r, shape[n - 1].y - shape[0].y, numSideParts)
  {
    if n > 1 {
      var m := n - 1;
      CylinderArea(shape, m, numSideParts, r);
      var a, b := shape[m - 1], shape[m];
      assert shape[n - 2] == a && shape[n - 1] == b;
      WallBand(a, b, shape[0].y, r, numSideParts);
    } else {
      assert shape[n - 1] == shape[0];
      FlatWall(r, shape[0].y, numSideParts);
    }
  }

  /** A wall of no height has no area. */
  lemma FlatWall(r: real, y: real, numSideParts: int)
    requires numSideParts != 0
    ensures WallArea(r, y - y, numSideParts) == 0.0
  {
    assert y - y == 0.0;
  }

  /** The band between two points at radius r is the wall up to the upper one less the wall up to the lower one. */
  lemma WallBand(a: Vec3, b: Vec3, y0: real, r: real, numSideParts: int)
    requires numSideParts != 0 && a.x == r && b.x == r
    ensures BandArea(a, b, numSideParts) == WallArea(r, b.y - y0, numSideParts) - WallArea(r, a.y - y0, numSideParts)
  {
    var k := numSideParts as real;
    calc {
      WallArea(r, b.y - y0, numSideParts) - WallArea(r, a.y - y0, numSideParts);
      (2.0 * r * (b.y - y0) * Pi - 2.0 * r * (a.y - y0) * Pi) / k;
      (r + r) * (b.y - a.y) * Pi / k;
      (a.x + b.x) * (b.y - a.y) * Pi / k;
    }
  }

  /** The area of a silhouette made of two pieces sharing a point is the sum of their areas. */
  lemma {:induction false} AreaSplits(shape: seq<Vec3>, m: int, n: int, numSideParts: int)
    requires 1 <= m <= n <= |shape| && numSideParts != 0
    ensures Area(shape, n, numSideParts) == Area(shape, m, numSideParts) + Area(shape[m - 1..], n - m + 1, numSideParts)
  {
    if n > m {
      AreaSplits(shape, m, n - 1, numSideParts);
      var t := shape[m - 1..];
      assert t[n - m - 1] == shape[n - 2] && t[n - m] == shape[n - 1];
    }
  }

  /** The side's mass: the shell's volume (area times wall thickness) times the density. */
  function ShellMass(area: real, sideThickness: real, density: real): real {
    area * sideThickness * density
  }

  /** A breaking force or torque: the mass times its specific coefficient. */
  function Load(mass: real, specific: real): real {
    mass * specific
  }

  /**
   * The shape fields of a side that rebuildMesh reads to build its
   * silhouette and its sweep: the envelope, the two cone curves with their
   * segment counts, the texture mapping and the number of segments per side.
   */
  datatype SideOutline = SideOutline(
    maxRad: real, topRad: real, cylStart: real, cylEnd: real, inlineHeight: real, noseHeightRatio: real,
    baseConeShape: Vec4, noseConeShape: Vec4, baseConeSegments: int, noseConeSegments: int,
    vertMapping: Vec4, mappingScaleY: real, numSegs: int)

  /** The divisions rebuildMesh performs on the outline's fields are defined. */
  predicate Buildable(o: SideOutline) {
    o.baseConeSegments >= 1 && o.noseConeSegments >= 1 && o.mappingScaleY != 0.0 && o.numSegs >= 1
  }

  /**
   * The silhouette rebuildMesh sweeps: the closed outline when inlineHeight
   * is not positive, otherwise the inline outline ending at inlineHeight.
   */
  function Silhouette(baseRad: real, o: SideOutline): (r: seq<Vec3>)
    requires Buildable(o)
    ensures |r| >= 2
  {
    if o.inlineHeight <= 0.0 then
      FairingShape.FairingOutline(baseRad, o.maxRad, o.cylStart, o.cylEnd, o.noseHeightRatio,
                                  o.baseConeShape, o.noseConeShape, o.baseConeSegments, o.noseConeSegments,
                                  o.vertMapping, o.mappingScaleY)
    else
      FairingShape.InlineOutline(baseRad, o.maxRad, o.topRad, o.cylStart, o.cylEnd, o.inlineHeight,
                                 o.baseConeShape, o.baseConeSegments, o.vertMapping, o.mappingScaleY)
  }

  /** The angle of sweep direction i: 2π(i − numSegs/2) / (numSideParts·numSegs). */
  function SweepAngle(numSegs: int, numSideParts: int, i: int): real
    requires numSegs >= 1 && numSideParts != 0
  {
    Pi * 2.0 * (i as real - numSegs as real * 0.5) / (numSideParts * numSegs) as real
  }

  /**
   * The numSegs + 1 sweep angles span one side's share of the circle,
   * 2π / numSideParts, and lie symmetrically about angle 0.
   */
  lemma {:induction false} SweepSpan(numSegs: int, numSideParts: int, i: int)
    requires numSegs >= 1 && numSideParts != 0 && 0 <= i <= numSegs
    ensures SweepAngle(numSegs, numSideParts, numSegs) - SweepAngle(numSegs, numSideParts, 0) == Pi * 2.0 / numSideParts as real
    ensures SweepAngle(numSegs, numSideParts, numSegs - i) == -SweepAngle(numSegs, numSideParts, i)
  {
    var d := (numSideParts * numSegs) as real;
    var n := numSegs as real;
    assert d == numSideParts as real * n;
    assert SweepAngle(numSegs, numSideParts, numSegs) - SweepAngle(numSegs, numSideParts, 0) == Pi * 2.0 * n / d;
    assert Pi * 2.0 * n / d == Pi * 2.0 / numSideParts as real;
  }

  /** Sweep direction i: the horizontal unit direction at sweep angle i. */
  function SweepDir(numSegs: int, numSideParts: int, cos: real -> real, sin: real -> real, i: int): Vec3
    requires numSegs >= 1 && numSideParts != 0
  {
    var a := SweepAngle(numSegs, numSideParts, i);
    Vec3(cos(a), 0.0, sin(a))
  }

  /** The numSegs + 1 sweep directions. */
  function Directions(numSegs: int, numSideParts: int, cos: real -> real, sin: real -> real): (r: seq<Vec3>)
    requires numSegs >= 1 && numSideParts != 0
    ensures |r| == numSegs + 1
  {
    seq(numSegs + 1, i => SweepDir(numSegs, numSideParts, cos, sin, i))
  }

  /** The direction loop of rebuildMesh fills the array with the sweep directions. */
  method BuildDirections(numSegs: int, numSideParts: int, cos: real -> real, sin: real -> real)
    returns (dirs: seq<Vec3>)
    requires numSegs >= 1 && numSideParts != 0
    ensures dirs == Directions(numSegs, numSideParts, cos, sin)
  {
    var d := new Vec3[numSegs + 1];
    for i := 0 to numSegs + 1
      invariant forall k :: 0 <= k < i ==> d[k] == SweepDir(numSegs, numSideParts, cos, sin, k)
    {
      d[i] := SweepDir(numSegs, numSideParts, cos, sin, i);
    }
    dirs := d[..];
  }

  /**
   * The buffers of a swept shell: totalVerts vertices holding the sweep of
   * the silhouette over the directions, with finished tangents, and
   * totalFaces·3 indices in the face loops' layout.
   */
  ghost predicate ShellBuffers(vs: seq<SideVertices.MeshVertex>, ts: seq<int>, shape: seq<Vec3>, dirs: seq<Vec3>,
                               sideThickness: real, inline: bool, normalize: Vec2 -> Vec2, unit: Vec3 -> Vec3)
  {
    && |shape| >= 2 && |dirs| >= 1
    && |vs| == ShellMesh.Counts(|dirs| - 1, |shape|, inline).totalVerts
    && vs == SideVertices.Finished(SideVertices.VertexBuffer(SideVertices.Sweep(shape, dirs, sideThickness, inline), normalize, unit))
    && |ts| == ShellMesh.Counts(|dirs| - 1, |shape|, inline).totalFaces * 3
    && ts == ShellMesh.Triangles(|dirs| - 1, |shape|, inline)
  }

  /** updateNodeSize's outcome: a connect node, if any, sized for the base diameter in 1.25 steps. */
  ghost predicate ConnectSized(after: Option<int>, before: Option<int>, baseRad: real) {
    after == if before.Some? then Some(SideNodeSize(baseRad * 2.0, 1.25)) else None
  }

  /** The side part module's state that rebuildMesh, the getters and updateNodeSize touch. */
  class FairingSide {
    var numSideParts: int
    var baseRad: real
    var sideThickness: real
    var density: real
    const costPerTonne: real
    const specificBreakingForce: real
    const specificBreakingTorque: real

    var totalMass: real
    var mass: real
    var breakingForce: real
    var breakingTorque: real
    /** The size of the connect node, when the part has one. */
    var connectSize: Option<int>
    /** The shape fields the silhouette is built from. */
    var outline: SideOutline

    constructor (numSideParts: int, baseRad: real, sideThickness: real, density: real,
                 costPerTonne: real, specificBreakingForce: real, specificBreakingTorque: real, hasConnect: bool,
                 outline: SideOutline)
      ensures this.numSideParts == numSideParts && this.baseRad == baseRad && this.outline == outline
      ensures this.sideThickness == sideThickness && this.density == density
      ensures this.costPerTonne == costPerTonne
      ensures this.specificBreakingForce == specificBreakingForce && this.specificBreakingTorque == specificBreakingTorque
      ensures totalMass == 0.0 && connectSize == if hasConnect then Some(0) else None
    {
      this.numSideParts := numSideParts;
      this.baseRad := baseRad;
      this.sideThickness := sideThickness;
      this.density := density;
      this.costPerTonne := costPerTonne;
      this.specificBreakingForce := specificBreakingForce;
      this.specificBreakingTorque := specificBreakingTorque;
      totalMass, mass, breakingForce, breakingTorque := 0.0, 0.0, 0.0, 0.0;
      connectSize := if hasConnect then Some(0) else None;
      this.outline := outline;
    }

    /** GetModuleCost: the part's cost above its default. */
    function GetModuleCost(defcost: real): real
      reads this
    {
      totalMass * costPerTonne - defcost
    }

    /** GetModuleMass: the part's mass above its default. */
    function GetModuleMass(defmass: real): real
      reads this
    {
      totalMass - defmass
    }

    /** Whatever the part's default values, default plus modifier is the shell's mass and its price. */
    lemma ModifiersGiveTotals(defcost: real, defmass: real)
      ensures defcost + GetModuleCost(defcost) == totalMass * costPerTonne
      ensures defmass + GetModuleMass(defmass) == totalMass
      ensures GetModuleCost(defcost) + defcost == GetModuleCost(0.0)
    {
    }

    /** updateNodeSize: a connect node, if present, gets the side node size for the base diameter. */
    method UpdateNodeSize()
      modifies this
      ensures connectSize == if old(connectSize).Some? then Some(SideNodeSize(baseRad * 2.0, 1.25)) else None
      ensures ConnectSized(connectSize, old(connectSize), baseRad)
      ensures totalMass == old(totalMass) && mass == old(mass)
      ensures breakingForce == old(breakingForce) && breakingTorque == old(breakingTorque)
      ensures numSideParts == old(numSideParts) && baseRad == old(baseRad)
      ensures sideThickness == old(sideThickness) && density == old(density) && outline == old(outline)
    {
      if connectSize.Some? {
        var s := RoundToInt(baseRad * 2.0 / 1.25) - 1;
        if s < 0 {
          s := 0;
        }
        connectSize := Some(s);
      }
    }

    /**
     * The mass part of rebuildMesh: the area loop, then mass, breaking
     * force and breaking torque.
     */
    method UpdateMass(shape: seq<Vec3>)
      requires numSideParts != 0
      modifies this
      ensures numSideParts == old(numSideParts) && baseRad == old(baseRad)
      ensures sideThickness == old(sideThickness) && density == old(density) && outline == old(outline)
      ensures connectSize == old(connectSize)
      ensures totalMass == ShellMass(Area(shape, |shape|, numSideParts), sideThickness, density)
      ensures mass == totalMass
      ensures breakingForce == Load(mass, specificBreakingForce) && breakingTorque == Load(mass, specificBreakingTorque)
    {
      var area := ComputeArea(shape, numSideParts);
      var volume := area * sideThickness;
      totalMass := volume * density;
      mass := totalMass;
      breakingForce := Load(mass, specificBreakingForce);
      breakingTorque := Load(mass, specificBreakingTorque);
    }

    /** The silhouette step of rebuildMesh: the closed or the inline builder, as inlineHeight selects. */
    method BuildSilhouette() returns (shape: seq<Vec3>)
      requires Buildable(outline)
      ensures shape == Silhouette(baseRad, outline)
    {
      var o := outline;
      var a: array<Vec3>;
      if o.inlineHeight <= 0.0 {
        a := FairingShape.BuildFairingShape(baseRad, o.maxRad, o.cylStart, o.cylEnd, o.noseHeightRatio,
                                            o.baseConeShape, o.noseConeShape, o.baseConeSegments, o.noseConeSegments,
                                            o.vertMapping, o.mappingScaleY);
      } else {
        a := FairingShape.BuildInlineFairingShape(baseRad, o.maxRad, o.topRad, o.cylStart, o.cylEnd, o.inlineHeight,
                                                  o.baseConeShape, o.baseConeSegments, o.vertMapping, o.mappingScaleY);
      }
      shape := a[..];
    }

    /**
     * The rest of rebuildMesh, once the silhouette and the directions are
     * built: the vertex and triangle buffers of the shell, sized by the
     * closed-form counts, and the mass of the side.
     */
    method SweepShell(shape: seq<Vec3>, dirs: seq<Vec3>, inline: bool, normalize: Vec2 -> Vec2, unit: Vec3 -> Vec3)
      returns (verts: array<SideVertices.MeshVertex>, tri: array<int>)
      requires |shape| >= 2 && |dirs| >= 1 && numSideParts != 0
      modifies this
      ensures numSideParts == old(numSideParts) && baseRad == old(baseRad) && outline == old(outline)
      ensures sideThickness == old(sideThickness) && density == old(density)
      ensures connectSize == old(connectSize)
      ensures fresh(verts) && fresh(tri)
      ensures var sw := SideVertices.Sweep(shape, dirs, sideThickness, inline);
        && verts.Length == ShellMesh.Counts(|dirs| - 1, |shape|, inline).totalVerts
        && verts[..] == SideVertices.Finished(SideVertices.VertexBuffer(sw, normalize, unit))
      ensures tri.Length == ShellMesh.Counts(|dirs| - 1, |shape|, inline).totalFaces * 3
      ensures tri[..] == ShellMesh.Triangles(|dirs| - 1, |shape|, inline)
      ensures ShellBuffers(verts[..], tri[..], shape, dirs, sideThickness, inline, normalize, unit)
      ensures totalMass == ShellMass(Area(shape, |shape|, numSideParts), sideThickness, density)
      ensures mass == totalMass
      ensures breakingForce == Load(mass, specificBreakingForce) && breakingTorque == Load(mass, specificBreakingTorque)
    {
      UpdateMass(shape);
      var sw := SideVertices.Sweep(shape, dirs, sideThickness, inline);
      verts := SideVertices.BuildVertices(sw, normalize, unit);
      ghost var vs := verts[..];
      tri := ShellMesh.BuildTriangles(|dirs| - 1, |shape|, inline);
      assert verts[..] == vs;
    }

    /**
     * rebuildMesh: the connect node is resized first; then the silhouette
     * of the side's own shape fields is swept over its numSegs + 1
     * directions into vertex and triangle buffers sized by the closed-form
     * counts, and the mass of the side follows from the silhouette's area.
     */
    method RebuildMesh(normalize: Vec2 -> Vec2, unit: Vec3 -> Vec3, cos: real -> real, sin: real -> real)
      returns (verts: array<SideVertices.MeshVertex>, tri: array<int>)
      requires Buildable(outline) && numSideParts != 0
      modifies this
      ensures numSideParts == old(numSideParts) && baseRad == old(baseRad) && outline == old(outline)
      ensures sideThickness == old(sideThickness) && density == old(density)
      ensures ConnectSized(connectSize, old(connectSize), baseRad)
      ensures fresh(verts) && fresh(tri)
      ensures ShellBuffers(verts[..], tri[..], Silhouette(baseRad, outline),
                           Directions(outline.numSegs, numSideParts, cos, sin),
                           sideThickness, outline.inlineHeight > 0.0, normalize, unit)
      ensures totalMass == ShellMass(Area(Silhouette(baseRad, outline), |Silhouette(baseRad, outline)|, numSideParts),
                                     sideThickness, density)
      ensures mass == totalMass
      ensures breakingForce == Load(mass, specificBreakingForce) && breakingTorque == Load(mass, specificBreakingTorque)
    {
      var shape := BuildSilhouette();
      var dirs := BuildDirections(outline.numSegs, numSideParts, cos, sin);
      var inline := outline.inlineHeight > 0.0;
      UpdateNodeSize();
      verts, tri := SweepShell(shape, dirs, inline, normalize, unit);
    }
  }
}
