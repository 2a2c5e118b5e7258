// The last step of the fairing base's shape recalculation: pushing the new
// shape parameters into every attached side part and rebuilding the side's
// mesh unless the side already holds them.  The current code and the older
// copy differ in which fields they compare and copy.
module SideRefresh {
  import opened Geometry

  /** C# integer division: the quotient truncated toward zero. */
  function CsDiv(a: int, b: int): int
    requires b != 0
  {
    var q := Abs(a) / Abs(b);
    if (a < 0) == (b < 0) then q else -q
  }

  function Abs(a: int): nat {
    if a < 0 then -a else a
  }

  /** The remainder of C# division is smaller than the divisor and never has the opposite sign of a. */
  lemma CsDivRemainder(a: int, b: int)
    requires b != 0
    ensures var r := a - CsDiv(a, b) * b;
      && Abs(r) < Abs(b)
      && (r == 0 || (r < 0) == (a < 0))
  {
    var q := Abs(a) / Abs(b);
    var m := Abs(a) % Abs(b);
    assert Abs(a) == q * Abs(b) + m;
    var s := if (a < 0) == (b < 0) then 1 else -1;
    assert CsDiv(a, b) == s * q;
    var sa := if a < 0 then -1 else 1;
    var sb := if b < 0 then -1 else 1;
    assert a == sa * Abs(a) && b == sb * Abs(b) && s == sa * sb;
    calc {
      a - CsDiv(a, b) * b;
      sa * Abs(a) - (s * q) * (sb * Abs(b));
      sa * (q * Abs(b) + m) - (sa * sb * q) * (sb * Abs(b));
      { assert sb * sb == 1; }
      sa * m;
    }
  }

  /** Segments per side: the circle's segments shared among the side parts, at least 2. */
  function NumSegs(circleSegments: int, numSideParts: int): (n: int)
    requires numSideParts != 0
    ensures n >= 2
    ensures n == MaxInt(2, CsDiv(circleSegments, numSideParts))
  {
    var n := CsDiv(circleSegments, numSideParts);
    if n < 2 then 2 else n
  }

  /** The fields of a side that both versions compare and copy. */
  datatype SideGeometry = SideGeometry(
    meshPos: Vec3, meshRot: Vec4,
    numSegs: int, numSideParts: int,
    baseRad: real, maxRad: real, cylStart: real, cylEnd: real,
    topRad: real, inlineHeight: real, sideThickness: real)

  /** The curve and density fields that only the current code compares and copies. */
  datatype SideCurves = SideCurves(
    baseCurveStartX: real, baseCurveStartY: real, baseCurveEndX: real, baseCurveEndY: real,
    baseConeSegments: real,
    noseCurveStartX: real, noseCurveStartY: real, noseCurveEndX: real, noseCurveEndY: real,
    noseConeSegments: real, noseHeightRatio: real, density: real)

  /** Every one of the twelve curve fields differs from its new value. */
  predicate AllCurvesDiffer(a: SideCurves, b: SideCurves) {
    && a.baseCurveStartX != b.baseCurveStartX
    && a.baseCurveStartY != b.baseCurveStartY
    && a.baseCurveEndX != b.baseCurveEndX
    && a.baseCurveEndY != b.baseCurveEndY
    && a.baseConeSegments != b.baseConeSegments
    && a.noseCurveStartX != b.noseCurveStartX
    && a.noseCurveStartY != b.noseCurveStartY
    && a.noseCurveEndX != b.noseCurveEndX
    && a.noseCurveEndY != b.noseCurveEndY
    && a.noseConeSegments != b.noseConeSegments
    && a.noseHeightRatio != b.noseHeightRatio
    && a.density != b.density
  }

  /**
   * The current skip test as written: the geometry is unchanged and every
   * curve comparison is negated, so it holds only when all curve fields differ.
   */
  predicate CurrentSkips(g: SideGeometry, c: SideCurves, g': SideGeometry, c': SideCurves) {
    g == g' && AllCurvesDiffer(c, c')
  }

  /** The older copy's skip test: the geometry is unchanged. */
  predicate LegacySkips(g: SideGeometry, g': SideGeometry) {
    g == g'
  }

  /** A side's refresh state: its stored fields and how many times its mesh was rebuilt. */
  datatype SideState = SideState(geometry: SideGeometry, curves: SideCurves, meshBuilds: nat)

  /**
   * What one pass of the refresh loop does to a side: nothing when it is
   * locked, has no model or passes the skip test; otherwise it takes the new
   * fields (the older copy leaves the curves alone) and rebuilds its mesh.
   */
  function Refreshed(s: SideState, shapeLock: bool, hasModel: bool, g: SideGeometry, c: SideCurves, legacy: bool): (r: SideState)
    ensures r.meshBuilds == s.meshBuilds || r.meshBuilds == s.meshBuilds + 1
    ensures r.meshBuilds == s.meshBuilds + 1 ==> r.geometry == g && (legacy ==> r.curves == s.curves) && (!legacy ==> r.curves == c)
    ensures r.meshBuilds == s.meshBuilds ==> r == s
  {
    if shapeLock || !hasModel then s
    else if legacy then
      (if LegacySkips(s.geometry, g) then s else SideState(g, s.curves, s.meshBuilds + 1))
    else if CurrentSkips(s.geometry, s.curves, g, c) then s
    else SideState(g, c, s.meshBuilds + 1)
  }

  /** An unlocked side with a model always holds the new geometry after the older copy's pass. */
  lemma LegacyRefreshApplies(s: SideState, g: SideGeometry, c: SideCurves)
    ensures Refreshed(s, false, true, g, c, true).geometry == g
    ensures Refreshed(s, false, true, g, c, true).curves == s.curves
    ensures Refreshed(s, false, true, g, c, true).meshBuilds == if s.geometry == g then s.meshBuilds else s.meshBuilds + 1
  {
  }

  /** The older copy's pass is idempotent: a second pass with the same values rebuilds nothing. */
  lemma LegacyRefreshIdempotent(s: SideState, shapeLock: bool, hasModel: bool, g: SideGeometry, c: SideCurves)
    ensures var once := Refreshed(s, shapeLock, hasModel, g, c, true);
      Refreshed(once, shapeLock, hasModel, g, c, true) == once
  {
  }

  /** With the negated comparisons the current code rebuilds a side that already holds every new value. */
  lemma CurrentRebuildsUnchangedSide(s: SideState)
    ensures Refreshed(s, false, true, s.geometry, s.curves, false) == s.(meshBuilds := s.meshBuilds + 1)
  {
  }

  /**
   * And it skips a side whose geometry is unchanged while every curve field
   * changed, so those new curve values never reach the side.
   */
  lemma CurrentMissesCurveChange(s: SideState, c: SideCurves)
    requires AllCurvesDiffer(s.curves, c)
    ensures Refreshed(s, false, true, s.geometry, c, false) == s
    ensures Refreshed(s, false, true, s.geometry, c, false).curves != c
  {
  }

  /** A second pass of the current code after one that rebuilt rebuilds again. */
  lemma CurrentRebuildsAgain(s: SideState, g: SideGeometry, c: SideCurves)
    requires !CurrentSkips(s.geometry, s.curves, g, c)
    ensures var once := Refreshed(s, false, true, g, c, false);
      Refreshed(once, false, true, g, c, false).meshBuilds == s.meshBuilds + 2
  {
  }

  /** A side part's module: the lock flag and the fields the base writes into it. */
  class SidePart {
    var shapeLock: bool
    var geometry: SideGeometry
    var curves: SideCurves
    var meshBuilds: nat

    function State(): SideState
      reads this
    {
      SideState(geometry, curves, meshBuilds)
    }

    constructor (shapeLock: bool, geometry: SideGeometry, curves: SideCurves)
      ensures this.shapeLock == shapeLock && State() == SideState(geometry, curves, 0)
    {
      this.shapeLock := shapeLock;
      this.geometry := geometry;
      this.curves := curves;
      meshBuilds := 0;
    }

    /** One pass of the refresh loop body for this side (the lock and model checks included). */
    method Refresh(hasModel: bool, g: SideGeometry, c: SideCurves, legacy: bool)
      modifies this
      ensures shapeLock == old(shapeLock)
      ensures State() == Refreshed(old(State()), shapeLock, hasModel, g, c, legacy)
    {
      if shapeLock || !hasModel {
        return;
      }
      if legacy {
        if geometry == g {
          return;
        }
        geometry := g;
      } else {
        if geometry == g && AllCurvesDiffer(curves, c) {
          return;
        }
        geometry := g;
        curves := c;
      }
      meshBuilds := meshBuilds + 1;
    }
  }

  /**
   * A connect node of the base, as the refresh loop sees it: the side module
   * of the attached part if any, whether that part has its mesh filter, and
   * the mesh transform the base computes for it from the node position.
   */
  datatype Slot = Slot(side: Option<SidePart>, hasModel: bool, meshPos: Vec3, meshRot: Vec4)

  /** The shape values the base pushes into every side. */
  datatype ShapeValues = ShapeValues(
    baseRad: real, maxRad: real, cylStart: real, cylEnd: real,
    topRad: real, topY: real, sideThickness: real)

  /** The geometry a side at the given slot receives. */
  function SlotGeometry(slot: Slot, numSegs: int, numSideParts: int, v: ShapeValues): SideGeometry {
    SideGeometry(slot.meshPos, slot.meshRot, numSegs, numSideParts,
                 v.baseRad, v.maxRad, v.cylStart, v.cylEnd, v.topRad, v.topY, v.sideThickness)
  }

  /** No side module sits at two nodes. */
  predicate DistinctSides(slots: seq<Slot>) {
    forall i, j :: 0 <= i < j < |slots| && slots[i].side.Some? && slots[j].side.Some? ==>
      slots[i].side.value != slots[j].side.value
  }

  function Sides(slots: seq<Slot>): set<SidePart> {
    set i | 0 <= i < |slots| && slots[i].side.Some? :: slots[i].side.value
  }

  /**
   * The number of side parts the segments are shared among: the node
   * tweaker's node count in the current code, the number of connect nodes
   * in the older copy.
   */
  function SidePartCount(slots: seq<Slot>, tweakerNodes: int, legacy: bool): int
  {
    if legacy then |slots| else tweakerNodes
  }

  /**
   * The side-rebuild loop of recalcShape.  The division by the side part
   * count needs it non-zero.  Every side ends in the state one refresh
   * pass gives it, and nothing else changes.
   */
  method RefreshSides(slots: seq<Slot>, circleSegments: int, tweakerNodes: int, v: ShapeValues, c: SideCurves, legacy: bool)
    returns (numSegs: int)
    requires SidePartCount(slots, tweakerNodes, legacy) != 0
    requires DistinctSides(slots)
    modifies Sides(slots)
    ensures numSegs == NumSegs(circleSegments, SidePartCount(slots, tweakerNodes, legacy)) && numSegs >= 2
    ensures forall i :: 0 <= i < |slots| && slots[i].side.Some? ==>
      var sf := slots[i].side.value;
      && sf.shapeLock == old(sf.shapeLock)
      && sf.State() == Refreshed(old(sf.State()), sf.shapeLock, slots[i].hasModel,
                                 SlotGeometry(slots[i], numSegs, SidePartCount(slots, tweakerNodes, legacy), v), c, legacy)
  {
    var numSideParts := if legacy then |slots| else tweakerNodes;
    numSegs := CsDiv(circleSegments, numSideParts);
    if numSegs < 2 {
      numSegs := 2;
    }
    for i := 0 to |slots|
      invariant forall k :: 0 <= k < i && slots[k].side.Some? ==>
        var sf := slots[k].side.value;
        && sf.shapeLock == old(sf.shapeLock)
        && sf.State() == Refreshed(old(sf.State()), sf.shapeLock, slots[k].hasModel,
                                   SlotGeometry(slots[k], numSegs, numSideParts, v), c, legacy)
      invariant forall k :: i <= k < |slots| && slots[k].side.Some? ==>
        var sf := slots[k].side.value;
        sf.shapeLock == old(sf.shapeLock) && sf.State() == old(sf.State())
    {
      match slots[i].side
      case None =>
      case Some(sf) =>
        sf.Refresh(slots[i].hasModel, SlotGeometry(slots[i], numSegs, numSideParts, v), c, legacy);
    }
  }
}
