// The part resizers of the older copy: a stack part whose mass, strength
// and node sizes follow one diameter, the fairing base that keeps its
// wall inside that diameter, and the thrust plate that keeps its node
// ring inside it.
module Resizers {
  import opened Geometry
  import opened Sizing

  datatype Kind = Plain | FairingBaseResizer | ThrustPlateResizer

  /** Every entry of s set to v. */
  function Filled(s: seq<int>, v: int): (r: seq<int>)
    ensures |r| == |s| && forall i :: 0 <= i < |r| ==> r[i] == v
  {
    seq(|s|, _ => v)
  }

  /** The fairing base resizer's wall: the configured fraction of the size, at most a quarter of it. */
  function ResizerWall(sideThickness: real, size: real): real {
    Min(sideThickness * size, size * 0.25)
  }

  /** It is the adapter's wall rule with equal base and top diameters. */
  lemma ResizerWallIsAdapterWall(sideThickness: real, size: real)
    ensures ResizerWall(sideThickness, size) == WallThickness(sideThickness, size, size)
    ensures ResizerWall(sideThickness, size) <= size * 0.25
  {
  }

  /** The inner diameter a fairing base resizer of the given size builds on: twice (size/2 − wall). */
  function InnerDiameter(sideThickness: real, size: real): real {
    (size * 0.5 - ResizerWall(sideThickness, size)) * 2.0
  }

  /** The inner diameter keeps at least half the size, and all of it less twice the wall. */
  lemma InnerDiameterBounds(sideThickness: real, size: real)
    ensures InnerDiameter(sideThickness, size) >= size * 0.5
    ensures InnerDiameter(sideThickness, size) == size - 2.0 * ResizerWall(sideThickness, size)
  {
  }

  /** The scale a resizer's mass and node rules see: the size itself, or the fairing base's inner diameter. */
  function ResizeScale(kind: Kind, sideThickness: real, size: real): real {
    if kind == FairingBaseResizer then InnerDiameter(sideThickness, size) else size
  }

  class PartResizer {
    const kind: Kind
    const diameterStepLarge: real
    const specificMass: Vec4
    const specificBreakingForce: real
    const specificBreakingTorque: real
    const costPerTonne: real
    /** The fairing base resizer's wall fraction. */
    const sideThickness: real

    var size: real
    var oldSize: real
    var mass: real
    var breakingForce: real
    var breakingTorque: real
    var rescaleFactor: real
    /** Sizes of the top and bottom stack nodes, when present. */
    var topSize: Option<int>
    var bottomSize: Option<int>
    /** Sizes of the connect nodes. */
    var connectSizes: seq<int>
    /** The node tweaker's radius, when the part has one. */
    var tweakerRadius: Option<real>
    /** The fairing base module of the part, when it has one. */
    var base: Option<BaseLink>

    constructor (kind: Kind, diameterStepLarge: real, specificMass: Vec4, specificBreakingForce: real,
                 specificBreakingTorque: real, costPerTonne: real, sideThickness: real, size: real,
                 topSize: Option<int>, bottomSize: Option<int>, connectSizes: seq<int>,
                 tweakerRadius: Option<real>, base: Option<BaseLink>)
      ensures this.kind == kind && this.diameterStepLarge == diameterStepLarge && this.specificMass == specificMass
      ensures this.specificBreakingForce == specificBreakingForce && this.specificBreakingTorque == specificBreakingTorque
      ensures this.costPerTonne == costPerTonne && this.sideThickness == sideThickness && this.size == size
      ensures oldSize == -1000.0
      ensures this.topSize == topSize && this.bottomSize == bottomSize && this.connectSizes == connectSizes
      ensures this.tweakerRadius == tweakerRadius && this.base == base
    {
      this.kind := kind;
      this.diameterStepLarge := diameterStepLarge;
      this.specificMass := specificMass;
      this.specificBreakingForce := specificBreakingForce;
      this.specificBreakingTorque := specificBreakingTorque;
      this.costPerTonne := costPerTonne;
      this.sideThickness := sideThickness;
      this.size := size;
      oldSize := -1000.0;
      mass, breakingForce, breakingTorque, rescaleFactor := 0.0, 0.0, 0.0, 0.0;
      this.topSize := topSize;
      this.bottomSize := bottomSize;
      this.connectSizes := connectSizes;
      this.tweakerRadius := tweakerRadius;
      this.base := base;
    }

    /** GetModuleCost: the part's mass priced per tonne, whatever the default cost. */
    function GetModuleCost(defcost: real): real
      reads this
    {
      mass * costPerTonne
    }

    /**
     * Unlike the side and adapter modules, the resizer does not subtract the
     * default cost: its module cost is the same for every default, so the
     * part's total is the default plus the mass priced per tonne.
     */
    lemma ModuleCostIgnoresDefault(defcost: real, other: real)
      ensures GetModuleCost(defcost) == GetModuleCost(other) == mass * costPerTonne
      ensures defcost + GetModuleCost(defcost) == defcost + mass * costPerTonne
      ensures defcost != 0.0 ==> defcost + GetModuleCost(defcost) != GetModuleCost(0.0)
    {
    }

    /** setNodeSize on a node that may be missing. */
    static function NodeSized(node: Option<int>, scale: real, step: real): (r: Option<int>)
      requires step != 0.0
      ensures r.Some? <==> node.Some?
      ensures r.Some? ==> r.value == StackNodeSize(scale, step)
    {
      if node.Some? then Some(RoundToInt(scale / step)) else None
    }

    /** The connect-node loop: every connect node gets the same size. */
    method SetConnectSizes(s: int)
      modifies this
      ensures connectSizes == Filled(old(connectSizes), s)
      ensures size == old(size) && oldSize == old(oldSize) && mass == old(mass)
      ensures breakingForce == old(breakingForce) && breakingTorque == old(breakingTorque)
      ensures rescaleFactor == old(rescaleFactor) && topSize == old(topSize) && bottomSize == old(bottomSize)
      ensures tweakerRadius == old(tweakerRadius) && base == old(base)
    {
      var i := 0;
      while i < |connectSizes|
        invariant 0 <= i <= |connectSizes| == |old(connectSizes)|
        invariant forall k :: 0 <= k < i ==> connectSizes[k] == s
        invariant size == old(size) && oldSize == old(oldSize) && mass == old(mass)
        invariant breakingForce == old(breakingForce) && breakingTorque == old(breakingTorque)
        invariant rescaleFactor == old(rescaleFactor) && topSize == old(topSize) && bottomSize == old(bottomSize)
        invariant tweakerRadius == old(tweakerRadius) && base == old(base)
      {
        connectSizes := connectSizes[i := s];
        i := i + 1;
      }
    }

    /**
     * resizePart of the generic resizer: records the size, sets the mass
     * polynomial and the strength (both in the given scale), and sizes the
     * top and bottom nodes.
     */
    method ResizeStack(scale: real)
      requires diameterStepLarge != 0.0
      modifies this
      ensures oldSize == size == old(size)
      ensures mass == Horner(specificMass, scale)
      ensures breakingForce == Strength(specificBreakingForce, scale)
      ensures breakingTorque == Strength(specificBreakingTorque, scale)
      ensures rescaleFactor == scale
      ensures topSize == NodeSized(old(topSize), scale, diameterStepLarge)
      ensures bottomSize == NodeSized(old(bottomSize), scale, diameterStepLarge)
      ensures connectSizes == old(connectSizes) && tweakerRadius == old(tweakerRadius) && base == old(base)
    {
      oldSize := size;
      mass := Horner(specificMass, scale);
      breakingForce := Strength(specificBreakingForce, scale);
      breakingTorque := Strength(specificBreakingTorque, scale);
      rescaleFactor := scale;
      if topSize.Some? {
        topSize := Some(RoundToInt(scale / diameterStepLarge));
      }
      if bottomSize.Some? {
        bottomSize := Some(RoundToInt(scale / diameterStepLarge));
      }
    }

    /**
     * The state resizePart leaves, for every kind: mass, strength and
     * rescale factor from the resize scale, the stack nodes sized from it,
     * and the connect nodes, tweaker ring and base link as each kind sets
     * them.  The fairing base resizer reads both stack nodes' heights after
     * the stack is resized; without either node it stops there, leaving
     * the connect nodes, the ring and the base as they were.
     */
    twostate predicate PartResized()
      reads this
      requires diameterStepLarge != 0.0
    {
      var scale := ResizeScale(kind, sideThickness, size);
      && mass == Horner(specificMass, scale)
      && breakingForce == Strength(specificBreakingForce, scale)
      && breakingTorque == Strength(specificBreakingTorque, scale)
      && rescaleFactor == scale
      && topSize == NodeSized(old(topSize), scale, diameterStepLarge)
      && bottomSize == NodeSized(old(bottomSize), scale, diameterStepLarge)
      && (kind == FairingBaseResizer && (old(topSize).None? || old(bottomSize).None?) ==>
            connectSizes == old(connectSizes) && tweakerRadius == old(tweakerRadius) && base == old(base))
      && (kind == FairingBaseResizer && old(topSize).Some? && old(bottomSize).Some? ==>
            && connectSizes == Filled(old(connectSizes), SideNodeSize(scale, diameterStepLarge))
            && tweakerRadius == (if old(tweakerRadius).Some? then Some(size * 0.5) else None)
            && base == (if old(base).Some?
                        then Some(old(base).value.(baseSize := scale, sideThickness := ResizerWall(sideThickness, size),
                                                   needShapeUpdate := true))
                        else None))
      && (kind == ThrustPlateResizer ==>
            && connectSizes == old(connectSizes) && base == old(base)
            && tweakerRadius == (if old(tweakerRadius).Some? then Some(Min(old(tweakerRadius).value, size * 0.5)) else None))
      && (kind == Plain ==>
            connectSizes == old(connectSizes) && base == old(base) && tweakerRadius == old(tweakerRadius))
    }

    /**
     * resizePart of each kind.  The fairing base resizer ignores the scale
     * it is given and works from its inner diameter; it sizes the connect
     * nodes one below the stack size, centres the tweaker's ring on the
     * outer radius and hands the inner diameter and the wall to the base,
     * unless a stack node is missing, where the source fails on reading its
     * height and nothing after the stack is done.  The thrust plate pulls the tweaker's ring inside its radius.
     */
    method ResizePart()
      requires diameterStepLarge != 0.0
      modifies this
      ensures oldSize == size == old(size)
      ensures PartResized()
    {
      match kind
      case Plain =>
        ResizeStack(size);
      case FairingBaseResizer =>
        var sth := Min(sideThickness * size, size * 0.25);
        var br := size * 0.5 - sth;
        var scale := br * 2.0;
        ResizeStack(scale);
        if topSize.None? || bottomSize.None? {
          return;
        }
        var sideNodeSize := RoundToInt(scale / diameterStepLarge) - 1;
        if sideNodeSize < 0 {
          sideNodeSize := 0;
        }
        SetConnectSizes(sideNodeSize);
        if tweakerRadius.Some? {
          tweakerRadius := Some(size * 0.5);
        }
        if base.Some? {
          base := Some(base.value.(baseSize := br * 2.0, sideThickness := sth, needShapeUpdate := true));
        }
      case ThrustPlateResizer =>
        ResizeStack(size);
        if tweakerRadius.Some? {
          var mr := size * 0.5;
          if tweakerRadius.value > mr {
            tweakerRadius := Some(mr);
          }
        }
    }

    /** FixedUpdate: resizes exactly when the size changed since the last resize. */
    method FixedUpdate()
      requires diameterStepLarge != 0.0
      modifies this
      ensures size == old(size) && oldSize == size
      ensures old(size) == old(oldSize) ==>
        && mass == old(mass) && breakingForce == old(breakingForce) && breakingTorque == old(breakingTorque)
        && topSize == old(topSize) && bottomSize == old(bottomSize) && connectSizes == old(connectSizes)
        && tweakerRadius == old(tweakerRadius) && base == old(base) && rescaleFactor == old(rescaleFactor)
      ensures old(size) != old(oldSize) ==> PartResized()
    {
      if size != oldSize {
        ResizePart();
      }
    }

    /** Two updates in a row resize at most once: the second one finds the size recorded. */
    method FixedUpdateTwice()
      requires diameterStepLarge != 0.0
      modifies this
      ensures oldSize == size == old(size)
      ensures old(size) != old(oldSize) ==> mass == Horner(specificMass, ResizeScale(kind, sideThickness, size))
      ensures old(size) == old(oldSize) ==> mass == old(mass) && base == old(base)
    {
      FixedUpdate();
      ghost var m, b := mass, base;
      FixedUpdate();
      assert mass == m && base == b;
    }

    /**
     * updateNodeSize (on start and load): the stack nodes, and for the
     * fairing base resizer the connect nodes, sized from the resize scale.
     */
    method UpdateNodeSize()
      requires diameterStepLarge != 0.0
      modifies this
      ensures topSize == NodeSized(old(topSize), ResizeScale(kind, sideThickness, size), diameterStepLarge)
      ensures bottomSize == NodeSized(old(bottomSize), ResizeScale(kind, sideThickness, size), diameterStepLarge)
      ensures kind == FairingBaseResizer ==> connectSizes == Filled(old(connectSizes), SideNodeSize(ResizeScale(kind, sideThickness, size), diameterStepLarge))
      ensures kind != FairingBaseResizer ==> connectSizes == old(connectSizes)
      ensures size == old(size) && oldSize == old(oldSize) && mass == old(mass)
      ensures tweakerRadius == old(tweakerRadius) && base == old(base)
      ensures breakingForce == old(breakingForce) && breakingTorque == old(breakingTorque)
      ensures rescaleFactor == old(rescaleFactor)
    {
      var scale := size;
      if kind == FairingBaseResizer {
        var sth := Min(sideThickness * size, size * 0.25);
        var br := size * 0.5 - sth;
        scale := br * 2.0;
      }
      if topSize.Some? {
        topSize := Some(RoundToInt(scale / diameterStepLarge));
      }
      if bottomSize.Some? {
        bottomSize := Some(RoundToInt(scale / diameterStepLarge));
      }
      if kind == FairingBaseResizer {
        var sideNodeSize := RoundToInt(scale / diameterStepLarge) - 1;
        if sideNodeSize < 0 {
          sideNodeSize := 0;
        }
        SetConnectSizes(sideNodeSize);
      }
    }
  }

  /** The thrust plate's clamp keeps the ring inside the plate and leaves a ring already inside alone. */
  lemma ThrustPlateClamp(r: real, size: real)
    ensures Min(r, size * 0.5) <= size * 0.5
    ensures r <= size * 0.5 ==> Min(r, size * 0.5) == r
  {
  }
}
