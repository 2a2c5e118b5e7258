// The procedural fairing adapter: change detection on its tweakables,
// the shape update that sizes its nodes and sets its mass and strength,
// the interstage node spacing, the fairing-present test and the
// conversion of radii saved by old versions.
module ProcAdapter {
  import opened Geometry
  import opened Sizing

  /** A connect node: its size and whether a part is attached to it. */
  datatype ConnectNode = ConnectNode(size: int, attached: bool)

  /** The connect nodes with every size set to s, attachments kept. */
  function Resized(nodes: seq<ConnectNode>, s: int): (r: seq<ConnectNode>)
    ensures |r| == |nodes|
    ensures forall i :: 0 <= i < |r| ==> r[i].size == s && r[i].attached == nodes[i].attached
  {
    seq(|nodes|, i requires 0 <= i < |nodes| => nodes[i].(size := s))
  }

  /** Some connect node has a part attached. */
  predicate AnyAttached(nodes: seq<ConnectNode>) {
    exists i :: 0 <= i < |nodes| && nodes[i].attached
  }

  /**
   * The legacy load conversion: radii saved inside the wall become outer
   * diameters, the wall being the old thickness fraction of the base radius.
   */
  function LegacyBaseSize(br: real, sideThickness: real): real {
    (br + sideThickness * br) * 2.0
  }

  function LegacyTopSize(br: real, tr: real, sideThickness: real): real {
    (tr + sideThickness * br) * 2.0
  }

  /** Taking the old wall off the converted sizes gives back the saved radii. */
  lemma LegacyConversionRecoversRadii(br: real, tr: real, sideThickness: real)
    ensures LegacyBaseSize(br, sideThickness) * 0.5 - sideThickness * br == br
    ensures LegacyTopSize(br, tr, sideThickness) * 0.5 - sideThickness * br == tr
    ensures LegacyTopSize(br, tr, sideThickness) - LegacyBaseSize(br, sideThickness) == (tr - br) * 2.0
  {
  }

  /**
   * The fairing base after the adapter hands it the inner diameter and the
   * wall: the current copy raises needShapeUpdate, the older one instead
   * zeroes updateDelay.
   */
  function Linked(b: BaseLink, diameter: real, wall: real, legacy: bool): BaseLink {
    if legacy then b.(baseSize := diameter, sideThickness := wall, updateDelay := 0.0)
    else b.(baseSize := diameter, sideThickness := wall, needShapeUpdate := true)
  }

  /** The adapter's fields that its update methods read and write. */
  class Adapter {
    /** The older copy: no cost modifier, and loading does not request a shape update. */
    const legacy: bool
    const diameterStepLarge: real
    const specificMass: Vec4
    const specificBreakingForce: real
    const specificBreakingTorque: real
    const costPerTonne: real

    var sideThickness: real
    var baseSize: real
    var topSize: real
    var height: real
    var extraHeight: real
    var lastBaseSize: real
    var lastTopSize: real
    var lastHeight: real
    var lastExtraHt: real
    var changed: bool

    var totalMass: real
    var breakingForce: real
    var breakingTorque: real
    var rescaleFactor: real
    /** Sizes of the bottom, top and top-stack nodes, when present; the top-stack node's height. */
    var bottomNodeSize: Option<int>
    var topNodeSize: Option<int>
    var topStackSize: Option<int>
    var topStackHeight: Option<real>
    var connect: seq<ConnectNode>
    var isFairingPresent: bool
    /** The node tweaker's radius and the fairing base link, when the part has those modules. */
    var tweakerRadius: Option<real>
    var base: Option<BaseLink>
    /** The height of the "top" node, and the height it has in the part's configuration. */
    var topNodeY: real
    const topNodeOrigY: real
    /** The heights and sizes of the interstage nodes (current copy). */
    const interHeights: array<real>
    const interSizes: array<int>

    constructor (legacy: bool, diameterStepLarge: real, specificMass: Vec4, specificBreakingForce: real,
                 specificBreakingTorque: real, costPerTonne: real, sideThickness: real,
                 bottomNodeSize: Option<int>, topNodeSize: Option<int>, topStackSize: Option<int>,
                 connect: seq<ConnectNode>, tweakerRadius: Option<real>, base: Option<BaseLink>,
                 topNodeOrigY: real, interHeights: array<real>, interSizes: array<int>)
      ensures this.topNodeOrigY == topNodeOrigY && topNodeY == topNodeOrigY
      ensures this.interHeights == interHeights && this.interSizes == interSizes
      ensures this.legacy == legacy && this.diameterStepLarge == diameterStepLarge && this.specificMass == specificMass
      ensures this.specificBreakingForce == specificBreakingForce && this.specificBreakingTorque == specificBreakingTorque
      ensures this.costPerTonne == costPerTonne && this.sideThickness == sideThickness
      ensures baseSize == 1.25 && topSize == 1.25 && height == 1.0 && extraHeight == 0.0
      ensures lastBaseSize == -1000.0 && lastTopSize == -1000.0 && lastHeight == -1000.0 && lastExtraHt == -1000.0
      ensures changed && isFairingPresent
      ensures this.bottomNodeSize == bottomNodeSize && this.topNodeSize == topNodeSize
      ensures this.topStackSize == topStackSize && topStackHeight == None
      ensures this.connect == connect && this.tweakerRadius == tweakerRadius && this.base == base
    {
      this.legacy := legacy;
      this.diameterStepLarge := diameterStepLarge;
      this.specificMass := specificMass;
      this.specificBreakingForce := specificBreakingForce;
      this.specificBreakingTorque := specificBreakingTorque;
      this.costPerTonne := costPerTonne;
      this.sideThickness := sideThickness;
      baseSize, topSize, height, extraHeight := 1.25, 1.25, 1.0, 0.0;
      lastBaseSize, lastTopSize, lastHeight, lastExtraHt := -1000.0, -1000.0, -1000.0, -1000.0;
      changed := true;
      totalMass, breakingForce, breakingTorque, rescaleFactor := 0.0, 0.0, 0.0, 0.0;
      this.bottomNodeSize := bottomNodeSize;
      this.topNodeSize := topNodeSize;
      this.topStackSize := topStackSize;
      topStackHeight := None;
      this.connect := connect;
      isFairingPresent := true;
      this.tweakerRadius := tweakerRadius;
      this.base := base;
      this.topNodeOrigY := topNodeOrigY;
      topNodeY := topNodeOrigY;
      this.interHeights := interHeights;
      this.interSizes := interSizes;
    }

    /** Every interstage node has a height and a size. */
    predicate Paired() {
      interHeights.Length == interSizes.Length
    }

    /** calcSideThickness: the wall rule for the adapter's two diameters. */
    function CalcSideThickness(): real
      reads this`sideThickness, this`baseSize, this`topSize
    {
      WallThickness(sideThickness, baseSize, topSize)
    }

    /** The radius inside the wall at the top. */
    function TopRadius(): real
      reads this`sideThickness, this`baseSize, this`topSize
    {
      topSize * 0.5 - CalcSideThickness()
    }

    /** The top radius keeps at least a quarter of the top diameter when the top is the narrower end, and half less the wall otherwise. */
    lemma TopRadiusBounds()
      ensures topSize <= baseSize ==> TopRadius() >= topSize * 0.25
      ensures TopRadius() + CalcSideThickness() == topSize * 0.5
    {
      InnerRadiusBound(sideThickness, baseSize, topSize);
    }

    /** The radius inside the wall at the base; twice it is the scale of the model. */
    function BaseRadius(): real
      reads this`sideThickness, this`baseSize, this`topSize
    {
      baseSize * 0.5 - CalcSideThickness()
    }

    /** GetModuleCost and GetModuleMass of the current copy: the adapter's mass and price above the defaults. */
    function GetModuleCost(defcost: real): real
      reads this`totalMass
    {
      totalMass * costPerTonne - defcost
    }

    function GetModuleMass(defmass: real): real
      reads this`totalMass
    {
      totalMass - defmass
    }

    /** Default plus modifier is the adapter's own mass and its price. */
    lemma ModifiersGiveTotals(defcost: real, defmass: real)
      ensures defcost + GetModuleCost(defcost) == totalMass * costPerTonne
      ensures defmass + GetModuleMass(defmass) == totalMass
    {
    }

    /**
     * checkTweakables: each of the four tracked values that differs from
     * its recorded copy is recorded and sets changed; changed is never
     * cleared here.
     */
    method CheckTweakables()
      modifies this`lastBaseSize, this`lastTopSize, this`lastHeight, this`lastExtraHt, this`changed
      ensures lastBaseSize == baseSize && lastTopSize == topSize && lastHeight == height && lastExtraHt == extraHeight
      ensures changed == (old(changed) || old(lastBaseSize) != baseSize || old(lastTopSize) != topSize
                          || old(lastHeight) != height || old(lastExtraHt) != extraHeight)
    {
      if baseSize != lastBaseSize {
        lastBaseSize := baseSize;
        changed := true;
      }
      if topSize != lastTopSize {
        lastTopSize := topSize;
        changed := true;
      }
      if height != lastHeight {
        lastHeight := height;
        changed := true;
      }
      if extraHeight != lastExtraHt {
        lastExtraHt := extraHeight;
        changed := true;
      }
    }

    /** The connect-node loop of updateShape: every connect node gets size s. */
    method SetConnectSizes(s: int)
      modifies this`connect
      ensures connect == Resized(old(connect), s)
    {
      var i := 0;
      while i < |connect|
        invariant 0 <= i <= |connect| == |old(connect)|
        invariant forall k :: 0 <= k < i ==> connect[k] == old(connect)[k].(size := s)
        invariant forall k :: i <= k < |connect| ==> connect[k] == old(connect)[k]
      {
        connect := connect[i := connect[i].(size := s)];
        i := i + 1;
      }
    }

    /**
     * updateShape of the base class: clears changed, sizes the bottom and
     * top nodes from the base diameter and the top-stack node from the top
     * diameter, and lifts that node to the height.
     */
    method UpdateStackNodes()
      requires diameterStepLarge != 0.0
      modifies this`changed, this`bottomNodeSize, this`topNodeSize, this`topStackSize, this`topStackHeight
      ensures !changed
      ensures bottomNodeSize == (if old(bottomNodeSize).Some? then Some(StackNodeSize(baseSize, diameterStepLarge)) else None)
      ensures topNodeSize == (if old(topNodeSize).Some? then Some(StackNodeSize(baseSize, diameterStepLarge)) else None)
      ensures topStackSize == (if old(topStackSize).Some? then Some(StackNodeSize(topSize, diameterStepLarge)) else None)
      ensures topStackHeight == (if old(topStackSize).Some? then Some(height) else old(topStackHeight))
      ensures Out() == StackStep(In(), old(Out()))
    {
      changed := false;
      if bottomNodeSize.Some? {
        bottomNodeSize := Some(RoundToInt(baseSize / diameterStepLarge));
      }
      if topNodeSize.Some? {
        topNodeSize := Some(RoundToInt(baseSize / diameterStepLarge));
      }
      if topStackSize.Some? {
        topStackHeight := Some(height);
        topStackSize := Some(RoundToInt(topSize / diameterStepLarge));
      }
    }

    /**
     * The mass polynomial in the inner base diameter and the strength in the
     * inner base radius; the current copy also rescales the part to the
     * inner base diameter.
     */
    method UpdateMass()
      modifies this`totalMass, this`breakingForce, this`breakingTorque, this`rescaleFactor
      ensures totalMass == Horner(specificMass, BaseRadius() * 2.0)
      ensures breakingForce == Strength(specificBreakingForce, BaseRadius())
      ensures breakingTorque == Strength(specificBreakingTorque, BaseRadius())
      ensures rescaleFactor == if legacy then old(rescaleFactor) else BaseRadius() * 2.0
      ensures Out() == MassStep(In(), old(Out()))
    {
      var br := baseSize * 0.5 - CalcSideThickness();
      var scale := br * 2.0;
      totalMass := Horner(specificMass, scale);
      breakingForce := Strength(specificBreakingForce, br);
      breakingTorque := Strength(specificBreakingTorque, br);
      if !legacy {
        rescaleFactor := scale;
      }
    }

    /** The values that stay fixed while the shape is updated. */
    function In(): Inputs
      reads this`sideThickness, this`baseSize, this`topSize, this`height
    {
      Inputs(legacy, diameterStepLarge, specificMass, specificBreakingForce, specificBreakingTorque,
             sideThickness, baseSize, topSize, height, topNodeOrigY)
    }

    /** The values the shape update writes. */
    function Out(): Outputs
      reads this`bottomNodeSize, this`topNodeSize, this`topStackSize, this`topStackHeight
      reads this`totalMass, this`breakingForce, this`breakingTorque, this`rescaleFactor
      reads this`topNodeY, this`connect, this`tweakerRadius, this`base, interHeights, interSizes
    {
      Outputs(bottomNodeSize, topNodeSize, topStackSize, topStackHeight, totalMass, breakingForce,
              breakingTorque, rescaleFactor, topNodeY, connect, tweakerRadius, base,
              interHeights[..], interSizes[..])
    }

    /** The lower end of the base class's interstage spacing: the "top" node's height, or 0 without one. */
    function BaseInterLow(): real
      reads this`topNodeSize, this`topNodeY
    {
      if topNodeSize.Some? then topNodeY else 0.0
    }

    /** The upper end of the base class's interstage spacing: the height when the top-stack node exists, or 0. */
    function BaseInterHigh(): real
      reads this`topStackSize, this`height
    {
      if topStackSize.Some? then height else 0.0
    }

    /**
     * The interstage loop of the base class's updateShape: both nodes of a
     * pair get one below the top diameter's node size; ok is false when the
     * last node has no partner, where the loop throws.
     */
    method BaseInterstage() returns (ok: bool)
      requires Paired() && diameterStepLarge != 0.0
      modifies interHeights, interSizes
      ensures ok <==> interHeights.Length % 2 == 0
      ensures Interstage(interHeights[..], interSizes[..], BaseInterLow(), BaseInterHigh(),
                         StackNodeSize(topSize, diameterStepLarge) - 1, StackNodeSize(topSize, diameterStepLarge) - 1)
      ensures Out() == BaseInterStep(In(), old(Out()))
    {
      var s := RoundToInt(topSize / diameterStepLarge) - 1;
      ok := PlaceInterstage(interHeights, interSizes, BaseInterLow(), BaseInterHigh(), s, s);
      InterstageSeqs(interHeights[..], interSizes[..], BaseInterLow(), BaseInterHigh(), s, s);
    }

    /** The "top" node moves to its configured height scaled by the inner base diameter. */
    method PlaceTopNode()
      modifies this`topNodeY
      ensures topNodeY == topNodeOrigY * (BaseRadius() * 2.0)
      ensures Out() == TopStep(In(), old(Out()))
    {
      var scale := (baseSize * 0.5 - CalcSideThickness()) * 2.0;
      topNodeY := topNodeOrigY * scale;
    }

    /** The connect nodes are sized one below the inner base diameter's node size, but not below 0. */
    method UpdateConnect()
      requires diameterStepLarge != 0.0
      modifies this`connect
      ensures connect == Resized(old(connect), SideNodeSize(BaseRadius() * 2.0, diameterStepLarge))
      ensures Out() == ConnectStep(In(), old(Out()))
    {
      var scale := (baseSize * 0.5 - CalcSideThickness()) * 2.0;
      var sideNodeSize := RoundToInt(scale / diameterStepLarge) - 1;
      if sideNodeSize < 0 {
        sideNodeSize := 0;
      }
      SetConnectSizes(sideNodeSize);
    }

    /**
     * The interstage loop of the adapter's updateShape: pairs spaced from
     * the "top" node up to the height of the top-stack node, the first of a
     * pair sized like the "top" node, the second like a connect node.
     */
    method AdapterInterstage() returns (ok: bool)
      requires Paired() && diameterStepLarge != 0.0 && topNodeSize.Some?
      modifies interHeights, interSizes
      ensures ok <==> interHeights.Length % 2 == 0
      ensures Interstage(interHeights[..], interSizes[..], topNodeY, height,
                         topNodeSize.value, SideNodeSize(BaseRadius() * 2.0, diameterStepLarge))
      ensures Out() == AdapterInterStep(In(), old(Out()))
    {
      var scale := (baseSize * 0.5 - CalcSideThickness()) * 2.0;
      var sideNodeSize := RoundToInt(scale / diameterStepLarge) - 1;
      if sideNodeSize < 0 {
        sideNodeSize := 0;
      }
      ok := PlaceInterstage(interHeights, interSizes, topNodeY, height, topNodeSize.value, sideNodeSize);
      InterstageSeqs(interHeights[..], interSizes[..], topNodeY, height, topNodeSize.value, sideNodeSize);
    }

    /** The node tweaker's radius becomes the outer base radius, and the inner diameter and wall go to the fairing base. */
    method UpdateLinks()
      modifies this`tweakerRadius, this`base
      ensures tweakerRadius == (if old(tweakerRadius).Some? then Some(baseSize * 0.5) else None)
      ensures base == (if old(base).Some? then Some(Linked(old(base).value, BaseRadius() * 2.0, CalcSideThickness(), legacy)) else None)
      ensures Out() == LinkStep(In(), old(Out()))
    {
      var sth := CalcSideThickness();
      var br := baseSize * 0.5 - sth;
      if tweakerRadius.Some? {
        tweakerRadius := Some(baseSize * 0.5);
      }
      if base.Some? {
        base := Some(Linked(base.value, br * 2.0, sth, legacy));
      }
    }

    /**
     * updateShape of the adapter: the base class's node update with its
     * interstage loop (current copy), the mass and strength, the "top"
     * node's height, the connect nodes, the adapter's interstage loop
     * (current copy, when the top-stack node exists), the node tweaker and
     * the fairing base, stopping where the source throws.
     */
    method UpdateShape()
      requires Paired() && diameterStepLarge != 0.0
      modifies this`changed, this`bottomNodeSize, this`topNodeSize, this`topStackSize, this`topStackHeight
      modifies this`totalMass, this`breakingForce, this`breakingTorque, this`rescaleFactor
      modifies this`topNodeY, this`connect, this`tweakerRadius, this`base, interHeights, interSizes
      ensures !changed
      ensures Out() == ShapeUpdate(In(), old(Out()))
    {
      UpdateStackNodes();
      if !legacy {
        var ok := BaseInterstage();
        if !ok {
          return;
        }
      }
      RunFromMass();
    }

    /** The part of updateShape from the mass on. */
    method RunFromMass()
      requires Paired() && diameterStepLarge != 0.0
      modifies this`totalMass, this`breakingForce, this`breakingTorque, this`rescaleFactor
      modifies this`topNodeY, this`connect, this`tweakerRadius, this`base, interHeights, interSizes
      ensures Out() == FromMass(In(), old(Out()))
    {
      UpdateMass();
      if topNodeSize.Some? {
        RunFromTopNode();
      }
    }

    /** The part of updateShape from the "top" node on. */
    method RunFromTopNode()
      requires Paired() && diameterStepLarge != 0.0 && topNodeSize.Some?
      modifies this`topNodeY, this`connect, this`tweakerRadius, this`base, interHeights, interSizes
      ensures Out() == FromTopNode(In(), old(Out()))
    {
      PlaceTopNode();
      if bottomNodeSize.Some? {
        RunFromConnect();
      }
    }

    /** The part of updateShape from the connect nodes to the end. */
    method RunFromConnect()
      requires Paired() && diameterStepLarge != 0.0 && topNodeSize.Some?
      modifies this`connect, this`tweakerRadius, this`base, interHeights, interSizes
      ensures Out() == FromConnect(In(), old(Out()))
    {
      UpdateConnect();
      if !legacy && topStackSize.Some? {
        var ok := AdapterInterstage();
      }
      UpdateLinks();
    }

    /**
     * FixedUpdate: the tweakables are checked, and the shape is updated
     * exactly when something changed, so afterwards nothing is pending.
     */
    method FixedUpdate()
      requires Paired() && diameterStepLarge != 0.0
      modifies this`lastBaseSize, this`lastTopSize, this`lastHeight, this`lastExtraHt, this`changed
      modifies this`bottomNodeSize, this`topNodeSize, this`topStackSize, this`topStackHeight
      modifies this`totalMass, this`breakingForce, this`breakingTorque, this`rescaleFactor
      modifies this`topNodeY, this`connect, this`tweakerRadius, this`base, interHeights, interSizes
      ensures lastBaseSize == baseSize && lastTopSize == topSize && lastHeight == height && lastExtraHt == extraHeight
      ensures !changed
      ensures Out() == if old(changed) || old(lastBaseSize) != baseSize || old(lastTopSize) != topSize
                          || old(lastHeight) != height || old(lastExtraHt) != extraHeight
                       then ShapeUpdate(In(), old(Out())) else old(Out())
    {
      ghost var before := Out();
      CheckTweakables();
      assert Out() == before;
      if changed {
        UpdateShape();
      }
    }

    /**
     * CheckForFairingPresent: false once the fairing is known gone,
     * otherwise whether some connect node still holds a part.
     */
    method CheckForFairingPresent() returns (r: bool)
      ensures r <==> isFairingPresent && AnyAttached(connect)
    {
      if !isFairingPresent {
        return false;
      }
      var i := 0;
      while i < |connect|
        invariant 0 <= i <= |connect|
        invariant forall k :: 0 <= k < i ==> !connect[k].attached
      {
        if connect[i].attached {
          return true;
        }
        i := i + 1;
      }
      return false;
    }

    /**
     * The radius conversion of OnLoad: when both old radii were saved, the
     * diameters are rebuilt from them and the wall fraction rescaled by
     * 1.15/1.25.  The current copy also requests a shape update on load.
     */
    method LoadLegacyRadii(baseRadius: Option<real>, topRadius: Option<real>)
      modifies this`changed, this`baseSize, this`topSize, this`sideThickness
      ensures baseRadius.Some? && topRadius.Some? ==>
        && baseSize == LegacyBaseSize(baseRadius.value, old(sideThickness))
        && topSize == LegacyTopSize(baseRadius.value, topRadius.value, old(sideThickness))
        && sideThickness == old(sideThickness) * (1.15 / 1.25)
      ensures !(baseRadius.Some? && topRadius.Some?) ==>
        baseSize == old(baseSize) && topSize == old(topSize) && sideThickness == old(sideThickness)
      ensures changed == (old(changed) || !legacy)
    {
      if !legacy {
        changed := true;
      }
      if baseRadius.Some? && topRadius.Some? {
        var br := baseRadius.value;
        var tr := topRadius.value;
        baseSize := LegacyBaseSize(br, sideThickness);
        topSize := LegacyTopSize(br, tr, sideThickness);
        sideThickness := sideThickness * (1.15 / 1.25);
      }
    }
  }

  /** The adapter's configuration and the values its shape update reads but does not write. */
  datatype Inputs = Inputs(legacy: bool, diameterStepLarge: real, specificMass: Vec4,
                           specificBreakingForce: real, specificBreakingTorque: real,
                           sideThickness: real, baseSize: real, topSize: real, height: real,
                           topNodeOrigY: real)

  /**
   * What the shape update writes: the node sizes, the top-stack node's
   * height, mass, strength and rescale factor, the "top" node's height,
   * the connect nodes, the node tweaker and fairing base links and the
   * interstage nodes' heights and sizes.
   */
  datatype Outputs = Outputs(bottomNodeSize: Option<int>, topNodeSize: Option<int>, topStackSize: Option<int>,
                             topStackHeight: Option<real>, totalMass: real, breakingForce: real,
                             breakingTorque: real, rescaleFactor: real, topNodeY: real,
                             connect: seq<ConnectNode>, tweakerRadius: Option<real>, base: Option<BaseLink>,
                             interHeights: seq<real>, interSizes: seq<int>)

  /** The inner base diameter, by which the current copy rescales the part. */
  function Scale(i: Inputs): real {
    (i.baseSize * 0.5 - WallThickness(i.sideThickness, i.baseSize, i.topSize)) * 2.0
  }

  /** A node that exists gets size s; a missing one stays missing. */
  function SizeIfPresent(node: Option<int>, s: int): Option<int> {
    if node.Some? then Some(s) else None
  }

  /** The heights of n interstage nodes spaced between lo and hi. */
  function Heights(lo: real, hi: real, n: nat): (r: seq<real>)
    ensures |r| == n
  {
    seq(n, k requires 0 <= k < n => InterstageHeight(lo, hi, n, k))
  }

  /** The sizes of n interstage nodes, alternating evenSize and oddSize. */
  function Sizes(evenSize: int, oddSize: int, n: nat): (r: seq<int>)
    ensures |r| == n
  {
    seq(n, k requires 0 <= k < n => InterstageSize(evenSize, oddSize, k))
  }

  /** The stack-node step: bottom and top nodes sized by the base, the top-stack node by the top and lifted to the height. */
  function StackStep(i: Inputs, o: Outputs): Outputs
    requires i.diameterStepLarge != 0.0
  {
    o.(bottomNodeSize := SizeIfPresent(o.bottomNodeSize, StackNodeSize(i.baseSize, i.diameterStepLarge)),
       topNodeSize := SizeIfPresent(o.topNodeSize, StackNodeSize(i.baseSize, i.diameterStepLarge)),
       topStackSize := SizeIfPresent(o.topStackSize, StackNodeSize(i.topSize, i.diameterStepLarge)),
       topStackHeight := if o.topStackSize.Some? then Some(i.height) else o.topStackHeight)
  }

  /** The base class's interstage step: spaced from the "top" node (or 0) to the height (or 0), sized one below the top's node size. */
  function BaseInterStep(i: Inputs, o: Outputs): Outputs
    requires i.diameterStepLarge != 0.0
  {
    var lo := if o.topNodeSize.Some? then o.topNodeY else 0.0;
    var hi := if o.topStackSize.Some? then i.height else 0.0;
    var s := StackNodeSize(i.topSize, i.diameterStepLarge) - 1;
    o.(interHeights := Heights(lo, hi, |o.interHeights|), interSizes := Sizes(s, s, |o.interSizes|))
  }

  /** The mass and strength step; only the current copy sets the rescale factor. */
  function MassStep(i: Inputs, o: Outputs): Outputs {
    o.(totalMass := Horner(i.specificMass, Scale(i)),
       breakingForce := Strength(i.specificBreakingForce, Scale(i) / 2.0),
       breakingTorque := Strength(i.specificBreakingTorque, Scale(i) / 2.0),
       rescaleFactor := if i.legacy then o.rescaleFactor else Scale(i))
  }

  /** The "top" node's configured height, scaled by the inner base diameter. */
  function TopNodeHeight(i: Inputs): real {
    i.topNodeOrigY * Scale(i)
  }

  /** The "top" node moved to its scaled height. */
  function TopStep(i: Inputs, o: Outputs): Outputs {
    o.(topNodeY := TopNodeHeight(i))
  }

  /** The connect nodes resized to the side node size. */
  function ConnectStep(i: Inputs, o: Outputs): Outputs
    requires i.diameterStepLarge != 0.0
  {
    o.(connect := Resized(o.connect, SideNodeSize(Scale(i), i.diameterStepLarge)))
  }

  /** The adapter's interstage step: spaced from the "top" node to the height, sized like the "top" node and a connect node in turn. */
  function AdapterInterStep(i: Inputs, o: Outputs): Outputs
    requires i.diameterStepLarge != 0.0 && o.topNodeSize.Some?
  {
    o.(interHeights := Heights(o.topNodeY, i.height, |o.interHeights|),
       interSizes := Sizes(o.topNodeSize.value, SideNodeSize(Scale(i), i.diameterStepLarge), |o.interSizes|))
  }

  /** The node tweaker gets the outer base radius and the fairing base the inner diameter and wall. */
  function LinkStep(i: Inputs, o: Outputs): Outputs {
    o.(tweakerRadius := if o.tweakerRadius.Some? then Some(i.baseSize * 0.5) else None,
       base := if o.base.Some?
               then Some(Linked(o.base.value, Scale(i), WallThickness(i.sideThickness, i.baseSize, i.topSize), i.legacy))
               else None)
  }

  /**
   * The whole of updateShape, stopping where the source throws: at an
   * interstage node without a partner (current copy, an odd count), then
   * at a missing "top" node and at a missing "bottom" node, which both
   * copies use without a check.  Whatever comes after a stop keeps its
   * old value.
   */
  function ShapeUpdate(i: Inputs, o: Outputs): Outputs
    requires i.diameterStepLarge != 0.0
  {
    if !i.legacy && |o.interHeights| % 2 == 1 then BeforeMass(i, o) else FromMass(i, BeforeMass(i, o))
  }

  /** updateShape up to the mass: the stack nodes, then (current copy) the base class's interstage loop. */
  function BeforeMass(i: Inputs, o: Outputs): Outputs
    requires i.diameterStepLarge != 0.0
  {
    if i.legacy then StackStep(i, o) else BaseInterStep(i, StackStep(i, o))
  }

  /** updateShape from the mass on: it stops after the mass without a "top" node. */
  function FromMass(i: Inputs, o: Outputs): Outputs
    requires i.diameterStepLarge != 0.0
  {
    var o3 := MassStep(i, o);
    if o3.topNodeSize.None? then o3 else FromTopNode(i, o3)
  }

  /** updateShape from the "top" node on: it stops after that node without a "bottom" node. */
  function FromTopNode(i: Inputs, o: Outputs): Outputs
    requires i.diameterStepLarge != 0.0 && o.topNodeSize.Some?
  {
    var o4 := TopStep(i, o);
    if o4.bottomNodeSize.None? then o4 else FromConnect(i, o4)
  }

  /** updateShape from the connect nodes to the end. */
  function FromConnect(i: Inputs, o: Outputs): Outputs
    requires i.diameterStepLarge != 0.0 && o.topNodeSize.Some?
  {
    var o5 := ConnectStep(i, o);
    var o6 := if !i.legacy && o5.topStackSize.Some? then AdapterInterStep(i, o5) else o5;
    LinkStep(i, o6)
  }

  /** The current copy gets past its interstage loop only with an even count; the older copy has no such loop. */
  predicate MassRuns(i: Inputs, o: Outputs) {
    i.legacy || |o.interHeights| % 2 == 0
  }

  /** updateShape reaches the connect nodes: past the mass, with both a "top" and a "bottom" node. */
  predicate LinksRun(i: Inputs, o: Outputs) {
    MassRuns(i, o) && o.topNodeSize.Some? && o.bottomNodeSize.Some?
  }

  /** The four ways through updateShape, by where it stops. */
  lemma ShapeUpdatePaths(i: Inputs, o: Outputs)
    requires i.diameterStepLarge != 0.0
    ensures !MassRuns(i, o) ==> ShapeUpdate(i, o) == BeforeMass(i, o)
    ensures MassRuns(i, o) && o.topNodeSize.None? ==> ShapeUpdate(i, o) == MassStep(i, BeforeMass(i, o))
    ensures MassRuns(i, o) && o.topNodeSize.Some? && o.bottomNodeSize.None? ==>
      ShapeUpdate(i, o) == TopStep(i, MassStep(i, BeforeMass(i, o)))
    ensures LinksRun(i, o) ==>
      var o5 := ConnectStep(i, TopStep(i, MassStep(i, BeforeMass(i, o))));
      ShapeUpdate(i, o) == LinkStep(i, if !i.legacy && o.topStackSize.Some? then AdapterInterStep(i, o5) else o5)
  {
    var o2 := BeforeMass(i, o);
    assert o2.topNodeSize.Some? <==> o.topNodeSize.Some?;
    assert o2.bottomNodeSize.Some? <==> o.bottomNodeSize.Some?;
    assert o2.topStackSize.Some? <==> o.topStackSize.Some?;
  }

  /** Every node that exists is resized, whatever path the update takes. */
  lemma ShapeUpdateNodes(i: Inputs, o: Outputs)
    requires i.diameterStepLarge != 0.0
    ensures ShapeUpdate(i, o).bottomNodeSize == SizeIfPresent(o.bottomNodeSize, StackNodeSize(i.baseSize, i.diameterStepLarge))
    ensures ShapeUpdate(i, o).topNodeSize == SizeIfPresent(o.topNodeSize, StackNodeSize(i.baseSize, i.diameterStepLarge))
    ensures ShapeUpdate(i, o).topStackSize == SizeIfPresent(o.topStackSize, StackNodeSize(i.topSize, i.diameterStepLarge))
    ensures ShapeUpdate(i, o).topStackHeight == if o.topStackSize.Some? then Some(i.height) else o.topStackHeight
  {
    ShapeUpdatePaths(i, o);
  }

  /** The mass, strength and rescale factor are set exactly when the update gets past the interstage loop. */
  lemma ShapeUpdateMass(i: Inputs, o: Outputs)
    requires i.diameterStepLarge != 0.0
    ensures ShapeUpdate(i, o).totalMass == if MassRuns(i, o) then Horner(i.specificMass, Scale(i)) else o.totalMass
    ensures ShapeUpdate(i, o).breakingForce ==
            if MassRuns(i, o) then Strength(i.specificBreakingForce, Scale(i) / 2.0) else o.breakingForce
    ensures ShapeUpdate(i, o).breakingTorque ==
            if MassRuns(i, o) then Strength(i.specificBreakingTorque, Scale(i) / 2.0) else o.breakingTorque
    ensures ShapeUpdate(i, o).rescaleFactor == if MassRuns(i, o) && !i.legacy then Scale(i) else o.rescaleFactor
  {
    ShapeUpdatePaths(i, o);
  }

  /**
   * The "top" node is placed when it exists and the mass was set; the
   * connect nodes, node tweaker and fairing base are updated only when the
   * "bottom" node exists too.
   */
  lemma ShapeUpdateLinks(i: Inputs, o: Outputs)
    requires i.diameterStepLarge != 0.0
    ensures ShapeUpdate(i, o).topNodeY ==
            if MassRuns(i, o) && o.topNodeSize.Some? then TopNodeHeight(i) else o.topNodeY
    ensures ShapeUpdate(i, o).connect ==
            if LinksRun(i, o) then Resized(o.connect, SideNodeSize(Scale(i), i.diameterStepLarge)) else o.connect
    ensures ShapeUpdate(i, o).tweakerRadius ==
            if LinksRun(i, o) && o.tweakerRadius.Some? then Some(i.baseSize * 0.5) else o.tweakerRadius
    ensures ShapeUpdate(i, o).base ==
            if LinksRun(i, o) && o.base.Some?
            then Some(Linked(o.base.value, Scale(i), WallThickness(i.sideThickness, i.baseSize, i.topSize), i.legacy))
            else o.base
  {
    ShapeUpdatePaths(i, o);
    var o3 := MassStep(i, BeforeMass(i, o));
    assert o3.connect == o.connect && o3.tweakerRadius == o.tweakerRadius && o3.base == o.base;
    if LinksRun(i, o) {
      var o5 := ConnectStep(i, TopStep(i, o3));
      var o6 := if !i.legacy && o.topStackSize.Some? then AdapterInterStep(i, o5) else o5;
      assert o6.connect == o5.connect && o6.tweakerRadius == o.tweakerRadius && o6.base == o.base;
    }
  }

  /**
   * The interstage nodes: untouched by the older copy; in the current copy
   * spaced by the adapter's loop when it runs (both links and the top-stack
   * node), and otherwise by the base class's loop.
   */
  lemma ShapeUpdateInterstage(i: Inputs, o: Outputs)
    requires i.diameterStepLarge != 0.0 && |o.interHeights| == |o.interSizes|
    ensures var r := ShapeUpdate(i, o);
      i.legacy ==> r.interHeights == o.interHeights && r.interSizes == o.interSizes
    ensures var r := ShapeUpdate(i, o);
      !i.legacy && LinksRun(i, o) && o.topStackSize.Some? ==>
        Interstage(r.interHeights, r.interSizes, TopNodeHeight(i), i.height,
                   StackNodeSize(i.baseSize, i.diameterStepLarge), SideNodeSize(Scale(i), i.diameterStepLarge))
    ensures var r := ShapeUpdate(i, o);
      !i.legacy && !(LinksRun(i, o) && o.topStackSize.Some?) ==>
        Interstage(r.interHeights, r.interSizes,
                   if o.topNodeSize.Some? then o.topNodeY else 0.0, if o.topStackSize.Some? then i.height else 0.0,
                   StackNodeSize(i.topSize, i.diameterStepLarge) - 1, StackNodeSize(i.topSize, i.diameterStepLarge) - 1)
  {
    ShapeUpdatePaths(i, o);
    var o1 := StackStep(i, o);
    var o2 := BeforeMass(i, o);
    if i.legacy {
      assert o2 == o1;
    } else {
      var lo := if o.topNodeSize.Some? then o.topNodeY else 0.0;
      var hi := if o.topStackSize.Some? then i.height else 0.0;
      var s := StackNodeSize(i.topSize, i.diameterStepLarge) - 1;
      assert o2.interHeights == Heights(lo, hi, |o.interHeights|) && o2.interSizes == Sizes(s, s, |o.interSizes|);
      var o3 := MassStep(i, o2);
      if LinksRun(i, o) {
        var o5 := ConnectStep(i, TopStep(i, o3));
        assert o5.topNodeY == TopNodeHeight(i) && o5.topNodeSize.value == StackNodeSize(i.baseSize, i.diameterStepLarge);
        if o.topStackSize.Some? {
          var o6 := AdapterInterStep(i, o5);
          assert ShapeUpdate(i, o).interHeights == o6.interHeights && ShapeUpdate(i, o).interSizes == o6.interSizes;
        } else {
          assert ShapeUpdate(i, o).interHeights == o2.interHeights && ShapeUpdate(i, o).interSizes == o2.interSizes;
        }
      } else {
        assert ShapeUpdate(i, o).interHeights == o2.interHeights && ShapeUpdate(i, o).interSizes == o2.interSizes;
      }
    }
  }

  /** When the adapter's loop runs and the "top" node sits below the top-stack node, every interstage node lies between them. */
  lemma AdapterInterstageBetween(i: Inputs, o: Outputs, k: int)
    requires i.diameterStepLarge != 0.0 && |o.interHeights| == |o.interSizes|
    requires !i.legacy && LinksRun(i, o) && o.topStackSize.Some?
    requires TopNodeHeight(i) < i.height && 0 <= k < |o.interHeights|
    ensures TopNodeHeight(i) < ShapeUpdate(i, o).interHeights[k] < i.height
  {
    ShapeUpdateInterstage(i, o);
    InterstageStrictlyBetween(TopNodeHeight(i), i.height, |o.interHeights|, k);
  }

  /** The interstage nodes placed pointwise are the spaced heights and alternating sizes. */
  lemma InterstageSeqs(hs: seq<real>, ss: seq<int>, lo: real, hi: real, evenSize: int, oddSize: int)
    requires Interstage(hs, ss, lo, hi, evenSize, oddSize)
    ensures hs == Heights(lo, hi, |hs|) && ss == Sizes(evenSize, oddSize, |ss|)
  {
  }

  /** Interstage node k stands at the height of its pair and has the even or odd size. */
  predicate Interstage(hs: seq<real>, ss: seq<int>, lo: real, hi: real, evenSize: int, oddSize: int) {
    && |hs| == |ss|
    && (forall k :: 0 <= k < |hs| ==> hs[k] == InterstageHeight(lo, hi, |hs|, k))
    && (forall k :: 0 <= k < |ss| ==> ss[k] == InterstageSize(evenSize, oddSize, k))
  }

  /** The height of interstage node k of n between heights lo and hi: pairs share the (k/2 + 1)-th of n/2 + 1 equal steps. */
  function InterstageHeight(lo: real, hi: real, n: int, k: int): real
    requires n >= 0
  {
    lo + ((k / 2 + 1) as real) * ((hi - lo) / ((n / 2 + 1) as real))
  }

  /**
   * With an even count every interstage node lies strictly between the two
   * heights; with an odd count the last node lands on the upper one.
   */
  lemma InterstageStrictlyBetween(lo: real, hi: real, n: int, k: int)
    requires lo < hi && 0 <= k < n && n % 2 == 0
    ensures lo < InterstageHeight(lo, hi, n, k) < hi
  {
    var d := (n / 2 + 1) as real;
    var inc := (hi - lo) / d;
    assert inc > 0.0;
    assert k / 2 + 1 <= n / 2;
    var m := (k / 2 + 1) as real;
    assert 1.0 <= m <= d - 1.0;
    assert m * inc <= (d - 1.0) * inc;
    assert d * inc == hi - lo;
    assert (d - 1.0) * inc == hi - lo - inc;
    assert 0.0 < inc <= m * inc;
  }

  lemma InterstageOddLastAtTop(lo: real, hi: real, n: int)
    requires n >= 1 && n % 2 == 1
    ensures InterstageHeight(lo, hi, n, n - 1) == hi
  {
    var d := (n / 2 + 1) as real;
    assert (n - 1) / 2 + 1 == n / 2 + 1;
    assert d * ((hi - lo) / d) == hi - lo;
  }

  /** Consecutive pairs rise: a later pair never sits lower when the top is above the bottom. */
  lemma InterstageRising(lo: real, hi: real, n: int, k: int, l: int)
    requires lo <= hi && n >= 0 && 0 <= k <= l
    ensures InterstageHeight(lo, hi, n, k) <= InterstageHeight(lo, hi, n, l)
  {
    var inc := (hi - lo) / ((n / 2 + 1) as real);
    assert inc >= 0.0;
    assert ((k / 2 + 1) as real) <= ((l / 2 + 1) as real);
    assert ((k / 2 + 1) as real) * inc <= ((l / 2 + 1) as real) * inc;
  }

  /** The size interstage node k gets: evenSize for the first of a pair, oddSize for the second. */
  function InterstageSize(evenSize: int, oddSize: int, k: int): int {
    if k % 2 == 0 then evenSize else oddSize
  }

  /** The height the loop computes for the pair at even i is that of node i, and of node i + 1 when there is one. */
  lemma InterstagePair(lo: real, hi: real, n: nat, i: int, j: int, inc: real, h: real, want: seq<real>, evenSize: int, oddSize: int)
    requires 0 <= i < n && i == 2 * j && |want| == n
    requires forall k :: 0 <= k < n ==> want[k] == InterstageHeight(lo, hi, n, k)
    requires inc == (hi - lo) / ((n / 2 + 1) as real) && h == lo + ((j + 1) as real) * inc
    ensures h == want[i] && (i + 1 < n ==> h == want[i + 1])
    ensures InterstageSize(evenSize, oddSize, i) == evenSize && InterstageSize(evenSize, oddSize, i + 1) == oddSize
    ensures i + 1 >= n ==> n % 2 == 1
  {
    assert i / 2 == j && (i + 1) / 2 == j;
  }

  /** One pass of the interstage loop: node i, then its partner i + 1 when there is one. */
  method PutInterstagePair(heights: array<real>, sizes: array<int>, i: int, h: real, evenSize: int, oddSize: int,
                           ghost want: seq<real>)
    returns (full: bool)
    requires heights.Length == sizes.Length == |want| && 0 <= i < |want|
    requires h == want[i] && (i + 1 < |want| ==> h == want[i + 1])
    requires InterstageSize(evenSize, oddSize, i) == evenSize && InterstageSize(evenSize, oddSize, i + 1) == oddSize
    requires forall k :: 0 <= k < i ==> heights[k] == want[k] && sizes[k] == InterstageSize(evenSize, oddSize, k)
    modifies heights, sizes
    ensures full <==> i + 1 < |want|
    ensures forall k :: 0 <= k < (if full then i + 2 else i + 1) ==>
      heights[k] == want[k] && sizes[k] == InterstageSize(evenSize, oddSize, k)
  {
    heights[i] := h;
    sizes[i] := evenSize;
    if i + 1 >= heights.Length {
      return false;
    }
    heights[i + 1] := h;
    sizes[i + 1] := oddSize;
    return true;
  }

  /**
   * The interstage loop of updateShape over the heights and sizes of the
   * interstage nodes.  It writes the nodes two by two; with an odd count
   * the last node is written and the access to its missing partner fails,
   * reported here as ok == false.
   */
  method PlaceInterstage(heights: array<real>, sizes: array<int>, lo: real, hi: real, evenSize: int, oddSize: int)
    returns (ok: bool)
    requires heights.Length == sizes.Length
    modifies heights, sizes
    ensures ok <==> heights.Length % 2 == 0
    ensures forall k :: 0 <= k < heights.Length ==> heights[k] == InterstageHeight(lo, hi, heights.Length, k)
    ensures forall k :: 0 <= k < sizes.Length ==> sizes[k] == InterstageSize(evenSize, oddSize, k)
  {
    var n := heights.Length;
    var inc := (hi - lo) / ((n / 2 + 1) as real);
    ghost var wantHeights := seq(n, k => InterstageHeight(lo, hi, n, k));
    var i, j := 0, 0;
    while i < n
      invariant 0 <= i <= n && i == 2 * j
      invariant forall k :: 0 <= k < i ==> heights[k] == wantHeights[k] && sizes[k] == InterstageSize(evenSize, oddSize, k)
    {
      var h := lo + ((j + 1) as real) * inc;
      InterstagePair(lo, hi, n, i, j, inc, h, wantHeights, evenSize, oddSize);
      j := j + 1;
      var full := PutInterstagePair(heights, sizes, i, h, evenSize, oddSize, wantHeights);
      if !full {
        return false;
      }
      i := i + 2;
    }
    assert n == 2 * j;
    return true;
  }
}
