// The node number tweaker: the part module that keeps a fairing base's (or
// an adapter's) numbered attach nodes -- one per fairing side -- in step
// with the chosen number of sides, spaced round a circle of the chosen
// radius.  Both the current and the legacy copy are modelled; where they
// differ, the tweaker's `legacy` setting selects the legacy behaviour.
module NodeTweaker {
  import opened Geometry
  import opened NodeNames
  import opened AttachNodes

  /** The tweaker's configuration, fixed for the part. */
  datatype Config = Config(
    prefix: string,
    maxNumber: int,
    legacy: bool,
    radiusStepLarge: real,
    shouldResizeNodes: bool,
    /** Whether the part also carries a fairing base module. */
    hasBase: bool)

  /** The engine's trigonometry, in single precision in the source. */
  datatype Trig = Trig(sin: real -> real, cos: real -> real, pi: real)

  /** The last number the attachment check scans: every possible node, or (legacy) the used ones. */
  function CheckedTop(cfg: Config, numNodes: int): int {
    if cfg.legacy then numNodes else cfg.maxNumber
  }

  /** Some scanned node has a part attached. */
  predicate AnyHeld(nodes: seq<AttachNode>, cfg: Config, numNodes: int) {
    exists i: nat :: 1 <= i <= CheckedTop(cfg, numNodes) && HeldBy(nodes, cfg.prefix, i)
  }

  /** The node size for count nodes: the chord between neighbours, 2·r·sin(π / count), in large radius steps. */
  function NodeSize(count: int, radius: real, radiusStepLarge: real, tr: Trig): int
    requires count != 0 && radiusStepLarge != 0.0
  {
    RoundToInt(tr.sin(tr.pi / count as real) * radius * 2.0 / (radiusStepLarge * 2.0))
  }

  /** The placement edit for count nodes. */
  function PlaceEdit(cfg: Config, count: int, radius: real, tr: Trig): (e: Edit)
    requires count != 0 && cfg.radiusStepLarge != 0.0
    ensures ValidEdit(e)
  {
    Place(count, radius, NodeSize(count, radius, cfg.radiusStepLarge, tr), cfg.shouldResizeNodes, tr.sin, tr.cos, tr.pi)
  }

  /** addRemoveNodes: create the missing nodes 1..numNodes, then hide (editor) or remove (flight) the rest. */
  function AddRemoved(nodes: seq<AttachNode>, cfg: Config, numNodes: nat, inEditor: bool): seq<AttachNode> {
    var created := CreateMissing(nodes, cfg.prefix, numNodes, TemplateOf(nodes, cfg.prefix, cfg.maxNumber));
    if inEditor then MapNumbered(created, cfg.prefix, numNodes + 1, cfg.maxNumber, Hide(cfg.legacy))
    else RemoveNumbered(created, cfg.prefix, numNodes + 1, cfg.maxNumber)
  }

  /** updateNodePositions: nodes 1..numNodes go round the circle, the rest are hidden. */
  function Positioned(nodes: seq<AttachNode>, cfg: Config, numNodes: nat, radius: real, tr: Trig): seq<AttachNode>
    requires cfg.radiusStepLarge != 0.0
  {
    MapNumbered(Placed(nodes, cfg, numNodes, radius, tr), cfg.prefix, numNodes + 1, cfg.maxNumber, Hide(cfg.legacy))
  }

  /** updateNodes. */
  function Updated(nodes: seq<AttachNode>, cfg: Config, numNodes: nat, radius: real, tr: Trig, inEditor: bool): seq<AttachNode>
    requires cfg.radiusStepLarge != 0.0
  {
    Positioned(AddRemoved(nodes, cfg, numNodes, inEditor), cfg, numNodes, radius, tr)
  }

  /** The lookup of a hidden node. */
  function HiddenLookup(o: Option<AttachNode>, legacy: bool, i: int): Option<AttachNode> {
    match o
    case None => None
    case Some(n) => Some(EditNode(Hide(legacy), i, n))
  }

  /** Node i before and after placement: the same node, moved onto the circle at its angle. */
  predicate PlacedAs(before: Option<AttachNode>, after: Option<AttachNode>, cfg: Config, numNodes: int, radius: real, tr: Trig, i: int)
    requires numNodes != 0 && cfg.radiusStepLarge != 0.0
  {
    && (after.Some? <==> before.Some?)
    && (before.Some? ==>
          var a := Angle(tr.pi, i, numNodes);
          && after.value.id == before.value.id
          && after.value.position == Vec3(tr.cos(a) * radius, before.value.position.y, tr.sin(a) * radius)
          && after.value.size == (if cfg.shouldResizeNodes then NodeSize(numNodes, radius, cfg.radiusStepLarge, tr) else before.value.size)
          && after.value.orientation == before.value.orientation
          && after.value.attached == before.value.attached)
  }

  /** Node i of 1..numNodes after addRemoveNodes: the old one, or a new one copying the template. */
  lemma KeptOrCreated(nodes: seq<AttachNode>, cfg: Config, numNodes: nat, inEditor: bool, i: nat)
    requires UniqueIds(nodes) && 1 <= i <= numNodes
    ensures Lookup(AddRemoved(nodes, cfg, numNodes, inEditor), NodeName(cfg.prefix, i)) ==
      if Present(nodes, cfg.prefix, i) then Lookup(nodes, NodeName(cfg.prefix, i))
      else Some(NewNode(cfg.prefix, i, TemplateOf(nodes, cfg.prefix, cfg.maxNumber)))
  {
    var name := NodeName(cfg.prefix, i);
    AddRemovedAt(nodes, cfg, numNodes, inEditor, name);
    CreatedAt(nodes, cfg.prefix, numNodes, TemplateOf(nodes, cfg.prefix, cfg.maxNumber), name);
    NumberOfName(cfg.prefix, i);
    NumberedName(cfg.prefix, i, 1, numNodes);
    NumberedName(cfg.prefix, i, numNodes + 1, cfg.maxNumber);
  }

  /** Node i above numNodes after addRemoveNodes: hidden in the editor, gone in flight. */
  lemma HiddenOrRemoved(nodes: seq<AttachNode>, cfg: Config, numNodes: nat, inEditor: bool, i: nat)
    requires UniqueIds(nodes) && numNodes < i <= cfg.maxNumber
    ensures Lookup(AddRemoved(nodes, cfg, numNodes, inEditor), NodeName(cfg.prefix, i)) ==
      if inEditor then HiddenLookup(Lookup(nodes, NodeName(cfg.prefix, i)), cfg.legacy, i) else None
  {
    var name := NodeName(cfg.prefix, i);
    AddRemovedAt(nodes, cfg, numNodes, inEditor, name);
    CreatedAt(nodes, cfg.prefix, numNodes, TemplateOf(nodes, cfg.prefix, cfg.maxNumber), name);
    NumberOfName(cfg.prefix, i);
    NumberedName(cfg.prefix, i, 1, numNodes);
    NumberedName(cfg.prefix, i, numNodes + 1, cfg.maxNumber);
  }

  /** A node after addRemoveNodes: as the creation loop left it, unless its number is past numNodes. */
  lemma AddRemovedAt(nodes: seq<AttachNode>, cfg: Config, numNodes: nat, inEditor: bool, id: string)
    requires UniqueIds(nodes)
    ensures var created := CreateMissing(nodes, cfg.prefix, numNodes, TemplateOf(nodes, cfg.prefix, cfg.maxNumber));
      Lookup(AddRemoved(nodes, cfg, numNodes, inEditor), id) ==
        if !Numbered(cfg.prefix, id, numNodes + 1, cfg.maxNumber) then Lookup(created, id)
        else if inEditor then HiddenLookup(Lookup(created, id), cfg.legacy, NumberOf(cfg.prefix, id))
        else None
  {
    var created := CreateMissing(nodes, cfg.prefix, numNodes, TemplateOf(nodes, cfg.prefix, cfg.maxNumber));
    CreatedAt(nodes, cfg.prefix, numNodes, TemplateOf(nodes, cfg.prefix, cfg.maxNumber), id);
    if inEditor {
      EditedAt(created, cfg.prefix, numNodes + 1, cfg.maxNumber, Hide(cfg.legacy), id);
    } else {
      RemovedAt(created, cfg.prefix, numNodes + 1, cfg.maxNumber, id);
    }
  }

  /** addRemoveNodes touches no node outside the numbers 1..maxNumber and keeps the ids unique. */
  lemma OthersUntouched(nodes: seq<AttachNode>, cfg: Config, numNodes: nat, inEditor: bool)
    requires UniqueIds(nodes)
    ensures UniqueIds(AddRemoved(nodes, cfg, numNodes, inEditor))
    ensures forall id :: !Numbered(cfg.prefix, id, 1, cfg.maxNumber) && !Numbered(cfg.prefix, id, 1, numNodes) ==>
      Lookup(AddRemoved(nodes, cfg, numNodes, inEditor), id) == Lookup(nodes, id)
  {
    var t := TemplateOf(nodes, cfg.prefix, cfg.maxNumber);
    var created := CreateMissing(nodes, cfg.prefix, numNodes, t);
    CreateMissingLookup(nodes, cfg.prefix, numNodes, t);
    if inEditor {
      MapNumberedLookup(created, cfg.prefix, numNodes + 1, cfg.maxNumber, Hide(cfg.legacy));
    } else {
      RemoveNumberedLookup(created, cfg.prefix, numNodes + 1, cfg.maxNumber);
    }
  }

  /**
   * After addRemoveNodes every number 1..numNodes has a node -- the old one,
   * or a new one copying the template -- the numbers above are hidden in
   * the editor and gone in flight, and all other nodes are untouched.
   */
  lemma AddRemovedOutcome(nodes: seq<AttachNode>, cfg: Config, numNodes: nat, inEditor: bool)
    requires UniqueIds(nodes)
    ensures var r := AddRemoved(nodes, cfg, numNodes, inEditor);
      && UniqueIds(r)
      && (forall i: nat :: 1 <= i <= numNodes ==>
            Lookup(r, NodeName(cfg.prefix, i)) ==
              if Present(nodes, cfg.prefix, i) then Lookup(nodes, NodeName(cfg.prefix, i))
              else Some(NewNode(cfg.prefix, i, TemplateOf(nodes, cfg.prefix, cfg.maxNumber))))
      && (forall i: nat :: numNodes < i <= cfg.maxNumber ==>
            Lookup(r, NodeName(cfg.prefix, i)) ==
              if inEditor then HiddenLookup(Lookup(nodes, NodeName(cfg.prefix, i)), cfg.legacy, i) else None)
      && (forall id :: !Numbered(cfg.prefix, id, 1, cfg.maxNumber) && !Numbered(cfg.prefix, id, 1, numNodes) ==>
            Lookup(r, id) == Lookup(nodes, id))
  {
    OthersUntouched(nodes, cfg, numNodes, inEditor);
    forall i: nat | 1 <= i <= numNodes
      ensures Lookup(AddRemoved(nodes, cfg, numNodes, inEditor), NodeName(cfg.prefix, i)) ==
        if Present(nodes, cfg.prefix, i) then Lookup(nodes, NodeName(cfg.prefix, i))
        else Some(NewNode(cfg.prefix, i, TemplateOf(nodes, cfg.prefix, cfg.maxNumber)))
    {
      KeptOrCreated(nodes, cfg, numNodes, inEditor, i);
    }
    forall i: nat | numNodes < i <= cfg.maxNumber
      ensures Lookup(AddRemoved(nodes, cfg, numNodes, inEditor), NodeName(cfg.prefix, i)) ==
        if inEditor then HiddenLookup(Lookup(nodes, NodeName(cfg.prefix, i)), cfg.legacy, i) else None
    {
      HiddenOrRemoved(nodes, cfg, numNodes, inEditor, i);
    }
  }

  /** The nodes placed onto the circle before the unused ones are hidden. */
  function Placed(nodes: seq<AttachNode>, cfg: Config, numNodes: nat, radius: real, tr: Trig): seq<AttachNode>
    requires cfg.radiusStepLarge != 0.0
  {
    if numNodes == 0 then nodes else MapNumbered(nodes, cfg.prefix, 1, numNodes, PlaceEdit(cfg, numNodes, radius, tr))
  }

  /** The placement pass keeps the ids and leaves the numbers above numNodes alone. */
  lemma PlacedFacts(nodes: seq<AttachNode>, cfg: Config, numNodes: nat, radius: real, tr: Trig)
    requires UniqueIds(nodes) && cfg.radiusStepLarge != 0.0
    ensures var p := Placed(nodes, cfg, numNodes, radius, tr);
      UniqueIds(p) && |p| == |nodes|
  {
    if numNodes != 0 {
      MapNumberedShape(nodes, cfg.prefix, 1, numNodes, PlaceEdit(cfg, numNodes, radius, tr));
    }
  }

  /** The placement edit moves one node as PlacedAs describes. */
  lemma PlaceEditPlaces(n: AttachNode, cfg: Config, numNodes: nat, radius: real, tr: Trig, i: nat)
    requires numNodes != 0 && cfg.radiusStepLarge != 0.0
    ensures PlacedAs(Some(n), Some(EditNode(PlaceEdit(cfg, numNodes, radius, tr), i, n)), cfg, numNodes, radius, tr, i)
  {
  }

  /** updateNodePositions moves an existing node i of 1..numNodes onto the circle. */
  lemma PlacedNode(nodes: seq<AttachNode>, cfg: Config, numNodes: nat, radius: real, tr: Trig, i: nat)
    requires UniqueIds(nodes) && cfg.radiusStepLarge != 0.0 && 1 <= i <= numNodes
    ensures PlacedAs(Lookup(nodes, NodeName(cfg.prefix, i)), Lookup(Positioned(nodes, cfg, numNodes, radius, tr), NodeName(cfg.prefix, i)),
                     cfg, numNodes, radius, tr, i)
  {
    HidingSparesPlaced(nodes, cfg, numNodes, radius, tr, i);
    PlacingMovesNode(nodes, cfg, numNodes, radius, tr, i);
  }

  /** The hiding pass leaves node i of 1..numNodes as the placing pass left it. */
  lemma HidingSparesPlaced(nodes: seq<AttachNode>, cfg: Config, numNodes: nat, radius: real, tr: Trig, i: nat)
    requires UniqueIds(nodes) && cfg.radiusStepLarge != 0.0 && 1 <= i <= numNodes
    ensures Lookup(Positioned(nodes, cfg, numNodes, radius, tr), NodeName(cfg.prefix, i)) ==
            Lookup(Placed(nodes, cfg, numNodes, radius, tr), NodeName(cfg.prefix, i))
  {
    var p := Placed(nodes, cfg, numNodes, radius, tr);
    var name := NodeName(cfg.prefix, i);
    PlacedFacts(nodes, cfg, numNodes, radius, tr);
    NumberedName(cfg.prefix, i, numNodes + 1, cfg.maxNumber);
    UnnumberedUntouched(p, cfg.prefix, numNodes + 1, cfg.maxNumber, Hide(cfg.legacy), name);
  }

  /** A pass over the numbers lo..hi leaves a node whose id is not among them as it was. */
  lemma UnnumberedUntouched(q: seq<AttachNode>, prefix: string, lo: nat, hi: int, e: Edit, id: string)
    requires ValidEdit(e) && UniqueIds(q) && !Numbered(prefix, id, lo, hi)
    ensures Lookup(MapNumbered(q, prefix, lo, hi, e), id) == Lookup(q, id)
  {
    EditedAt(q, prefix, lo, hi, e, id);
  }

  /** The placing pass moves node i of 1..numNodes onto the circle. */
  lemma PlacingMovesNode(nodes: seq<AttachNode>, cfg: Config, numNodes: nat, radius: real, tr: Trig, i: nat)
    requires UniqueIds(nodes) && cfg.radiusStepLarge != 0.0 && 1 <= i <= numNodes
    ensures PlacedAs(Lookup(nodes, NodeName(cfg.prefix, i)), Lookup(Placed(nodes, cfg, numNodes, radius, tr), NodeName(cfg.prefix, i)),
                     cfg, numNodes, radius, tr, i)
  {
    var e := PlaceEdit(cfg, numNodes, radius, tr);
    var p := Placed(nodes, cfg, numNodes, radius, tr);
    var name := NodeName(cfg.prefix, i);
    PlacedFacts(nodes, cfg, numNodes, radius, tr);
    assert p == MapNumbered(nodes, cfg.prefix, 1, numNodes, e);
    EditedAt(nodes, cfg.prefix, 1, numNodes, e, name);
    NumberOfName(cfg.prefix, i);
    NumberedName(cfg.prefix, i, 1, numNodes);
    var before := Lookup(nodes, name);
    if before.Some? {
      assert Lookup(p, name) == Some(EditNode(e, i, before.value));
      PlaceEditPlaces(before.value, cfg, numNodes, radius, tr, i);
    } else {
      assert Lookup(p, name) == None;
    }
  }

  /** updateNodePositions hides an existing node i above numNodes. */
  lemma HiddenNode(nodes: seq<AttachNode>, cfg: Config, numNodes: nat, radius: real, tr: Trig, i: nat)
    requires UniqueIds(nodes) && cfg.radiusStepLarge != 0.0 && numNodes < i <= cfg.maxNumber
    ensures Lookup(Positioned(nodes, cfg, numNodes, radius, tr), NodeName(cfg.prefix, i)) ==
      HiddenLookup(Lookup(nodes, NodeName(cfg.prefix, i)), cfg.legacy, i)
  {
    var p := Placed(nodes, cfg, numNodes, radius, tr);
    var name := NodeName(cfg.prefix, i);
    PlacedFacts(nodes, cfg, numNodes, radius, tr);
    if numNodes != 0 {
      NumberedName(cfg.prefix, i, 1, numNodes);
      UnnumberedUntouched(nodes, cfg.prefix, 1, numNodes, PlaceEdit(cfg, numNodes, radius, tr), name);
    }
    HidingHides(p, cfg.prefix, numNodes + 1, cfg.maxNumber, cfg.legacy, i);
  }

  /** A hiding pass over lo..hi hides node i of that range, if it exists. */
  lemma HidingHides(q: seq<AttachNode>, prefix: string, lo: nat, hi: int, legacy: bool, i: nat)
    requires UniqueIds(q) && lo <= i <= hi
    ensures Lookup(MapNumbered(q, prefix, lo, hi, Hide(legacy)), NodeName(prefix, i)) ==
      HiddenLookup(Lookup(q, NodeName(prefix, i)), legacy, i)
  {
    EditedAt(q, prefix, lo, hi, Hide(legacy), NodeName(prefix, i));
    NumberedName(prefix, i, lo, hi);
  }

  /**
   * After updateNodePositions each existing node i of 1..numNodes stands at
   * angle 2·π·(i − 1)/numNodes on the circle of the radius, at its old
   * height; the nodes above numNodes are hidden; nothing is created or removed.
   */
  lemma PositionedOutcome(nodes: seq<AttachNode>, cfg: Config, numNodes: nat, radius: real, tr: Trig)
    requires UniqueIds(nodes) && cfg.radiusStepLarge != 0.0
    ensures var r := Positioned(nodes, cfg, numNodes, radius, tr);
      && UniqueIds(r) && |r| == |nodes|
      && (forall i: nat :: 1 <= i <= numNodes ==>
            PlacedAs(Lookup(nodes, NodeName(cfg.prefix, i)), Lookup(r, NodeName(cfg.prefix, i)), cfg, numNodes, radius, tr, i))
      && (forall i: nat :: numNodes < i <= cfg.maxNumber ==>
            Lookup(r, NodeName(cfg.prefix, i)) == HiddenLookup(Lookup(nodes, NodeName(cfg.prefix, i)), cfg.legacy, i))
  {
    PlacedFacts(nodes, cfg, numNodes, radius, tr);
    MapNumberedShape(Placed(nodes, cfg, numNodes, radius, tr), cfg.prefix, numNodes + 1, cfg.maxNumber, Hide(cfg.legacy));
    forall i: nat | 1 <= i <= numNodes
      ensures PlacedAs(Lookup(nodes, NodeName(cfg.prefix, i)), Lookup(Positioned(nodes, cfg, numNodes, radius, tr), NodeName(cfg.prefix, i)),
                       cfg, numNodes, radius, tr, i)
    {
      PlacedNode(nodes, cfg, numNodes, radius, tr, i);
    }
    forall i: nat | numNodes < i <= cfg.maxNumber
      ensures Lookup(Positioned(nodes, cfg, numNodes, radius, tr), NodeName(cfg.prefix, i)) ==
        HiddenLookup(Lookup(nodes, NodeName(cfg.prefix, i)), cfg.legacy, i)
    {
      HiddenNode(nodes, cfg, numNodes, radius, tr, i);
    }
  }

  /** Hiding a hidden node changes nothing, so hiding the same numbers again is idle. */
  lemma HideIdempotent(nodes: seq<AttachNode>, prefix: string, lo: nat, hi: int, legacy: bool)
    requires UniqueIds(nodes)
    ensures var once := MapNumbered(nodes, prefix, lo, hi, Hide(legacy));
      forall id :: Lookup(MapNumbered(once, prefix, lo, hi, Hide(legacy)), id) == Lookup(once, id)
  {
    var once := MapNumbered(nodes, prefix, lo, hi, Hide(legacy));
    MapNumberedLookup(nodes, prefix, lo, hi, Hide(legacy));
    MapNumberedLookup(once, prefix, lo, hi, Hide(legacy));
  }

  /** The node number tweaker module of one part. */
  class Tweaker {
    const cfg: Config

    /** The part's attach nodes. */
    var nodes: seq<AttachNode>
    /** The number of nodes in use. */
    var numNodes: nat
    /** The number chosen on the slider (current copy). */
    var uiNumNodes: nat
    /** The number last applied (current copy). */
    var numNodesBefore: nat
    var radius: real
    var oldRadius: real
    /** part.stackSymmetry. */
    var stackSymmetry: int
    /** The fairing base's needShapeUpdate and updateDelay. */
    var needShapeUpdate: bool
    var updateDelay: real

    constructor (cfg: Config, nodes: seq<AttachNode>)
      ensures this.cfg == cfg && this.nodes == nodes
      ensures numNodes == (if cfg.legacy then 0 else 2) && uiNumNodes == 2 && numNodesBefore == 0
      ensures radius == 1.25 && oldRadius == -1000.0
      ensures stackSymmetry == 0 && !needShapeUpdate && updateDelay == 0.0
    {
      this.cfg := cfg;
      this.nodes := nodes;
      numNodes := if cfg.legacy then 0 else 2;
      uiNumNodes := 2;
      numNodesBefore := 0;
      radius := 1.25;
      oldRadius := -1000.0;
      stackSymmetry := 0;
      needShapeUpdate := false;
      updateDelay := 0.0;
    }

    /** checkNodeAttachments: whether a part hangs on a scanned node. */
    method CheckNodeAttachments() returns (b: bool)
      ensures b <==> AnyHeld(nodes, cfg, numNodes)
    {
      var top := if cfg.legacy then numNodes else cfg.maxNumber;
      var i := 1;
      while i <= top
        invariant 1 <= i && (i <= top + 1 || i == 1)
        invariant forall j: nat :: 1 <= j < i ==> !HeldBy(nodes, cfg.prefix, j)
      {
        var k := IndexOf(nodes, NodeName(cfg.prefix, i));
        if k >= 0 && nodes[k].attached {
          assert HeldBy(nodes, cfg.prefix, i);
          return true;
        }
        i := i + 1;
      }
      return false;
    }

    /** The template scan of addRemoveNodes. */
    method FindTemplate() returns (t: Template)
      ensures t == TemplateOf(nodes, cfg.prefix, cfg.maxNumber)
    {
      var y, nodeSize, dir, gotY := 0.0, 0, Up, false;
      var i := 1;
      while i <= cfg.maxNumber
        invariant 1 <= i && (i <= cfg.maxNumber + 1 || i == 1)
        invariant FirstNumbered(nodes, cfg.prefix, i, cfg.maxNumber) == FirstNumbered(nodes, cfg.prefix, 1, cfg.maxNumber)
      {
        var k := IndexOf(nodes, NodeName(cfg.prefix, i));
        if k >= 0 {
          y, nodeSize, dir, gotY := nodes[k].position.y, nodes[k].size, nodes[k].orientation, true;
          break;
        }
        i := i + 1;
      }
      if !gotY {
        var b := IndexOf(nodes, "bottom");
        if b >= 0 {
          y := nodes[b].position.y;
        }
      }
      t := Template(y, nodeSize, dir);
    }

    /** The creation loop of addRemoveNodes. */
    method CreateMissingNodes(t: Template)
      modifies this`nodes
      ensures nodes == CreateMissing(old(nodes), cfg.prefix, numNodes, t)
    {
      ghost var start := nodes;
      var i := 1;
      while i <= numNodes
        invariant 1 <= i <= numNodes + 1
        invariant nodes == CreateMissing(start, cfg.prefix, i - 1, t)
      {
        if IndexOf(nodes, NodeName(cfg.prefix, i)) < 0 {
          nodes := nodes + [AttachNode(NodeName(cfg.prefix, i), Vec3(0.0, t.y, 0.0), t.dir, t.size, false)];
        }
        i := i + 1;
      }
    }

    /** Hide the nodes numbered from..maxNumber; found tells whether there was any. */
    method HideFrom(from: nat) returns (found: bool)
      requires UniqueIds(nodes)
      modifies this`nodes
      ensures nodes == MapNumbered(old(nodes), cfg.prefix, from, cfg.maxNumber, Hide(cfg.legacy))
      ensures UniqueIds(nodes)
      ensures found <==> AnyPresent(old(nodes), cfg.prefix, from, cfg.maxNumber)
    {
      ghost var start := nodes;
      var ns := nodes;
      found := false;
      var i := from;
      while i <= cfg.maxNumber
        invariant from <= i && (i <= cfg.maxNumber + 1 || i == from)
        invariant ns == MapNumbered(start, cfg.prefix, from, i - 1, Hide(cfg.legacy))
        invariant found <==> AnyPresent(start, cfg.prefix, from, i - 1)
      {
        PassKeepsPresence(start, cfg.prefix, from, i, Hide(cfg.legacy));
        var k := IndexOf(ns, NodeName(cfg.prefix, i));
        if k >= 0 {
          var n := ns[k];
          ns := ns[k := n.(position := if cfg.legacy then Vec3(Far, 0.0, 0.0) else n.position.(x := Far))];
          found := true;
        }
        i := i + 1;
      }
      nodes := ns;
      MapNumberedShape(start, cfg.prefix, from, cfg.maxNumber, Hide(cfg.legacy));
    }

    /** Remove the nodes numbered from..maxNumber; found tells whether there was any. */
    method RemoveFrom(from: nat) returns (found: bool)
      requires UniqueIds(nodes)
      modifies this`nodes
      ensures nodes == RemoveNumbered(old(nodes), cfg.prefix, from, cfg.maxNumber)
      ensures UniqueIds(nodes)
      ensures found <==> AnyPresent(old(nodes), cfg.prefix, from, cfg.maxNumber)
    {
      ghost var start := nodes;
      var ns := nodes;
      found := false;
      var i := from;
      while i <= cfg.maxNumber
        invariant from <= i && (i <= cfg.maxNumber + 1 || i == from)
        invariant ns == RemoveNumbered(start, cfg.prefix, from, i - 1)
        invariant found <==> AnyPresent(start, cfg.prefix, from, i - 1)
      {
        RemovalKeepsPresence(start, cfg.prefix, from, i);
        ghost var prev := ns;
        var k := IndexOf(ns, NodeName(cfg.prefix, i));
        if k >= 0 {
          ns := ns[..k] + ns[k + 1..];
          found := true;
        }
        assert ns == RemoveAt(prev, cfg.prefix, i);
        i := i + 1;
      }
      nodes := ns;
      RemoveNumberedShape(start, cfg.prefix, from, cfg.maxNumber);
    }

    /** addRemoveNodes. */
    method AddRemoveNodes(inEditor: bool)
      requires UniqueIds(nodes)
      modifies this`nodes, this`stackSymmetry, this`needShapeUpdate
      ensures nodes == AddRemoved(old(nodes), cfg, numNodes, inEditor)
      ensures stackSymmetry == numNodes - 1
      ensures needShapeUpdate == (old(needShapeUpdate) || cfg.hasBase)
    {
      stackSymmetry := numNodes - 1;
      var t := FindTemplate();
      CreateMissingNodes(t);
      CreateMissingShape(old(nodes), cfg.prefix, numNodes, t);
      var found;
      if inEditor {
        found := HideFrom(numNodes + 1);
      } else {
        found := RemoveFrom(numNodes + 1);
      }
      if cfg.hasBase {
        needShapeUpdate := true;
      }
    }

    /** The placement loop of updateNodePositions. */
    method PlaceNodes(tr: Trig)
      requires numNodes != 0 && cfg.radiusStepLarge != 0.0
      modifies this`nodes
      ensures nodes == MapNumbered(old(nodes), cfg.prefix, 1, numNodes, PlaceEdit(cfg, numNodes, radius, tr))
    {
      var size := NodeSize(numNodes, radius, cfg.radiusStepLarge, tr);
      ghost var e := PlaceEdit(cfg, numNodes, radius, tr);
      var ns := nodes;
      var i := 1;
      while i <= numNodes
        invariant 1 <= i <= numNodes + 1
        invariant ns == MapNumbered(old(nodes), cfg.prefix, 1, i - 1, e)
      {
        ghost var prev := ns;
        var k := IndexOf(ns, NodeName(cfg.prefix, i));
        if k >= 0 {
          var a := Angle(tr.pi, i, numNodes);
          var n := ns[k];
          ns := ns[k := n.(position := Vec3(tr.cos(a) * radius, n.position.y, tr.sin(a) * radius),
                           size := if cfg.shouldResizeNodes then size else n.size)];
          assert ns[k] == EditNode(e, i, n);
        }
        assert ns == EditAt(prev, cfg.prefix, i, e);
        i := i + 1;
      }
      nodes := ns;
    }

    /** updateNodePositions. */
    method UpdateNodePositions(tr: Trig)
      requires UniqueIds(nodes) && cfg.radiusStepLarge != 0.0
      modifies this`nodes
      ensures nodes == Positioned(old(nodes), cfg, numNodes, radius, tr)
      ensures UniqueIds(nodes)
    {
      PlacedFacts(nodes, cfg, numNodes, radius, tr);
      if numNodes != 0 {
        PlaceNodes(tr);
      }
      assert nodes == Placed(old(nodes), cfg, numNodes, radius, tr);
      var found := HideFrom(numNodes + 1);
    }

    /** updateNodes. */
    method UpdateNodes(inEditor: bool, tr: Trig)
      requires UniqueIds(nodes) && cfg.radiusStepLarge != 0.0
      modifies this`nodes, this`stackSymmetry, this`needShapeUpdate
      ensures nodes == Updated(old(nodes), cfg, numNodes, radius, tr, inEditor)
      ensures UniqueIds(nodes)
      ensures stackSymmetry == numNodes - 1
      ensures needShapeUpdate == (old(needShapeUpdate) || cfg.hasBase)
    {
      AddRemovedOutcome(nodes, cfg, numNodes, inEditor);
      AddRemoveNodes(inEditor);
      UpdateNodePositions(tr);
    }

    /** FixedUpdate: a changed radius moves the nodes. */
    method FixedUpdate(tr: Trig)
      requires UniqueIds(nodes) && cfg.radiusStepLarge != 0.0
      modifies this`nodes, this`oldRadius
      ensures oldRadius == radius
      ensures nodes == if old(oldRadius) != radius then Positioned(old(nodes), cfg, numNodes, radius, tr) else old(nodes)
      ensures UniqueIds(nodes)
    {
      if radius != oldRadius {
        oldRadius := radius;
        UpdateNodePositions(tr);
      }
    }

    /**
     * The slider's number applied: the nodes are rebuilt for it, the nodes
     * above it are hidden once more and, if there were any, the fairing base
     * is asked to rebuild after half a second.
     */
    method ApplyNodeCount(tr: Trig)
      requires UniqueIds(nodes) && cfg.radiusStepLarge != 0.0
      modifies this`nodes, this`numNodes, this`numNodesBefore
      modifies this`stackSymmetry, this`needShapeUpdate, this`updateDelay
      ensures UniqueIds(nodes)
      ensures numNodes == uiNumNodes && numNodesBefore == numNodes
      ensures var rebuilt := Updated(old(nodes), cfg, numNodes, radius, tr, true);
        var extra := cfg.hasBase && AnyPresent(rebuilt, cfg.prefix, numNodes + 1, cfg.maxNumber);
        && nodes == MapNumbered(rebuilt, cfg.prefix, numNodes + 1, cfg.maxNumber, Hide(cfg.legacy))
        && stackSymmetry == numNodes - 1
        && needShapeUpdate == (old(needShapeUpdate) || cfg.hasBase)
        && updateDelay == if extra then 0.5 else old(updateDelay)
    {
      numNodes := uiNumNodes;
      numNodesBefore := numNodes;
      UpdateNodes(true, tr);
      ghost var rebuilt := nodes;
      assert rebuilt == Updated(old(nodes), cfg, numNodes, radius, tr, true);
      var removed := HideFrom(numNodes + 1);
      if removed && cfg.hasBase {
        needShapeUpdate := true;
        updateDelay := 0.5;
      }
      assert removed <==> AnyPresent(rebuilt, cfg.prefix, numNodes + 1, cfg.maxNumber);
    }

    /**
     * Update of the current copy: in the editor, a new slider value is
     * refused while a part hangs on any node, and applied otherwise.
     */
    method Update(inEditor: bool, tr: Trig)
      requires UniqueIds(nodes) && cfg.radiusStepLarge != 0.0
      modifies this`nodes, this`numNodes, this`uiNumNodes, this`numNodesBefore
      modifies this`stackSymmetry, this`needShapeUpdate, this`updateDelay
      ensures UniqueIds(nodes)
      ensures !inEditor || old(uiNumNodes) == old(numNodesBefore) ==>
        && nodes == old(nodes) && numNodes == old(numNodes) && uiNumNodes == old(uiNumNodes)
        && numNodesBefore == old(numNodesBefore) && stackSymmetry == old(stackSymmetry)
        && needShapeUpdate == old(needShapeUpdate) && updateDelay == old(updateDelay)
      ensures inEditor && old(uiNumNodes) != old(numNodesBefore) && old(AnyHeld(nodes, cfg, numNodes)) ==>
        && nodes == old(nodes) && numNodes == old(numNodes) && uiNumNodes == old(numNodesBefore)
        && numNodesBefore == old(numNodesBefore) && stackSymmetry == old(stackSymmetry)
        && needShapeUpdate == old(needShapeUpdate) && updateDelay == old(updateDelay)
      ensures inEditor && old(uiNumNodes) != old(numNodesBefore) && !old(AnyHeld(nodes, cfg, numNodes)) ==>
        var rebuilt := Updated(old(nodes), cfg, numNodes, radius, tr, true);
        var extra := cfg.hasBase && AnyPresent(rebuilt, cfg.prefix, numNodes + 1, cfg.maxNumber);
        && numNodes == old(uiNumNodes) && numNodesBefore == numNodes && uiNumNodes == old(uiNumNodes)
        && nodes == MapNumbered(rebuilt, cfg.prefix, numNodes + 1, cfg.maxNumber, Hide(cfg.legacy))
        && stackSymmetry == numNodes - 1
        && needShapeUpdate == (old(needShapeUpdate) || cfg.hasBase)
        && updateDelay == if extra then 0.5 else old(updateDelay)
    {
      if inEditor && uiNumNodes != numNodesBefore {
        var held := CheckNodeAttachments();
        if held {
          uiNumNodes := numNodesBefore;
        } else {
          ApplyNodeCount(tr);
        }
      }
    }

    /**
     * Update of the legacy copy: in the editor, every node above the number
     * in use is removed and, if there was any, the fairing base is asked to
     * rebuild at once.
     */
    method LegacyUpdate(inEditor: bool)
      requires UniqueIds(nodes)
      modifies this`nodes, this`needShapeUpdate, this`updateDelay
      ensures UniqueIds(nodes)
      ensures nodes == if inEditor then RemoveNumbered(old(nodes), cfg.prefix, numNodes + 1, cfg.maxNumber) else old(nodes)
      ensures needShapeUpdate == (old(needShapeUpdate) || (inEditor && cfg.hasBase && AnyPresent(old(nodes), cfg.prefix, numNodes + 1, cfg.maxNumber)))
      ensures updateDelay == if inEditor && cfg.hasBase && AnyPresent(old(nodes), cfg.prefix, numNodes + 1, cfg.maxNumber) then 0.0 else old(updateDelay)
    {
      ghost var hit := inEditor && cfg.hasBase && AnyPresent(nodes, cfg.prefix, numNodes + 1, cfg.maxNumber);
      var removed := false;
      if inEditor {
        removed := RemoveFrom(numNodes + 1);
      }
      if removed && cfg.hasBase {
        needShapeUpdate := true;
        updateDelay := 0.0;
      }
      assert hit == (removed && cfg.hasBase);
    }

    /** IncrementNodes (legacy copy): one more node, unless at the maximum or a part is attached. */
    method IncrementNodes(inEditor: bool, tr: Trig)
      requires UniqueIds(nodes) && cfg.radiusStepLarge != 0.0
      modifies this`nodes, this`numNodes, this`stackSymmetry, this`needShapeUpdate
      ensures UniqueIds(nodes)
      ensures var refused := old(numNodes) >= cfg.maxNumber || old(AnyHeld(nodes, cfg, numNodes));
        && numNodes == (if refused then old(numNodes) else old(numNodes) + 1)
        && nodes == (if refused then old(nodes) else Updated(old(nodes), cfg, numNodes, radius, tr, inEditor))
        && stackSymmetry == (if refused then old(stackSymmetry) else numNodes - 1)
        && needShapeUpdate == (old(needShapeUpdate) || (!refused && cfg.hasBase))
      ensures old(numNodes) <= cfg.maxNumber ==> numNodes <= cfg.maxNumber
    {
      if numNodes >= cfg.maxNumber {
        return;
      }
      var held := CheckNodeAttachments();
      if held {
        return;
      }
      numNodes := numNodes + 1;
      UpdateNodes(inEditor, tr);
    }

    /** DecrementNodes (legacy copy): one node fewer, unless at one or a part is attached. */
    method DecrementNodes(inEditor: bool, tr: Trig)
      requires UniqueIds(nodes) && cfg.radiusStepLarge != 0.0
      modifies this`nodes, this`numNodes, this`stackSymmetry, this`needShapeUpdate
      ensures UniqueIds(nodes)
      ensures var refused := old(numNodes) <= 1 || old(AnyHeld(nodes, cfg, numNodes));
        && numNodes == (if refused then old(numNodes) else old(numNodes) - 1)
        && nodes == (if refused then old(nodes) else Updated(old(nodes), cfg, numNodes, radius, tr, inEditor))
        && stackSymmetry == (if refused then old(stackSymmetry) else numNodes - 1)
        && needShapeUpdate == (old(needShapeUpdate) || (!refused && cfg.hasBase))
      ensures old(numNodes) >= 1 ==> numNodes >= 1
    {
      if numNodes <= 1 {
        return;
      }
      var held := CheckNodeAttachments();
      if held {
        return;
      }
      numNodes := numNodes - 1;
      UpdateNodes(inEditor, tr);
    }

    /** OnLoad: the slider follows the stored number, and in a scene the nodes are rebuilt. */
    method OnLoad(inScene: bool, inEditor: bool, tr: Trig)
      requires UniqueIds(nodes) && cfg.radiusStepLarge != 0.0
      modifies this`nodes, this`uiNumNodes, this`numNodesBefore, this`stackSymmetry, this`needShapeUpdate
      ensures uiNumNodes == numNodes && numNodesBefore == numNodes
      ensures nodes == if inScene then Updated(old(nodes), cfg, numNodes, radius, tr, inEditor) else old(nodes)
      ensures stackSymmetry == if inScene then numNodes - 1 else old(stackSymmetry)
      ensures needShapeUpdate == (old(needShapeUpdate) || (inScene && cfg.hasBase))
      ensures UniqueIds(nodes)
    {
      uiNumNodes := numNodes;
      numNodesBefore := numNodes;
      if inScene {
        UpdateNodes(inEditor, tr);
      }
    }
  }

  /** After updateNodes node i of 1..numNodes exists and stands on the circle at its angle. */
  lemma UpdatedNodeOnCircle(nodes: seq<AttachNode>, cfg: Config, numNodes: nat, radius: real, tr: Trig, inEditor: bool, i: nat)
    requires UniqueIds(nodes) && cfg.radiusStepLarge != 0.0 && 1 <= i <= numNodes
    ensures var n := Lookup(Updated(nodes, cfg, numNodes, radius, tr, inEditor), NodeName(cfg.prefix, i));
      var a := Angle(tr.pi, i, numNodes);
      n.Some? && n.value.position.x == tr.cos(a) * radius && n.value.position.z == tr.sin(a) * radius
  {
    var mid := AddRemoved(nodes, cfg, numNodes, inEditor);
    KeptOrCreated(nodes, cfg, numNodes, inEditor, i);
    OthersUntouched(nodes, cfg, numNodes, inEditor);
    PlacedNode(mid, cfg, numNodes, radius, tr, i);
  }

  /** After updateNodes no node above numNodes is left in flight, and in the editor each is hidden. */
  lemma UpdatedNodeAbove(nodes: seq<AttachNode>, cfg: Config, numNodes: nat, radius: real, tr: Trig, inEditor: bool, i: nat)
    requires UniqueIds(nodes) && cfg.radiusStepLarge != 0.0 && numNodes < i <= cfg.maxNumber
    ensures var n := Lookup(Updated(nodes, cfg, numNodes, radius, tr, inEditor), NodeName(cfg.prefix, i));
      if inEditor then (n.Some? ==> n.value.position.x == Far) else n.None?
  {
    var mid := AddRemoved(nodes, cfg, numNodes, inEditor);
    HiddenOrRemoved(nodes, cfg, numNodes, inEditor, i);
    OthersUntouched(nodes, cfg, numNodes, inEditor);
    HiddenNode(mid, cfg, numNodes, radius, tr, i);
  }
}
