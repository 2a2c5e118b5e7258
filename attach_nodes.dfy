// A part's list of attach nodes as the node tweaker sees it: lookup by id,
// and the passes that create, move, hide and remove the numbered nodes,
// each given as a function of the list before the pass.
module AttachNodes {
  import opened Geometry
  import opened NodeNames

  /** An attach node: its id, placement, size and whether a part hangs on it. */
  datatype AttachNode = AttachNode(id: string, position: Vec3, orientation: Vec3, size: int, attached: bool)

  /** No two nodes of the part share an id. */
  predicate UniqueIds(nodes: seq<AttachNode>) {
    forall a, b :: 0 <= a < b < |nodes| ==> nodes[a].id != nodes[b].id
  }

  /** FindAttachNode: the index of the first node with the id, or -1. */
  function IndexOf(nodes: seq<AttachNode>, id: string): (r: int)
    ensures -1 <= r < |nodes|
    ensures r >= 0 ==> nodes[r].id == id
  {
    if |nodes| == 0 then -1
    else if nodes[0].id == id then 0
    else
      var r := IndexOf(nodes[1..], id);
      if r < 0 then -1 else r + 1
  }

  /** The index found is the first with the id, and -1 means no node has it. */
  lemma {:induction false} IndexOfFirst(nodes: seq<AttachNode>, id: string)
    ensures var r := IndexOf(nodes, id);
      && (r >= 0 ==> forall k :: 0 <= k < r ==> nodes[k].id != id)
      && (r < 0 ==> forall k :: 0 <= k < |nodes| ==> nodes[k].id != id)
  {
    if |nodes| > 0 && nodes[0].id != id {
      IndexOfFirst(nodes[1..], id);
      assert forall k :: 1 <= k < |nodes| ==> nodes[k] == nodes[1..][k - 1];
    }
  }

  /** The node with the id, if there is one. */
  function Lookup(nodes: seq<AttachNode>, id: string): Option<AttachNode> {
    var k := IndexOf(nodes, id);
    if k < 0 then None else Some(nodes[k])
  }

  lemma LookupAt(nodes: seq<AttachNode>, k: int)
    requires UniqueIds(nodes) && 0 <= k < |nodes|
    ensures IndexOf(nodes, nodes[k].id) == k && Lookup(nodes, nodes[k].id) == Some(nodes[k])
  {
    IndexOfFirst(nodes, nodes[k].id);
  }

  /** Replacing a node by one with the same id changes the lookup of that id only. */
  lemma UpdateLookup(nodes: seq<AttachNode>, k: int, v: AttachNode, id: string)
    requires UniqueIds(nodes) && 0 <= k < |nodes| && v.id == nodes[k].id
    ensures UniqueIds(nodes[k := v])
    ensures Lookup(nodes[k := v], id) == if id == v.id then Some(v) else Lookup(nodes, id)
  {
    var r := nodes[k := v];
    assert forall j :: 0 <= j < |r| ==> r[j].id == nodes[j].id;
    IndexOfFirst(nodes, id);
    if id == v.id {
      LookupAt(r, k);
    } else if Lookup(nodes, id).Some? {
      LookupAt(r, IndexOf(nodes, id));
    }
  }

  /** Adding a node with a new id changes the lookup of that id only. */
  lemma AppendLookup(nodes: seq<AttachNode>, v: AttachNode, id: string)
    requires UniqueIds(nodes) && IndexOf(nodes, v.id) < 0
    ensures UniqueIds(nodes + [v])
    ensures Lookup(nodes + [v], id) == if id == v.id then Some(v) else Lookup(nodes, id)
  {
    var r := nodes + [v];
    IndexOfFirst(nodes, v.id);
    IndexOfFirst(nodes, id);
    if id == v.id {
      LookupAt(r, |nodes|);
    } else if Lookup(nodes, id).Some? {
      LookupAt(r, IndexOf(nodes, id));
    }
  }

  /** Removing a node makes its id unknown and keeps every other lookup. */
  lemma RemoveLookup(nodes: seq<AttachNode>, k: int, id: string)
    requires UniqueIds(nodes) && 0 <= k < |nodes|
    ensures UniqueIds(nodes[..k] + nodes[k + 1..])
    ensures Lookup(nodes[..k] + nodes[k + 1..], id) == if id == nodes[k].id then None else Lookup(nodes, id)
  {
    var r := nodes[..k] + nodes[k + 1..];
    assert forall j :: 0 <= j < k ==> r[j] == nodes[j];
    assert forall j :: k <= j < |r| ==> r[j] == nodes[j + 1];
    if id != nodes[k].id && Lookup(nodes, id).Some? {
      var j := IndexOf(nodes, id);
      LookupAt(r, if j < k then j else j - 1);
    } else if id != nodes[k].id {
      IndexOfFirst(nodes, id);
    }
  }

  /** Node i of the tweaker exists. */
  predicate Present(nodes: seq<AttachNode>, prefix: string, i: nat) {
    Lookup(nodes, NodeName(prefix, i)).Some?
  }

  /** Node i of the tweaker exists and a part is attached to it. */
  predicate HeldBy(nodes: seq<AttachNode>, prefix: string, i: nat) {
    var n := Lookup(nodes, NodeName(prefix, i));
    n.Some? && n.value.attached
  }

  /** Some node numbered lo..hi exists (the scan the tweaker's loops make). */
  predicate AnyPresent(nodes: seq<AttachNode>, prefix: string, lo: nat, hi: int)
    decreases hi - lo
  {
    hi >= lo && (AnyPresent(nodes, prefix, lo, hi - 1) || Present(nodes, prefix, hi))
  }

  /** The scan finds a node exactly when one of the numbers has one. */
  lemma {:induction false} AnyPresentMeans(nodes: seq<AttachNode>, prefix: string, lo: nat, hi: int)
    ensures AnyPresent(nodes, prefix, lo, hi) <==> exists i: nat :: lo <= i <= hi && Present(nodes, prefix, i)
    decreases hi - lo
  {
    if hi >= lo {
      AnyPresentMeans(nodes, prefix, lo, hi - 1);
      if AnyPresent(nodes, prefix, lo, hi) {
        if Present(nodes, prefix, hi) {
          assert lo <= hi <= hi && Present(nodes, prefix, hi);
        } else {
          var i: nat :| lo <= i <= hi - 1 && Present(nodes, prefix, i);
          assert lo <= i <= hi && Present(nodes, prefix, i);
        }
      } else {
        assert !AnyPresent(nodes, prefix, lo, hi - 1) && !Present(nodes, prefix, hi);
        assert forall i: nat :: lo <= i <= hi - 1 ==> !Present(nodes, prefix, i);
      }
    }
  }

  // ---------------------------------------------------------------------------
  // Moving and hiding numbered nodes

  /** What a pass does to one numbered node. */
  datatype Edit =
    | /** updateNodePositions: node i of count goes round the circle of the radius. */
      Place(count: int, radius: real, size: int, resize: bool, sin: real -> real, cos: real -> real, pi: real)
    | /** An unused node is moved far away: its x only, or (legacy) its whole position. */
      Hide(legacy: bool)

  predicate ValidEdit(e: Edit) {
    e.Place? ==> e.count != 0
  }

  /** Where unused nodes are parked. */
  const Far: real := 10000.0

  /** The angle of node i of count: 2·π·(i − 1) / count. */
  function Angle(pi: real, i: int, count: int): real
    requires count != 0
  {
    pi * 2.0 * (i - 1) as real / count as real
  }

  function EditNode(e: Edit, i: int, n: AttachNode): AttachNode
    requires ValidEdit(e)
  {
    match e
    case Place(count, radius, size, resize, sin, cos, pi) =>
      var a := Angle(pi, i, count);
      n.(position := Vec3(cos(a) * radius, n.position.y, sin(a) * radius), size := if resize then size else n.size)
    case Hide(legacy) =>
      n.(position := if legacy then Vec3(Far, 0.0, 0.0) else n.position.(x := Far))
  }

  /** One step of a pass: edit node i if it exists. */
  function EditAt(nodes: seq<AttachNode>, prefix: string, i: nat, e: Edit): seq<AttachNode>
    requires ValidEdit(e)
  {
    var k := IndexOf(nodes, NodeName(prefix, i));
    if k < 0 then nodes else nodes[k := EditNode(e, i, nodes[k])]
  }

  /** A pass over the numbers lo..hi. */
  function MapNumbered(nodes: seq<AttachNode>, prefix: string, lo: nat, hi: int, e: Edit): seq<AttachNode>
    requires ValidEdit(e)
    decreases hi - lo
  {
    if hi < lo then nodes else EditAt(MapNumbered(nodes, prefix, lo, hi - 1, e), prefix, hi, e)
  }

  /** The node with the id after the pass: edited when it is numbered lo..hi, as before otherwise. */
  function Edited(nodes: seq<AttachNode>, prefix: string, lo: int, hi: int, e: Edit, id: string): Option<AttachNode>
    requires ValidEdit(e)
  {
    var n := Lookup(nodes, id);
    if n.Some? && Numbered(prefix, id, lo, hi) then Some(EditNode(e, NumberOf(prefix, id), n.value)) else n
  }

  /** A pass edits each existing node numbered lo..hi once, leaves all others alone and creates none. */
  lemma {:induction false} MapNumberedShape(nodes: seq<AttachNode>, prefix: string, lo: nat, hi: int, e: Edit)
    requires ValidEdit(e) && UniqueIds(nodes)
    ensures var r := MapNumbered(nodes, prefix, lo, hi, e);
      && |r| == |nodes| && (forall j :: 0 <= j < |r| ==> r[j].id == nodes[j].id) && UniqueIds(r)
    decreases hi - lo
  {
    if hi >= lo {
      MapNumberedShape(nodes, prefix, lo, hi - 1, e);
    }
  }

  lemma {:induction false} MapNumberedLookup(nodes: seq<AttachNode>, prefix: string, lo: nat, hi: int, e: Edit)
    requires ValidEdit(e) && UniqueIds(nodes)
    ensures var r := MapNumbered(nodes, prefix, lo, hi, e);
      && UniqueIds(r) && |r| == |nodes|
      && forall id :: Lookup(r, id) == Edited(nodes, prefix, lo, hi, e, id)
  {
    MapNumberedShape(nodes, prefix, lo, hi, e);
    forall id
      ensures Lookup(MapNumbered(nodes, prefix, lo, hi, e), id) == Edited(nodes, prefix, lo, hi, e, id)
    {
      EditedAt(nodes, prefix, lo, hi, e, id);
    }
  }

  /** Part way through a pass, node i has not been touched and exists exactly when it did before. */
  lemma PassKeepsPresence(start: seq<AttachNode>, prefix: string, from: nat, i: nat, e: Edit)
    requires UniqueIds(start) && ValidEdit(e) && from <= i
    ensures Lookup(MapNumbered(start, prefix, from, i - 1, e), NodeName(prefix, i)) == Lookup(start, NodeName(prefix, i))
    ensures IndexOf(MapNumbered(start, prefix, from, i - 1, e), NodeName(prefix, i)) >= 0 <==> Present(start, prefix, i)
    ensures AnyPresent(start, prefix, from, i) <==> AnyPresent(start, prefix, from, i - 1) || Present(start, prefix, i)
  {
    EditedAt(start, prefix, from, i - 1, e, NodeName(prefix, i));
    NumberedName(prefix, i, from, i - 1);
  }

  // ---------------------------------------------------------------------------
  // Removing numbered nodes

  /** part.attachNodes.Remove of node i, if it exists. */
  function RemoveAt(nodes: seq<AttachNode>, prefix: string, i: nat): seq<AttachNode> {
    var k := IndexOf(nodes, NodeName(prefix, i));
    if k < 0 then nodes else nodes[..k] + nodes[k + 1..]
  }

  /** Removal of the nodes numbered lo..hi, in increasing order. */
  function RemoveNumbered(nodes: seq<AttachNode>, prefix: string, lo: nat, hi: int): seq<AttachNode>
    decreases hi - lo
  {
    if hi < lo then nodes else RemoveAt(RemoveNumbered(nodes, prefix, lo, hi - 1), prefix, hi)
  }

  /** After the removal no node numbered lo..hi is left, and every other node is. */
  lemma {:induction false} RemoveNumberedShape(nodes: seq<AttachNode>, prefix: string, lo: nat, hi: int)
    requires UniqueIds(nodes)
    ensures UniqueIds(RemoveNumbered(nodes, prefix, lo, hi))
    decreases hi - lo
  {
    if hi >= lo {
      RemoveNumberedShape(nodes, prefix, lo, hi - 1);
      var p := RemoveNumbered(nodes, prefix, lo, hi - 1);
      var k := IndexOf(p, NodeName(prefix, hi));
      if k >= 0 {
        RemoveLookup(p, k, NodeName(prefix, hi));
      }
    }
  }

  lemma {:induction false} RemoveNumberedLookup(nodes: seq<AttachNode>, prefix: string, lo: nat, hi: int)
    requires UniqueIds(nodes)
    ensures var r := RemoveNumbered(nodes, prefix, lo, hi);
      && UniqueIds(r)
      && forall id :: Lookup(r, id) == if Numbered(prefix, id, lo, hi) then None else Lookup(nodes, id)
  {
    RemoveNumberedShape(nodes, prefix, lo, hi);
    forall id
      ensures Lookup(RemoveNumbered(nodes, prefix, lo, hi), id) == if Numbered(prefix, id, lo, hi) then None else Lookup(nodes, id)
    {
      RemovedAt(nodes, prefix, lo, hi, id);
    }
  }

  /** Part way through a removal, node i is still there exactly when it was before. */
  lemma RemovalKeepsPresence(start: seq<AttachNode>, prefix: string, from: nat, i: nat)
    requires UniqueIds(start) && from <= i
    ensures Lookup(RemoveNumbered(start, prefix, from, i - 1), NodeName(prefix, i)) == Lookup(start, NodeName(prefix, i))
    ensures IndexOf(RemoveNumbered(start, prefix, from, i - 1), NodeName(prefix, i)) >= 0 <==> Present(start, prefix, i)
    ensures AnyPresent(start, prefix, from, i) <==> AnyPresent(start, prefix, from, i - 1) || Present(start, prefix, i)
    ensures RemoveNumbered(start, prefix, from, i) == RemoveAt(RemoveNumbered(start, prefix, from, i - 1), prefix, i)
  {
    RemovedAt(start, prefix, from, i - 1, NodeName(prefix, i));
    NumberedName(prefix, i, from, i - 1);
  }

  // ---------------------------------------------------------------------------
  // Creating the missing nodes

  /** The placement a new node copies: the first existing numbered node's height, size and direction. */
  datatype Template = Template(y: real, size: int, dir: Vec3)

  /** A node created for number i. */
  function NewNode(prefix: string, i: nat, t: Template): AttachNode {
    AttachNode(NodeName(prefix, i), Vec3(0.0, t.y, 0.0), t.dir, t.size, false)
  }

  /** The creation loop over 1..hi: every missing number gets a new node at the end of the list. */
  function CreateMissing(nodes: seq<AttachNode>, prefix: string, hi: int, t: Template): seq<AttachNode>
    decreases hi
  {
    if hi < 1 then nodes
    else
      var p := CreateMissing(nodes, prefix, hi - 1, t);
      if IndexOf(p, NodeName(prefix, hi)) >= 0 then p else p + [NewNode(prefix, hi, t)]
  }

  /** The node with the id after creation: as before, or new if it is a missing number 1..hi. */
  function Created(nodes: seq<AttachNode>, prefix: string, hi: int, t: Template, id: string): Option<AttachNode> {
    var n := Lookup(nodes, id);
    if n.None? && Numbered(prefix, id, 1, hi) then Some(NewNode(prefix, NumberOf(prefix, id), t)) else n
  }

  /** Creation keeps the old nodes in place, in front, and adds exactly the missing numbers. */
  lemma {:induction false} CreateMissingShape(nodes: seq<AttachNode>, prefix: string, hi: int, t: Template)
    requires UniqueIds(nodes)
    ensures var r := CreateMissing(nodes, prefix, hi, t);
      && UniqueIds(r) && |nodes| <= |r| && r[..|nodes|] == nodes
    decreases hi
  {
    if hi >= 1 {
      CreateMissingShape(nodes, prefix, hi - 1, t);
      var p := CreateMissing(nodes, prefix, hi - 1, t);
      var v := NewNode(prefix, hi, t);
      if IndexOf(p, v.id) < 0 {
        AppendLookup(p, v, v.id);
        assert (p + [v])[..|nodes|] == p[..|nodes|];
      }
    }
  }

  lemma {:induction false} CreateMissingLookup(nodes: seq<AttachNode>, prefix: string, hi: int, t: Template)
    requires UniqueIds(nodes)
    ensures var r := CreateMissing(nodes, prefix, hi, t);
      && UniqueIds(r) && |nodes| <= |r| && r[..|nodes|] == nodes
      && forall id :: Lookup(r, id) == Created(nodes, prefix, hi, t, id)
  {
    CreateMissingShape(nodes, prefix, hi, t);
    forall id
      ensures Lookup(CreateMissing(nodes, prefix, hi, t), id) == Created(nodes, prefix, hi, t, id)
    {
      CreatedAt(nodes, prefix, hi, t, id);
    }
  }

  /** The first existing node numbered i..hi. */
  function FirstNumbered(nodes: seq<AttachNode>, prefix: string, i: nat, hi: int): Option<AttachNode>
    decreases hi - i
  {
    if hi < i then None
    else
      var n := Lookup(nodes, NodeName(prefix, i));
      if n.Some? then n else FirstNumbered(nodes, prefix, i + 1, hi)
  }

  /** It is node j for the least existing j, and there is one whenever any node i..hi exists. */
  lemma {:induction false} FirstNumberedIsFirst(nodes: seq<AttachNode>, prefix: string, i: nat, hi: int)
    ensures FirstNumbered(nodes, prefix, i, hi).None? ==> forall j: nat :: i <= j <= hi ==> !Present(nodes, prefix, j)
    ensures FirstNumbered(nodes, prefix, i, hi).Some? ==>
      exists j: nat :: i <= j <= hi && Lookup(nodes, NodeName(prefix, j)) == FirstNumbered(nodes, prefix, i, hi)
        && forall m: nat :: i <= m < j ==> !Present(nodes, prefix, m)
    decreases hi - i
  {
    if hi >= i && !Present(nodes, prefix, i) {
      FirstNumberedIsFirst(nodes, prefix, i + 1, hi);
      if FirstNumbered(nodes, prefix, i + 1, hi).Some? {
        var j: nat :| i + 1 <= j <= hi && Lookup(nodes, NodeName(prefix, j)) == FirstNumbered(nodes, prefix, i + 1, hi)
          && forall m: nat :: i + 1 <= m < j ==> !Present(nodes, prefix, m);
        assert forall m: nat :: i <= m < j ==> !Present(nodes, prefix, m);
      }
    }
  }

  /** The template of addRemoveNodes: the first numbered node, else the "bottom" node's height. */
  function TemplateOf(nodes: seq<AttachNode>, prefix: string, maxNumber: int): Template {
    match FirstNumbered(nodes, prefix, 1, maxNumber)
    case Some(n) => Template(n.position.y, n.size, n.orientation)
    case None =>
      var y := match Lookup(nodes, "bottom") case Some(b) => b.position.y case None => 0.0;
      Template(y, 0, Up)
  }

  // ---------------------------------------------------------------------------
  // The same facts for one id at a time

  /** One step of a pass, for one id: editing node hi carries the lookup from lo..hi-1 to lo..hi. */
  lemma EditStep(nodes: seq<AttachNode>, p: seq<AttachNode>, prefix: string, lo: nat, hi: nat, e: Edit, id: string)
    requires ValidEdit(e) && UniqueIds(p) && lo <= hi
    requires Lookup(p, id) == Edited(nodes, prefix, lo, hi - 1, e, id)
    requires Lookup(p, NodeName(prefix, hi)) == Edited(nodes, prefix, lo, hi - 1, e, NodeName(prefix, hi))
    ensures Lookup(EditAt(p, prefix, hi, e), id) == Edited(nodes, prefix, lo, hi, e, id)
  {
    var name := NodeName(prefix, hi);
    NumberOfName(prefix, hi);
    NumberedStep(prefix, id, lo, hi);
    var k := IndexOf(p, name);
    if k >= 0 {
      var v := EditNode(e, hi, p[k]);
      UpdateLookup(p, k, v, id);
      if id == name {
        assert Lookup(nodes, id) == Some(p[k]);
        assert Edited(nodes, prefix, lo, hi, e, id) == Some(v);
      } else {
        assert Edited(nodes, prefix, lo, hi, e, id) == Edited(nodes, prefix, lo, hi - 1, e, id);
      }
    } else if id == name {
      assert Lookup(nodes, id) == None;
    } else {
      assert Edited(nodes, prefix, lo, hi, e, id) == Edited(nodes, prefix, lo, hi - 1, e, id);
    }
  }

  /** The node with the id after a pass over lo..hi. */
  lemma {:induction false} EditedAt(nodes: seq<AttachNode>, prefix: string, lo: nat, hi: int, e: Edit, id: string)
    requires ValidEdit(e) && UniqueIds(nodes)
    ensures UniqueIds(MapNumbered(nodes, prefix, lo, hi, e))
    ensures Lookup(MapNumbered(nodes, prefix, lo, hi, e), id) == Edited(nodes, prefix, lo, hi, e, id)
    decreases hi - lo
  {
    MapNumberedShape(nodes, prefix, lo, hi, e);
    if hi >= lo {
      EditedAt(nodes, prefix, lo, hi - 1, e, id);
      EditedAt(nodes, prefix, lo, hi - 1, e, NodeName(prefix, hi));
      EditStep(nodes, MapNumbered(nodes, prefix, lo, hi - 1, e), prefix, lo, hi, e, id);
    }
  }

  /** One step of a removal, for one id. */
  lemma RemoveStep(nodes: seq<AttachNode>, p: seq<AttachNode>, prefix: string, lo: nat, hi: nat, id: string)
    requires UniqueIds(p) && lo <= hi
    requires Lookup(p, id) == if Numbered(prefix, id, lo, hi - 1) then None else Lookup(nodes, id)
    ensures Lookup(RemoveAt(p, prefix, hi), id) == if Numbered(prefix, id, lo, hi) then None else Lookup(nodes, id)
  {
    var name := NodeName(prefix, hi);
    NumberOfName(prefix, hi);
    NumberedStep(prefix, id, lo, hi);
    var k := IndexOf(p, name);
    if k >= 0 {
      RemoveLookup(p, k, id);
    }
  }

  /** The node with the id after the removal of lo..hi. */
  lemma {:induction false} RemovedAt(nodes: seq<AttachNode>, prefix: string, lo: nat, hi: int, id: string)
    requires UniqueIds(nodes)
    ensures UniqueIds(RemoveNumbered(nodes, prefix, lo, hi))
    ensures Lookup(RemoveNumbered(nodes, prefix, lo, hi), id) == if Numbered(prefix, id, lo, hi) then None else Lookup(nodes, id)
    decreases hi - lo
  {
    RemoveNumberedShape(nodes, prefix, lo, hi);
    if hi >= lo {
      RemovedAt(nodes, prefix, lo, hi - 1, id);
      RemoveStep(nodes, RemoveNumbered(nodes, prefix, lo, hi - 1), prefix, lo, hi, id);
    }
  }

  /** One step of the creation loop, for one id. */
  lemma CreateStep(nodes: seq<AttachNode>, p: seq<AttachNode>, prefix: string, hi: nat, t: Template, id: string)
    requires UniqueIds(p) && 1 <= hi
    requires Lookup(p, id) == Created(nodes, prefix, hi - 1, t, id)
    requires Lookup(p, NodeName(prefix, hi)) == Created(nodes, prefix, hi - 1, t, NodeName(prefix, hi))
    ensures var r := if IndexOf(p, NodeName(prefix, hi)) >= 0 then p else p + [NewNode(prefix, hi, t)];
      Lookup(r, id) == Created(nodes, prefix, hi, t, id)
  {
    var name := NodeName(prefix, hi);
    NumberOfName(prefix, hi);
    NumberedStep(prefix, id, 1, hi);
    if IndexOf(p, name) < 0 {
      AppendLookup(p, NewNode(prefix, hi, t), id);
    }
  }

  /** The node with the id after the creation loop over 1..hi. */
  lemma {:induction false} CreatedAt(nodes: seq<AttachNode>, prefix: string, hi: int, t: Template, id: string)
    requires UniqueIds(nodes)
    ensures UniqueIds(CreateMissing(nodes, prefix, hi, t))
    ensures Lookup(CreateMissing(nodes, prefix, hi, t), id) == Created(nodes, prefix, hi, t, id)
    decreases hi
  {
    CreateMissingShape(nodes, prefix, hi, t);
    if hi >= 1 {
      CreatedAt(nodes, prefix, hi - 1, t, id);
      CreatedAt(nodes, prefix, hi - 1, t, NodeName(prefix, hi));
      CreateStep(nodes, CreateMissing(nodes, prefix, hi - 1, t), prefix, hi, t, id);
    }
  }
}
