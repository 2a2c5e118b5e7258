// The vertex buffer of one fairing side.  rebuildMesh sweeps the
// silhouette through numSegs + 1 horizontal directions: an outer and an
// inner main surface, then the two side strips along the cut edges and
// the base ring (and, inline, the top ring), whose vertices repeat main
// positions with their own normals.  The source keeps positions, normals
// and tangents in parallel arrays; here one array holds all three per
// vertex.  Texture coordinates are not modelled.
module SideVertices {
  import opened Geometry
  import opened ShellMesh

  /** Position, normal and tangent of one mesh vertex. */
  datatype MeshVertex = MeshVertex(pos: Vec3, normal: Vec3, tangent: Vec4)

  /**
   * The inputs of the sweep: the silhouette (x radius, y height, z texture
   * v), the horizontal directions dirs[0..numSegs], the side thickness and
   * whether the fairing is inline (inlineHeight > 0).
   */
  datatype Sweep = Sweep(shape: seq<Vec3>, dirs: seq<Vec3>, th: real, inline: bool)

  predicate ValidSweep(sw: Sweep) {
    |sw.shape| >= 2 && |sw.dirs| >= 1
  }

  /** numSegs. */
  function Segs(sw: Sweep): int {
    |sw.dirs| - 1
  }

  /** Silhouette rows that carry a full ring of main vertices: all but the tip of a closed fairing. */
  function Rows(sw: Sweep): int {
    |sw.shape| - (if sw.inline then 0 else 1)
  }

  // ---------------------------------------------------------------------
  // Main surfaces

  /** The silhouette direction at row i: a one-sided difference at the ends, a central one inside. */
  function ProfileDelta(shape: seq<Vec3>, i: int): Vec2
    requires |shape| >= 2 && 0 <= i < |shape|
  {
    var a := if i == 0 then shape[1] else if i == |shape| - 1 then shape[i] else shape[i + 1];
    var b := if i == 0 then shape[0] else shape[i - 1];
    Vec2(a.x - b.x, a.y - b.y)
  }

  /** The silhouette normal at row i: the direction turned by a quarter, then normalised. */
  function ProfileNormal(shape: seq<Vec3>, i: int, normalize: Vec2 -> Vec2): Vec2
    requires |shape| >= 2 && 0 <= i < |shape|
  {
    var d := ProfileDelta(shape, i);
    normalize(Vec2(d.y, -d.x))
  }

  /** The point (x, y) of the silhouette plane turned to the horizontal direction d: d * x + up * y. */
  function Swept(d: Vec3, x: real, y: real): Vec3 {
    Add3(Scale3(d, x), Scale3(Up, y))
  }

  /**
   * A main vertex for silhouette point p, direction d and profile normal n.
   * The inner vertex is the swept point; the outer one is pushed out by the
   * thickness, horizontally on the first and last rows, along the normal
   * elsewhere.  Normals and tangents of the two surfaces are opposite.
   */
  function MainVertexFrom(p: Vec3, d: Vec3, n: Vec2, th: real, edge: bool, inner: bool): MeshVertex {
    var dp := Swept(d, p.x, p.y);
    var dn := Swept(d, n.x, n.y);
    if inner then MeshVertex(dp, Neg3(dn), Vec4(d.z, 0.0, -d.x, 0.0))
    else MeshVertex(Add3(dp, Scale3(if edge then d else dn, th)), dn, Vec4(-d.z, 0.0, d.x, 0.0))
  }

  function MainVertex(sw: Sweep, normalize: Vec2 -> Vec2, i: int, j: int, inner: bool): MeshVertex
    requires ValidSweep(sw) && 0 <= i < |sw.shape| && 0 <= j < |sw.dirs|
  {
    MainVertexFrom(sw.shape[i], sw.dirs[j], ProfileNormal(sw.shape, i, normalize), sw.th,
                   i == 0 || i == |sw.shape| - 1, inner)
  }

  /** The apex of a closed fairing: on the axis at the tip height, the outer one raised by the thickness. */
  function Apex(sw: Sweep, inner: bool): MeshVertex
    requires ValidSweep(sw)
  {
    var topY := sw.shape[|sw.shape| - 1].y;
    if inner then MeshVertex(Vec3(0.0, topY, 0.0), Neg3(Up), Vec4(0.0, 0.0, 0.0, 0.0))
    else MeshVertex(Vec3(0.0, topY + sw.th, 0.0), Up, Vec4(0.0, 0.0, 0.0, 0.0))
  }

  /** The first k vertices of row i. */
  function RowVerts(sw: Sweep, normalize: Vec2 -> Vec2, i: int, k: int, inner: bool): (r: seq<MeshVertex>)
    requires ValidSweep(sw) && 0 <= i < |sw.shape| && 0 <= k <= |sw.dirs|
    ensures |r| == k
  {
    if k == 0 then [] else RowVerts(sw, normalize, i, k - 1, inner) + [MainVertex(sw, normalize, i, k - 1, inner)]
  }

  /** The first r full rows. */
  function RowsVerts(sw: Sweep, normalize: Vec2 -> Vec2, r: int, inner: bool): seq<MeshVertex>
    requires ValidSweep(sw) && 0 <= r <= |sw.shape|
  {
    if r == 0 then [] else RowsVerts(sw, normalize, r - 1, inner) + RowVerts(sw, normalize, r - 1, |sw.dirs|, inner)
  }

  /** One main surface: its rows, then the apex of a closed fairing. */
  function SurfaceVerts(sw: Sweep, normalize: Vec2 -> Vec2, inner: bool): seq<MeshVertex>
    requires ValidSweep(sw)
  {
    RowsVerts(sw, normalize, Rows(sw), inner) + (if sw.inline then [] else [Apex(sw, inner)])
  }

  // ---------------------------------------------------------------------
  // Strips and rings: vertex pairs copying an outer and an inner main position

  datatype Block = LowStrip | HighStrip | BaseRing | TopRing

  /** Pairs in a block: one per silhouette point for the strips, one per direction for the rings. */
  function BlockLen(sw: Sweep, b: Block): int {
    if b == LowStrip || b == HighStrip then |sw.shape| else |sw.dirs|
  }

  /**
   * The main vertex pair k of a block copies.  The strip at direction 0
   * walks up the first column, the one at direction numSegs up the last,
   * both ending at the apex of a closed fairing; the base ring runs over
   * row 0 from direction numSegs down to 0, the top ring over the last row
   * upwards.
   */
  function SourceOf(sw: Sweep, normalize: Vec2 -> Vec2, b: Block, k: int, inner: bool): MeshVertex
    requires ValidSweep(sw) && 0 <= k < BlockLen(sw, b)
  {
    var last := |sw.shape| - 1;
    match b
    case LowStrip => if !sw.inline && k == last then Apex(sw, inner) else MainVertex(sw, normalize, k, 0, inner)
    case HighStrip => if !sw.inline && k == last then Apex(sw, inner) else MainVertex(sw, normalize, k, Segs(sw), inner)
    case BaseRing => MainVertex(sw, normalize, 0, Segs(sw) - k, inner)
    case TopRing => MainVertex(sw, normalize, last, k, inner)
  }

  /** The normal shared by a block's vertices: facing out of the cut at either side, down at the base, up at the top. */
  function BlockNormal(sw: Sweep, b: Block): Vec3
    requires ValidSweep(sw)
  {
    match b
    case LowStrip => var d := sw.dirs[0]; Vec3(d.z, 0.0, -d.x)
    case HighStrip => var d := sw.dirs[Segs(sw)]; Vec3(-d.z, 0.0, d.x)
    case BaseRing => Neg3(Up)
    case TopRing => Up
  }

  /** A strip or ring pair: both take the block normal and the unit vector from outer to inner as tangent. */
  function StripPair(a: Vec3, b: Vec3, normal: Vec3, unit: Vec3 -> Vec3): seq<MeshVertex> {
    var t := unit(Sub3(b, a));
    [MeshVertex(a, normal, Vec4(t.x, t.y, t.z, 0.0)), MeshVertex(b, normal, Vec4(t.x, t.y, t.z, 0.0))]
  }

  function PairOf(sw: Sweep, normalize: Vec2 -> Vec2, unit: Vec3 -> Vec3, b: Block, k: int): (r: seq<MeshVertex>)
    requires ValidSweep(sw) && 0 <= k < BlockLen(sw, b)
    ensures |r| == 2
  {
    StripPair(SourceOf(sw, normalize, b, k, false).pos, SourceOf(sw, normalize, b, k, true).pos, BlockNormal(sw, b), unit)
  }

  /** Pairs lo..hi-1 of a block. */
  function Pairs(sw: Sweep, normalize: Vec2 -> Vec2, unit: Vec3 -> Vec3, b: Block, lo: int, hi: int): (r: seq<MeshVertex>)
    requires ValidSweep(sw) && 0 <= lo && hi <= BlockLen(sw, b)
    ensures |r| == if hi <= lo then 0 else 2 * (hi - lo)
    decreases hi - lo
  {
    if hi <= lo then [] else Pairs(sw, normalize, unit, b, lo, hi - 1) + PairOf(sw, normalize, unit, b, hi - 1)
  }

  /** The strips and rings after both main surfaces. */
  function EdgeVerts(sw: Sweep, normalize: Vec2 -> Vec2, unit: Vec3 -> Vec3): seq<MeshVertex>
    requires ValidSweep(sw)
  {
    var len, m := |sw.shape|, |sw.dirs|;
    (Pairs(sw, normalize, unit, LowStrip, 0, len) + Pairs(sw, normalize, unit, HighStrip, 0, len))
    + (Pairs(sw, normalize, unit, BaseRing, 0, m) + (if sw.inline then Pairs(sw, normalize, unit, TopRing, 0, m) else []))
  }

  /** The vertex buffer before the last pass sets every tangent's w to 1. */
  function VertexBuffer(sw: Sweep, normalize: Vec2 -> Vec2, unit: Vec3 -> Vec3): seq<MeshVertex>
    requires ValidSweep(sw)
  {
    (SurfaceVerts(sw, normalize, false) + SurfaceVerts(sw, normalize, true)) + EdgeVerts(sw, normalize, unit)
  }

  function Finish(v: MeshVertex): MeshVertex {
    v.(tangent := v.tangent.(w := 1.0))
  }

  /** The buffer the mesh receives: every tangent with w = 1. */
  function Finished(s: seq<MeshVertex>): (r: seq<MeshVertex>)
    ensures |r| == |s|
  {
    seq(|s|, k requires 0 <= k < |s| => Finish(s[k]))
  }

  // ---------------------------------------------------------------------
  // Layout of the main surfaces

  lemma {:induction false} RowVertsIndex(sw: Sweep, normalize: Vec2 -> Vec2, i: int, k: int, j: int, inner: bool)
    requires ValidSweep(sw) && 0 <= i < |sw.shape| && 0 <= j < k <= |sw.dirs|
    ensures RowVerts(sw, normalize, i, k, inner)[j] == MainVertex(sw, normalize, i, j, inner)
  {
    if j < k - 1 {
      RowVertsIndex(sw, normalize, i, k - 1, j, inner);
    }
  }

  lemma {:induction false} RowsVertsLength(sw: Sweep, normalize: Vec2 -> Vec2, r: int, inner: bool)
    requires ValidSweep(sw) && 0 <= r <= |sw.shape|
    ensures |RowsVerts(sw, normalize, r, inner)| == r * |sw.dirs|
  {
    if r > 0 {
      RowsVertsLength(sw, normalize, r - 1, inner);
      MulSucc(r - 1, |sw.dirs|);
    }
  }

  /** Vertex j of row i sits at i * (numSegs + 1) + j. */
  lemma {:induction false} RowsVertsIndex(sw: Sweep, normalize: Vec2 -> Vec2, r: int, i: int, j: int, inner: bool)
    requires ValidSweep(sw) && 0 <= i < r <= |sw.shape| && 0 <= j < |sw.dirs|
    ensures i * |sw.dirs| + j < r * |sw.dirs| == |RowsVerts(sw, normalize, r, inner)|
    ensures RowsVerts(sw, normalize, r, inner)[i * |sw.dirs| + j] == MainVertex(sw, normalize, i, j, inner)
  {
    var m := |sw.dirs|;
    RowsVertsLength(sw, normalize, r - 1, inner);
    RowsVertsLength(sw, normalize, r, inner);
    MulSucc(r - 1, m);
    if i < r - 1 {
      RowsVertsIndex(sw, normalize, r - 1, i, j, inner);
    } else {
      RowVertsIndex(sw, normalize, i, m, j, inner);
    }
  }

  /** A main surface holds numMainVerts vertices, as the counts say. */
  lemma SurfaceLength(sw: Sweep, normalize: Vec2 -> Vec2, inner: bool)
    requires ValidSweep(sw)
    ensures |SurfaceVerts(sw, normalize, inner)| == Counts(Segs(sw), |sw.shape|, sw.inline).mainVerts
    ensures |SurfaceVerts(sw, normalize, inner)| == Rows(sw) * |sw.dirs| + (if sw.inline then 0 else 1)
  {
    RowsVertsLength(sw, normalize, Rows(sw), inner);
    var len, ns, m := |sw.shape|, Segs(sw), |sw.dirs|;
    assert ns + 1 == m;
    if sw.inline {
      assert Counts(ns, len, true).mainVerts == m * len;
    } else {
      assert Counts(ns, len, false).mainVerts == m * (len - 1) + 1;
    }
  }

  /** Where the loops and the strips find main vertex (i, j) and the apex. */
  lemma SurfaceIndex(sw: Sweep, normalize: Vec2 -> Vec2, i: int, j: int, inner: bool)
    requires ValidSweep(sw) && 0 <= i < Rows(sw) && 0 <= j < |sw.dirs|
    ensures i * |sw.dirs| + j < Rows(sw) * |sw.dirs| <= |SurfaceVerts(sw, normalize, inner)|
    ensures SurfaceVerts(sw, normalize, inner)[i * |sw.dirs| + j] == MainVertex(sw, normalize, i, j, inner)
  {
    RowsVertsIndex(sw, normalize, Rows(sw), i, j, inner);
    RowsVertsLength(sw, normalize, Rows(sw), inner);
  }

  lemma SurfaceApex(sw: Sweep, normalize: Vec2 -> Vec2, inner: bool)
    requires ValidSweep(sw) && !sw.inline
    ensures Rows(sw) * |sw.dirs| < |SurfaceVerts(sw, normalize, inner)|
    ensures SurfaceVerts(sw, normalize, inner)[Rows(sw) * |sw.dirs|] == Apex(sw, inner)
  {
    RowsVertsLength(sw, normalize, Rows(sw), inner);
  }

  lemma MulLe(a: nat, b: nat, c: nat)
    requires a <= b
    ensures a * c <= b * c
  {
  }

  /** Row j of rows, m vertices each, ends where row i == j + 1 starts, within the rows. */
  lemma RowFits(j: nat, i: nat, rows: nat, m: nat)
    requires i == j + 1 <= rows
    ensures i * m == j * m + m && i * m <= rows * m
  {
    MulLe(i, rows, m);
  }

  // ---------------------------------------------------------------------
  // The vertex loops of rebuildMesh

  /** The apex vertices of a closed fairing, written before the main loop. */
  method FillApex(verts: array<MeshVertex>, sw: Sweep, nmv: int)
    requires ValidSweep(sw) && 1 <= nmv && 2 * nmv <= verts.Length
    modifies verts
    ensures verts[nmv - 1] == Apex(sw, false) && verts[2 * nmv - 1] == Apex(sw, true)
    ensures verts[..nmv - 1] == old(verts[..nmv - 1]) && verts[nmv..2 * nmv - 1] == old(verts[nmv..2 * nmv - 1])
    ensures verts[2 * nmv..] == old(verts[2 * nmv..])
  {
    var topY := sw.shape[|sw.shape| - 1].y;
    verts[nmv - 1] := MeshVertex(Vec3(0.0, topY + sw.th, 0.0), Up, Vec4(0.0, 0.0, 0.0, 0.0));
    verts[nmv * 2 - 1] := MeshVertex(Vec3(0.0, topY, 0.0), Neg3(Up), Vec4(0.0, 0.0, 0.0, 0.0));
  }

  /** The inner loop of the main vertices: row i, outer at v0 and inner at numMainVerts + v0. */
  method FillRowVerts(verts: array<MeshVertex>, sw: Sweep, normalize: Vec2 -> Vec2, i: int, v0: int, nmv: int)
    returns (vi: int)
    requires ValidSweep(sw) && 0 <= i < |sw.shape|
    requires 0 <= v0 && v0 + |sw.dirs| <= nmv && nmv + v0 + |sw.dirs| <= verts.Length
    modifies verts
    ensures vi == v0 + |sw.dirs|
    ensures verts[v0..vi] == RowVerts(sw, normalize, i, |sw.dirs|, false)
    ensures verts[nmv + v0..nmv + vi] == RowVerts(sw, normalize, i, |sw.dirs|, true)
    ensures verts[..v0] == old(verts[..v0]) && verts[vi..nmv + v0] == old(verts[vi..nmv + v0]) && verts[nmv + vi..] == old(verts[nmv + vi..])
  {
    var p := sw.shape[i];
    var n := ProfileNormal(sw.shape, i, normalize);
    var edge := i == 0 || i == |sw.shape| - 1;
    ghost var orig := verts[..];
    vi := v0;
    for j := 0 to |sw.dirs|
      invariant vi == v0 + j
      invariant verts[v0..vi] == RowVerts(sw, normalize, i, j, false)
      invariant verts[nmv + v0..nmv + vi] == RowVerts(sw, normalize, i, j, true)
      invariant verts[..v0] == orig[..v0] && verts[vi..nmv + v0] == orig[vi..nmv + v0] && verts[nmv + vi..] == orig[nmv + vi..]
    {
      RowVertStep(verts, sw, normalize, i, j, v0, vi, nmv, p, n, edge, orig);
      vi := vi + 1;
    }
  }

  /** One pass of the inner main loop: vertex j of row i on both surfaces, from the row's point p and normal n. */
  method RowVertStep(verts: array<MeshVertex>, sw: Sweep, normalize: Vec2 -> Vec2, i: int, j: int, v0: int, vi: int, nmv: int,
                     p: Vec3, n: Vec2, edge: bool, ghost orig: seq<MeshVertex>)
    requires ValidSweep(sw) && 0 <= i < |sw.shape| && 0 <= j < |sw.dirs|
    requires p == sw.shape[i] && n == ProfileNormal(sw.shape, i, normalize) && edge == (i == 0 || i == |sw.shape| - 1)
    requires 0 <= v0 && vi == v0 + j && v0 + |sw.dirs| <= nmv && nmv + v0 + |sw.dirs| <= verts.Length == |orig|
    requires verts[v0..vi] == RowVerts(sw, normalize, i, j, false)
    requires verts[nmv + v0..nmv + vi] == RowVerts(sw, normalize, i, j, true)
    requires verts[..v0] == orig[..v0] && verts[vi..nmv + v0] == orig[vi..nmv + v0] && verts[nmv + vi..] == orig[nmv + vi..]
    modifies verts
    ensures verts[v0..vi + 1] == RowVerts(sw, normalize, i, j + 1, false)
    ensures verts[nmv + v0..nmv + (vi + 1)] == RowVerts(sw, normalize, i, j + 1, true)
    ensures verts[..v0] == orig[..v0] && verts[vi + 1..nmv + v0] == orig[vi + 1..nmv + v0]
    ensures verts[nmv + (vi + 1)..] == orig[nmv + (vi + 1)..]
  {
    ghost var before := verts[..];
    var d := sw.dirs[j];
    PutVertexPair(verts, v0, vi, MainVertexFrom(p, d, n, sw.th, edge, false), nmv, MainVertexFrom(p, d, n, sw.th, edge, true));
    Narrow(before, orig, vi, nmv + v0, vi + 1, nmv + v0);
    Narrow(before, orig, nmv + vi, |orig|, nmv + vi + 1, |orig|);
  }

  /** One pass of the inner main loop: an outer vertex appended at vi, its inner twin at numMainVerts + vi. */
  method PutVertexPair(verts: array<MeshVertex>, v0: int, vi: int, outer: MeshVertex, nmv: int, inner: MeshVertex)
    requires 0 <= v0 <= vi && vi + 1 <= nmv + v0 && nmv + vi + 1 <= verts.Length
    modifies verts
    ensures verts[v0..vi + 1] == old(verts[v0..vi]) + [outer]
    ensures verts[nmv + v0..nmv + vi + 1] == old(verts[nmv + v0..nmv + vi]) + [inner]
    ensures verts[..v0] == old(verts[..v0]) && verts[vi + 1..nmv + v0] == old(verts[vi + 1..nmv + v0]) && verts[nmv + vi + 1..] == old(verts[nmv + vi + 1..])
  {
    PutPair(verts, v0, vi, [outer], nmv + v0, nmv + vi, [inner], 1);
  }

  /** One pass of the outer main loop: row i appended to both surfaces. */
  method VertexRowStep(verts: array<MeshVertex>, sw: Sweep, normalize: Vec2 -> Vec2, v0: int, nmv: int, i: int,
                       ghost orig: seq<MeshVertex>)
    returns (vi: int)
    requires ValidSweep(sw) && 0 <= i < |sw.shape|
    requires 0 <= v0 && v0 + |sw.dirs| <= nmv && nmv + v0 + |sw.dirs| <= verts.Length == |orig|
    requires verts[..v0] == RowsVerts(sw, normalize, i, false)
    requires verts[nmv..nmv + v0] == RowsVerts(sw, normalize, i, true)
    requires verts[v0..nmv] == orig[v0..nmv] && verts[nmv + v0..] == orig[nmv + v0..]
    modifies verts
    ensures vi == v0 + |sw.dirs|
    ensures verts[..vi] == RowsVerts(sw, normalize, i + 1, false)
    ensures verts[nmv..nmv + vi] == RowsVerts(sw, normalize, i + 1, true)
    ensures verts[vi..nmv] == orig[vi..nmv] && verts[nmv + vi..] == orig[nmv + vi..]
  {
    vi := FillRowVerts(verts, sw, normalize, i, v0, nmv);
    TwoBlocksGrow(verts[..], old(verts[..]), v0, vi, nmv);
    FrameStep(verts[..], old(verts[..]), orig, v0, vi, nmv);
  }

  /** Appending to two blocks: the unchanged prefixes followed by what was just written. */
  lemma TwoBlocksGrow<T>(cur: seq<T>, prev: seq<T>, v0: int, vi: int, half: int)
    requires 0 <= v0 <= vi <= half && half + vi <= |cur| == |prev|
    requires cur[..v0] == prev[..v0] && cur[vi..half + v0] == prev[vi..half + v0]
    ensures cur[..vi] == prev[..v0] + cur[v0..vi]
    ensures cur[half..half + vi] == prev[half..half + v0] + cur[half + v0..half + vi]
  {
    assert cur[..vi] == cur[..v0] + cur[v0..vi];
    assert cur[half..half + vi] == cur[half..half + v0] + cur[half + v0..half + vi];
    Narrow(cur, prev, vi, half + v0, half, half + v0);
  }

  /** What a row step leaves alone stays as it was before the whole loop. */
  lemma FrameStep<T>(cur: seq<T>, prev: seq<T>, orig: seq<T>, v0: int, vi: int, half: int)
    requires 0 <= v0 <= vi <= half && half + vi <= |cur| == |prev| == |orig|
    requires cur[vi..half + v0] == prev[vi..half + v0] && cur[half + vi..] == prev[half + vi..]
    requires prev[v0..half] == orig[v0..half] && prev[half + v0..] == orig[half + v0..]
    ensures cur[vi..half] == orig[vi..half] && cur[half + vi..] == orig[half + vi..]
  {
    Narrow(cur, prev, vi, half + v0, vi, half);
    Narrow(prev, orig, v0, half, vi, half);
    SuffixKept(prev, orig, half + v0, half + vi);
  }

  /** The main vertex loop: every full row on both surfaces. */
  method FillMainVerts(verts: array<MeshVertex>, sw: Sweep, normalize: Vec2 -> Vec2, nmv: int)
    returns (vi: int)
    requires ValidSweep(sw) && Rows(sw) * |sw.dirs| <= nmv && nmv + Rows(sw) * |sw.dirs| <= verts.Length
    modifies verts
    ensures vi == Rows(sw) * |sw.dirs|
    ensures verts[..vi] == RowsVerts(sw, normalize, Rows(sw), false)
    ensures verts[nmv..nmv + vi] == RowsVerts(sw, normalize, Rows(sw), true)
    ensures verts[vi..nmv] == old(verts[vi..nmv]) && verts[nmv + vi..] == old(verts[nmv + vi..])
  {
    var rows, m := Rows(sw), |sw.dirs|;
    ghost var total := rows * m;
    ghost var orig := verts[..];
    var i := 0;
    vi := 0;
    while i < rows
      invariant 0 <= i <= rows && vi == i * m && 0 <= vi <= total
      invariant verts[..vi] == RowsVerts(sw, normalize, i, false)
      invariant verts[nmv..nmv + vi] == RowsVerts(sw, normalize, i, true)
      invariant verts[vi..nmv] == orig[vi..nmv] && verts[nmv + vi..] == orig[nmv + vi..]
    {
      ghost var j := i;
      RowFits(j, i + 1, rows, m);
      vi := VertexRowStep(verts, sw, normalize, vi, nmv, i, orig);
      i := i + 1;
      RowFits(j, i, rows, m);
    }
  }

  /** Both main surfaces: the apex of a closed fairing first, then the rows. */
  method FillSurfaces(verts: array<MeshVertex>, sw: Sweep, normalize: Vec2 -> Vec2, nmv: int)
    requires ValidSweep(sw) && nmv == Rows(sw) * |sw.dirs| + (if sw.inline then 0 else 1)
    requires 2 * nmv <= verts.Length
    modifies verts
    ensures verts[..nmv] == SurfaceVerts(sw, normalize, false)
    ensures verts[nmv..2 * nmv] == SurfaceVerts(sw, normalize, true)
    ensures verts[2 * nmv..] == old(verts[2 * nmv..])
  {
    if !sw.inline {
      FillApex(verts, sw, nmv);
    }
    ghost var before := verts[..];
    var vi := FillMainVerts(verts, sw, normalize, nmv);
    SuffixKept(verts[..], before, nmv + vi, 2 * nmv);
    if !sw.inline {
      assert verts[vi] == verts[vi..nmv][0] == before[vi];
      assert verts[..nmv] == verts[..vi] + [verts[vi]];
      assert verts[nmv + vi] == verts[nmv + vi..][0] == before[nmv + vi];
      assert verts[nmv..2 * nmv] == verts[nmv..nmv + vi] + [verts[nmv + vi]];
    } else {
      assert verts[..nmv] == verts[..vi];
    }
  }

  // ---------------------------------------------------------------------
  // Strip and ring loops

  /** Where the strip at direction 0 finds its pair: column 0 of row i, or the apex at the tip of a closed fairing. */
  lemma LowSourceAt(sw: Sweep, normalize: Vec2 -> Vec2, i: int, inner: bool)
    requires ValidSweep(sw) && 0 <= i < |sw.shape|
    ensures i * |sw.dirs| < |SurfaceVerts(sw, normalize, inner)|
    ensures SurfaceVerts(sw, normalize, inner)[i * |sw.dirs|] == SourceOf(sw, normalize, LowStrip, i, inner)
  {
    if i < Rows(sw) {
      SurfaceIndex(sw, normalize, i, 0, inner);
    } else {
      SurfaceApex(sw, normalize, inner);
    }
  }

  /** Where the strip at direction numSegs finds its pair: the last column of row i, or the apex (the last main vertex) at the tip of a closed fairing. */
  function HighSource(sw: Sweep, nmv: int, i: int): int
    requires ValidSweep(sw)
  {
    if i == |sw.shape| - 1 && !sw.inline then nmv - 1 else i * |sw.dirs| + Segs(sw)
  }

  lemma HighSourceAt(sw: Sweep, normalize: Vec2 -> Vec2, nmv: int, i: int, inner: bool)
    requires ValidSweep(sw) && 0 <= i < |sw.shape| && nmv == |SurfaceVerts(sw, normalize, inner)|
    ensures 0 <= HighSource(sw, nmv, i) < nmv
    ensures SurfaceVerts(sw, normalize, inner)[HighSource(sw, nmv, i)] == SourceOf(sw, normalize, HighStrip, i, inner)
  {
    SurfaceLength(sw, normalize, inner);
    if i == |sw.shape| - 1 && !sw.inline {
      SurfaceApex(sw, normalize, inner);
    } else {
      SurfaceIndex(sw, normalize, i, Segs(sw), inner);
    }
  }

  /**
   * One pass of a strip or ring loop: the pair copied from main vertex si
   * of both surfaces, written at vi.
   */
  method PairStep(verts: array<MeshVertex>, sw: Sweep, normalize: Vec2 -> Vec2, unit: Vec3 -> Vec3, b: Block, k: int,
                  si: int, nmv: int, vi: int, normal: Vec3)
    requires ValidSweep(sw) && 0 <= k < BlockLen(sw, b) && normal == BlockNormal(sw, b)
    requires 0 <= si < nmv && 2 * nmv <= vi && vi + 2 <= verts.Length
    requires verts[..nmv] == SurfaceVerts(sw, normalize, false) && verts[nmv..2 * nmv] == SurfaceVerts(sw, normalize, true)
    requires SurfaceVerts(sw, normalize, false)[si] == SourceOf(sw, normalize, b, k, false)
    requires SurfaceVerts(sw, normalize, true)[si] == SourceOf(sw, normalize, b, k, true)
    modifies verts
    ensures verts[vi..vi + 2] == PairOf(sw, normalize, unit, b, k)
    ensures verts[..vi] == old(verts[..vi]) && verts[vi + 2..] == old(verts[vi + 2..])
  {
    ReadBoth(verts[..], nmv, si, SurfaceVerts(sw, normalize, false), SurfaceVerts(sw, normalize, true));
    var a := verts[si].pos;
    var c := verts[si + nmv].pos;
    var q := StripPair(a, c, normal, unit);
    assert q == PairOf(sw, normalize, unit, b, k);
    Put(verts, vi, q);
  }

  /** Entry si of both halves of a buffer that starts with two blocks of nmv. */
  lemma ReadBoth<T>(s: seq<T>, nmv: int, si: int, s0: seq<T>, s1: seq<T>)
    requires 0 <= si < nmv && 2 * nmv <= |s| && s[..nmv] == s0 && s[nmv..2 * nmv] == s1
    ensures s[si] == s0[si] && s[si + nmv] == s1[si]
  {
    assert s[si] == s[..nmv][si];
    assert s[si + nmv] == s[nmv..2 * nmv][si];
  }

  /** A write of q at vi, inside [lo, hi) and past both surfaces, seen from the surfaces and from either end of the block. */
  lemma AfterPair<T>(cur: seq<T>, prev: seq<T>, nmv: int, lo: int, vi: int, hi: int, q: seq<T>)
    requires 0 <= nmv && 2 * nmv <= lo <= vi && vi + |q| <= hi <= |cur| == |prev|
    requires cur[vi..vi + |q|] == q && cur[..vi] == prev[..vi] && cur[vi + |q|..] == prev[vi + |q|..]
    ensures cur[..nmv] == prev[..nmv] && cur[nmv..2 * nmv] == prev[nmv..2 * nmv]
    ensures cur[..lo] == prev[..lo] && cur[hi..] == prev[hi..]
    ensures cur[lo..vi + |q|] == prev[lo..vi] + q
    ensures cur[vi..hi] == q + prev[vi + |q|..hi]
  {
    Narrow(cur, prev, 0, vi, 0, nmv);
    Narrow(cur, prev, 0, vi, nmv, 2 * nmv);
    Narrow(cur, prev, 0, vi, 0, lo);
    Narrow(cur, prev, 0, vi, lo, vi);
    SuffixKept(cur, prev, vi + |q|, hi);
    Narrow(cur, prev, vi + |q|, |cur|, vi + |q|, hi);
    assert cur[lo..vi + |q|] == cur[lo..vi] + cur[vi..vi + |q|];
    assert cur[vi..hi] == cur[vi..vi + |q|] + cur[vi + |q|..hi];
  }

  /** One pass of the strip loop at direction 0: the pair for point i of the profile appended at vi. */
  method LowStripStep(verts: array<MeshVertex>, sw: Sweep, normalize: Vec2 -> Vec2, unit: Vec3 -> Vec3, i: int,
                      nmv: int, base: int, vi: int, top: int, ghost orig: seq<MeshVertex>)
    requires ValidSweep(sw) && 0 <= i < |sw.shape| && vi == base + 2 * i
    requires 0 <= nmv && 2 * nmv <= base && base + 2 * |sw.shape| == top <= verts.Length == |orig|
    requires verts[..nmv] == SurfaceVerts(sw, normalize, false) && verts[nmv..2 * nmv] == SurfaceVerts(sw, normalize, true)
    requires verts[base..vi] == Pairs(sw, normalize, unit, LowStrip, 0, i)
    requires verts[..base] == orig[..base] && verts[top..] == orig[top..]
    modifies verts
    ensures verts[..nmv] == SurfaceVerts(sw, normalize, false) && verts[nmv..2 * nmv] == SurfaceVerts(sw, normalize, true)
    ensures verts[base..vi + 2] == Pairs(sw, normalize, unit, LowStrip, 0, i + 1)
    ensures verts[..base] == orig[..base] && verts[top..] == orig[top..]
  {
    var si := i * |sw.dirs|;
    LowSourceAt(sw, normalize, i, false);
    LowSourceAt(sw, normalize, i, true);
    AppendPair(verts, sw, normalize, unit, LowStrip, i, si, nmv, base, vi, top, BlockNormal(sw, LowStrip), orig);
  }

  /** The strip along direction 0: a pair for every point of the profile. */
  method FillLowStrip(verts: array<MeshVertex>, sw: Sweep, normalize: Vec2 -> Vec2, unit: Vec3 -> Vec3, nmv: int, base: int)
    returns (vi: int)
    requires ValidSweep(sw) && 0 <= nmv && 2 * nmv <= base && base + 2 * |sw.shape| <= verts.Length
    requires verts[..nmv] == SurfaceVerts(sw, normalize, false) && verts[nmv..2 * nmv] == SurfaceVerts(sw, normalize, true)
    modifies verts
    ensures verts[..nmv] == SurfaceVerts(sw, normalize, false) && verts[nmv..2 * nmv] == SurfaceVerts(sw, normalize, true)
    ensures vi == base + 2 * |sw.shape|
    ensures verts[base..vi] == Pairs(sw, normalize, unit, LowStrip, 0, |sw.shape|)
    ensures verts[..base] == old(verts[..base]) && verts[vi..] == old(verts[vi..])
  {
    var top := base + 2 * |sw.shape|;
    ghost var orig := verts[..];
    vi := base;
    for i := 0 to |sw.shape|
      invariant vi == base + 2 * i
      invariant verts[..nmv] == SurfaceVerts(sw, normalize, false) && verts[nmv..2 * nmv] == SurfaceVerts(sw, normalize, true)
      invariant verts[base..vi] == Pairs(sw, normalize, unit, LowStrip, 0, i)
      invariant verts[..base] == orig[..base] && verts[top..] == orig[top..]
    {
      LowStripStep(verts, sw, normalize, unit, i, nmv, base, vi, top, orig);
      vi := vi + 2;
    }
  }

  /** A pass of an upward strip or ring loop: pair k appended to the block that starts at base. */
  method AppendPair(verts: array<MeshVertex>, sw: Sweep, normalize: Vec2 -> Vec2, unit: Vec3 -> Vec3, b: Block, k: int,
                    si: int, nmv: int, base: int, vi: int, top: int, normal: Vec3, ghost orig: seq<MeshVertex>)
    requires ValidSweep(sw) && 0 <= k < BlockLen(sw, b) && normal == BlockNormal(sw, b)
    requires 0 <= si < nmv && 2 * nmv <= base <= vi && vi + 2 <= top <= verts.Length == |orig|
    requires verts[..nmv] == SurfaceVerts(sw, normalize, false) && verts[nmv..2 * nmv] == SurfaceVerts(sw, normalize, true)
    requires SurfaceVerts(sw, normalize, false)[si] == SourceOf(sw, normalize, b, k, false)
    requires SurfaceVerts(sw, normalize, true)[si] == SourceOf(sw, normalize, b, k, true)
    requires verts[base..vi] == Pairs(sw, normalize, unit, b, 0, k)
    requires verts[..base] == orig[..base] && verts[top..] == orig[top..]
    modifies verts
    ensures verts[..nmv] == SurfaceVerts(sw, normalize, false) && verts[nmv..2 * nmv] == SurfaceVerts(sw, normalize, true)
    ensures verts[base..vi + 2] == Pairs(sw, normalize, unit, b, 0, k + 1)
    ensures verts[..base] == orig[..base] && verts[top..] == orig[top..]
  {
    ghost var prev := verts[..];
    ghost var q, done := PairOf(sw, normalize, unit, b, k), Pairs(sw, normalize, unit, b, 0, k);
    assert |q| == 2 && prev[base..vi] == done;
    PairStep(verts, sw, normalize, unit, b, k, si, nmv, vi, normal);
    AfterPair(verts[..], prev, nmv, base, vi, top, q);
  }

  /** A pass of the downward strip loop: pair k put in front of the pairs above it, up to top. */
  method PrependPair(verts: array<MeshVertex>, sw: Sweep, normalize: Vec2 -> Vec2, unit: Vec3 -> Vec3, b: Block, k: int,
                     si: int, nmv: int, base: int, vi: int, top: int, normal: Vec3, ghost orig: seq<MeshVertex>)
    requires ValidSweep(sw) && 0 <= k < BlockLen(sw, b) && normal == BlockNormal(sw, b)
    requires 0 <= si < nmv && 2 * nmv <= base <= vi && vi + 2 <= top <= verts.Length == |orig|
    requires top - vi == 2 * (BlockLen(sw, b) - k)
    requires verts[..nmv] == SurfaceVerts(sw, normalize, false) && verts[nmv..2 * nmv] == SurfaceVerts(sw, normalize, true)
    requires SurfaceVerts(sw, normalize, false)[si] == SourceOf(sw, normalize, b, k, false)
    requires SurfaceVerts(sw, normalize, true)[si] == SourceOf(sw, normalize, b, k, true)
    requires verts[vi + 2..top] == Pairs(sw, normalize, unit, b, k + 1, BlockLen(sw, b))
    requires verts[..base] == orig[..base] && verts[top..] == orig[top..]
    modifies verts
    ensures verts[..nmv] == SurfaceVerts(sw, normalize, false) && verts[nmv..2 * nmv] == SurfaceVerts(sw, normalize, true)
    ensures verts[vi..top] == Pairs(sw, normalize, unit, b, k, BlockLen(sw, b))
    ensures verts[..base] == orig[..base] && verts[top..] == orig[top..]
  {
    ghost var prev := verts[..];
    ghost var q, rest := PairOf(sw, normalize, unit, b, k), Pairs(sw, normalize, unit, b, k + 1, BlockLen(sw, b));
    assert |q| == 2 && prev[vi + 2..top] == rest;
    PairStep(verts, sw, normalize, unit, b, k, si, nmv, vi, normal);
    AfterPair(verts[..], prev, nmv, base, vi, top, q);
    PairsCons(sw, normalize, unit, b, k, BlockLen(sw, b));
  }

  /** Pairs lo..hi-1 start with pair lo. */
  lemma {:induction false} PairsCons(sw: Sweep, normalize: Vec2 -> Vec2, unit: Vec3 -> Vec3, b: Block, lo: int, hi: int)
    requires ValidSweep(sw) && 0 <= lo < hi <= BlockLen(sw, b)
    ensures Pairs(sw, normalize, unit, b, lo, hi) == PairOf(sw, normalize, unit, b, lo) + Pairs(sw, normalize, unit, b, lo + 1, hi)
    decreases hi - lo
  {
    if lo < hi - 1 {
      PairsCons(sw, normalize, unit, b, lo, hi - 1);
    }
  }

  /** One pass of the strip loop at direction numSegs: the pair for point i of the profile placed just below the ones already written. */
  method HighStripStep(verts: array<MeshVertex>, sw: Sweep, normalize: Vec2 -> Vec2, unit: Vec3 -> Vec3, i: int,
                       nmv: int, base: int, vi: int, top: int, ghost orig: seq<MeshVertex>)
    requires ValidSweep(sw) && 0 <= i < |sw.shape| && vi == base + 2 * i
    requires 0 <= nmv && 2 * nmv <= base && base + 2 * |sw.shape| == top <= verts.Length == |orig|
    requires verts[..nmv] == SurfaceVerts(sw, normalize, false) && verts[nmv..2 * nmv] == SurfaceVerts(sw, normalize, true)
    requires verts[vi + 2..top] == Pairs(sw, normalize, unit, HighStrip, i + 1, |sw.shape|)
    requires verts[..base] == orig[..base] && verts[top..] == orig[top..]
    modifies verts
    ensures verts[..nmv] == SurfaceVerts(sw, normalize, false) && verts[nmv..2 * nmv] == SurfaceVerts(sw, normalize, true)
    ensures verts[vi..top] == Pairs(sw, normalize, unit, HighStrip, i, |sw.shape|)
    ensures verts[..base] == orig[..base] && verts[top..] == orig[top..]
  {
    var si := HighSource(sw, nmv, i);
    HighSourceAt(sw, normalize, nmv, i, false);
    HighSourceAt(sw, normalize, nmv, i, true);
    PrependPair(verts, sw, normalize, unit, HighStrip, i, si, nmv, base, vi, top, BlockNormal(sw, HighStrip), orig);
  }

  /** The strip along direction numSegs, written from the tip of the profile back to its base. */
  method FillHighStrip(verts: array<MeshVertex>, sw: Sweep, normalize: Vec2 -> Vec2, unit: Vec3 -> Vec3, nmv: int, base: int)
    requires ValidSweep(sw) && 0 <= nmv && 2 * nmv <= base && base + 2 * |sw.shape| <= verts.Length
    requires verts[..nmv] == SurfaceVerts(sw, normalize, false) && verts[nmv..2 * nmv] == SurfaceVerts(sw, normalize, true)
    modifies verts
    ensures verts[..nmv] == SurfaceVerts(sw, normalize, false) && verts[nmv..2 * nmv] == SurfaceVerts(sw, normalize, true)
    ensures verts[base..base + 2 * |sw.shape|] == Pairs(sw, normalize, unit, HighStrip, 0, |sw.shape|)
    ensures verts[..base] == old(verts[..base]) && verts[base + 2 * |sw.shape|..] == old(verts[base + 2 * |sw.shape|..])
  {
    var top := base + 2 * |sw.shape|;
    ghost var orig := verts[..];
    for i := |sw.shape| downto 0
      invariant verts[..nmv] == SurfaceVerts(sw, normalize, false) && verts[nmv..2 * nmv] == SurfaceVerts(sw, normalize, true)
      invariant verts[base + 2 * i..top] == Pairs(sw, normalize, unit, HighStrip, i, |sw.shape|)
      invariant verts[..base] == orig[..base] && verts[top..] == orig[top..]
    {
      HighStripStep(verts, sw, normalize, unit, i, nmv, base, base + 2 * i, top, orig);
    }
  }

  /** Pair k of the base ring comes from column numSegs - k of the bottom row. */
  lemma BaseSourceAt(sw: Sweep, normalize: Vec2 -> Vec2, j: int, inner: bool)
    requires ValidSweep(sw) && 0 <= j < |sw.dirs|
    ensures j < |SurfaceVerts(sw, normalize, inner)|
    ensures SurfaceVerts(sw, normalize, inner)[j] == SourceOf(sw, normalize, BaseRing, Segs(sw) - j, inner)
  {
    SurfaceIndex(sw, normalize, 0, j, inner);
  }

  /** Pair j of the top ring of an inline fairing comes from column j of the last row. */
  lemma TopSourceAt(sw: Sweep, normalize: Vec2 -> Vec2, nmv: int, j: int, inner: bool)
    requires ValidSweep(sw) && sw.inline && 0 <= j < |sw.dirs| && nmv == |SurfaceVerts(sw, normalize, inner)|
    ensures 0 <= (|sw.shape| - 1) * |sw.dirs| + j < nmv
    ensures SurfaceVerts(sw, normalize, inner)[(|sw.shape| - 1) * |sw.dirs| + j] == SourceOf(sw, normalize, TopRing, j, inner)
  {
    SurfaceIndex(sw, normalize, |sw.shape| - 1, j, inner);
  }

  /** One pass of the base ring loop: the pair copied from column j of the bottom row. */
  method BaseRingStep(verts: array<MeshVertex>, sw: Sweep, normalize: Vec2 -> Vec2, unit: Vec3 -> Vec3, j: int,
                      ghost k: int, nmv: int, base: int, vi: int, top: int, ghost orig: seq<MeshVertex>)
    requires ValidSweep(sw) && 0 <= j < |sw.dirs| && k == Segs(sw) - j && vi == base + 2 * k
    requires 0 <= nmv && 2 * nmv <= base && base + 2 * |sw.dirs| == top <= verts.Length == |orig|
    requires verts[..nmv] == SurfaceVerts(sw, normalize, false) && verts[nmv..2 * nmv] == SurfaceVerts(sw, normalize, true)
    requires verts[base..vi] == Pairs(sw, normalize, unit, BaseRing, 0, k)
    requires verts[..base] == orig[..base] && verts[top..] == orig[top..]
    modifies verts
    ensures verts[..nmv] == SurfaceVerts(sw, normalize, false) && verts[nmv..2 * nmv] == SurfaceVerts(sw, normalize, true)
    ensures verts[base..vi + 2] == Pairs(sw, normalize, unit, BaseRing, 0, k + 1)
    ensures verts[..base] == orig[..base] && verts[top..] == orig[top..]
  {
    var pos := Segs(sw) - j;
    assert pos == k && vi + 2 <= top;
    BaseSourceAt(sw, normalize, j, false);
    BaseSourceAt(sw, normalize, j, true);
    AppendPair(verts, sw, normalize, unit, BaseRing, pos, j, nmv, base, vi, top, BlockNormal(sw, BaseRing), orig);
  }

  /** The ring closing the base of the shell: columns numSegs down to 0 of the bottom row. */
  method FillBaseRing(verts: array<MeshVertex>, sw: Sweep, normalize: Vec2 -> Vec2, unit: Vec3 -> Vec3, nmv: int, base: int)
    requires ValidSweep(sw) && 0 <= nmv && 2 * nmv <= base && base + 2 * |sw.dirs| <= verts.Length
    requires verts[..nmv] == SurfaceVerts(sw, normalize, false) && verts[nmv..2 * nmv] == SurfaceVerts(sw, normalize, true)
    modifies verts
    ensures verts[..nmv] == SurfaceVerts(sw, normalize, false) && verts[nmv..2 * nmv] == SurfaceVerts(sw, normalize, true)
    ensures verts[base..base + 2 * |sw.dirs|] == Pairs(sw, normalize, unit, BaseRing, 0, |sw.dirs|)
    ensures verts[..base] == old(verts[..base]) && verts[base + 2 * |sw.dirs|..] == old(verts[base + 2 * |sw.dirs|..])
  {
    var top := base + 2 * |sw.dirs|;
    ghost var orig := verts[..];
    var vi := base;
    var j := Segs(sw);
    ghost var k := 0;
    assert verts[base..vi] == [] == Pairs(sw, normalize, unit, BaseRing, 0, k);
    while j >= 0
      invariant -1 <= j <= Segs(sw) && k == Segs(sw) - j && vi == base + 2 * k
      invariant verts[..nmv] == SurfaceVerts(sw, normalize, false) && verts[nmv..2 * nmv] == SurfaceVerts(sw, normalize, true)
      invariant verts[base..vi] == Pairs(sw, normalize, unit, BaseRing, 0, k)
      invariant verts[..base] == orig[..base] && verts[top..] == orig[top..]
    {
      BaseRingStep(verts, sw, normalize, unit, j, k, nmv, base, vi, top, orig);
      j, k, vi := j - 1, k + 1, vi + 2;
    }
    assert k == |sw.dirs| && vi == top;
  }

  /** One pass of the top ring loop: the pair copied from column j of the last row. */
  method TopRingStep(verts: array<MeshVertex>, sw: Sweep, normalize: Vec2 -> Vec2, unit: Vec3 -> Vec3, j: int,
                     nmv: int, base: int, vi: int, top: int, ghost orig: seq<MeshVertex>)
    requires ValidSweep(sw) && sw.inline && 0 <= j < |sw.dirs| && vi == base + 2 * j
    requires 0 <= nmv && 2 * nmv <= base && base + 2 * |sw.dirs| == top <= verts.Length == |orig|
    requires verts[..nmv] == SurfaceVerts(sw, normalize, false) && verts[nmv..2 * nmv] == SurfaceVerts(sw, normalize, true)
    requires verts[base..vi] == Pairs(sw, normalize, unit, TopRing, 0, j)
    requires verts[..base] == orig[..base] && verts[top..] == orig[top..]
    modifies verts
    ensures verts[..nmv] == SurfaceVerts(sw, normalize, false) && verts[nmv..2 * nmv] == SurfaceVerts(sw, normalize, true)
    ensures verts[base..vi + 2] == Pairs(sw, normalize, unit, TopRing, 0, j + 1)
    ensures verts[..base] == orig[..base] && verts[top..] == orig[top..]
  {
    var si := (|sw.shape| - 1) * |sw.dirs|;
    TopSourceAt(sw, normalize, nmv, j, false);
    TopSourceAt(sw, normalize, nmv, j, true);
    AppendPair(verts, sw, normalize, unit, TopRing, j, si + j, nmv, base, vi, top, BlockNormal(sw, TopRing), orig);
  }

  /** The ring closing the top of an inline fairing: columns 0 to numSegs of the last row. */
  method FillTopRing(verts: array<MeshVertex>, sw: Sweep, normalize: Vec2 -> Vec2, unit: Vec3 -> Vec3, nmv: int, base: int)
    requires ValidSweep(sw) && sw.inline && 0 <= nmv && 2 * nmv <= base && base + 2 * |sw.dirs| <= verts.Length
    requires verts[..nmv] == SurfaceVerts(sw, normalize, false) && verts[nmv..2 * nmv] == SurfaceVerts(sw, normalize, true)
    modifies verts
    ensures verts[..nmv] == SurfaceVerts(sw, normalize, false) && verts[nmv..2 * nmv] == SurfaceVerts(sw, normalize, true)
    ensures verts[base..base + 2 * |sw.dirs|] == Pairs(sw, normalize, unit, TopRing, 0, |sw.dirs|)
    ensures verts[..base] == old(verts[..base]) && verts[base + 2 * |sw.dirs|..] == old(verts[base + 2 * |sw.dirs|..])
  {
    var top := base + 2 * |sw.dirs|;
    ghost var orig := verts[..];
    var vi := base;
    for j := 0 to |sw.dirs|
      invariant vi == base + 2 * j
      invariant verts[..nmv] == SurfaceVerts(sw, normalize, false) && verts[nmv..2 * nmv] == SurfaceVerts(sw, normalize, true)
      invariant verts[base..vi] == Pairs(sw, normalize, unit, TopRing, 0, j)
      invariant verts[..base] == orig[..base] && verts[top..] == orig[top..]
    {
      TopRingStep(verts, sw, normalize, unit, j, nmv, base, vi, top, orig);
      vi := vi + 2;
    }
  }

  // ---------------------------------------------------------------------
  // The whole vertex buffer

  /** The edge blocks hold two strips of a pair per profile point and one or two rings of a pair per direction. */
  lemma EdgeLength(sw: Sweep, normalize: Vec2 -> Vec2, unit: Vec3 -> Vec3)
    requires ValidSweep(sw)
    ensures |EdgeVerts(sw, normalize, unit)| == 4 * |sw.shape| + 2 * |sw.dirs| + (if sw.inline then 2 * |sw.dirs| else 0)
  {
  }

  /** Two blocks written one after the other, the second leaving the first alone, lie side by side. */
  lemma Glue<T>(t: seq<T>, before: seq<T>, b1: int, b2: int, b3: int, x: seq<T>, y: seq<T>)
    requires 0 <= b1 <= b2 <= b3 <= |t| == |before|
    requires before[b1..b2] == x && t[..b2] == before[..b2] && t[b2..b3] == y
    ensures t[b1..b3] == x + y
  {
    Narrow(t, before, 0, b2, b1, b2);
    SliceSplit(t, b1, b2, b3);
  }

  /** The two side strips, one after the other from base. */
  method FillStrips(verts: array<MeshVertex>, sw: Sweep, normalize: Vec2 -> Vec2, unit: Vec3 -> Vec3, nmv: int, base: int)
    requires ValidSweep(sw) && 0 <= nmv && 2 * nmv <= base && base + 4 * |sw.shape| <= verts.Length
    requires verts[..nmv] == SurfaceVerts(sw, normalize, false) && verts[nmv..2 * nmv] == SurfaceVerts(sw, normalize, true)
    modifies verts
    ensures verts[base..base + 4 * |sw.shape|]
      == Pairs(sw, normalize, unit, LowStrip, 0, |sw.shape|) + Pairs(sw, normalize, unit, HighStrip, 0, |sw.shape|)
    ensures verts[..base] == old(verts[..base]) && verts[base + 4 * |sw.shape|..] == old(verts[base + 4 * |sw.shape|..])
  {
    var b2 := FillLowStrip(verts, sw, normalize, unit, nmv, base);
    var b3 := b2 + 2 * |sw.shape|;
    ghost var before := verts[..];
    FillHighStrip(verts, sw, normalize, unit, nmv, b2);
    Glue(verts[..], before, base, b2, b3, Pairs(sw, normalize, unit, LowStrip, 0, |sw.shape|),
         Pairs(sw, normalize, unit, HighStrip, 0, |sw.shape|));
    Narrow(verts[..], before, 0, b2, 0, base);
    Narrow(before, old(verts[..]), 0, base, 0, base);
    SuffixKept(before, old(verts[..]), b2, b3);
  }

  /** The base ring, then for an inline fairing the top ring, from base. */
  method FillRings(verts: array<MeshVertex>, sw: Sweep, normalize: Vec2 -> Vec2, unit: Vec3 -> Vec3, nmv: int, base: int)
    requires ValidSweep(sw) && 0 <= nmv && 2 * nmv <= base
    requires base + 2 * |sw.dirs| + (if sw.inline then 2 * |sw.dirs| else 0) == verts.Length
    requires verts[..nmv] == SurfaceVerts(sw, normalize, false) && verts[nmv..2 * nmv] == SurfaceVerts(sw, normalize, true)
    modifies verts
    ensures verts[base..]
      == Pairs(sw, normalize, unit, BaseRing, 0, |sw.dirs|) + (if sw.inline then Pairs(sw, normalize, unit, TopRing, 0, |sw.dirs|) else [])
    ensures verts[..base] == old(verts[..base])
  {
    var b2 := base + 2 * |sw.dirs|;
    ghost var br := Pairs(sw, normalize, unit, BaseRing, 0, |sw.dirs|);
    FillBaseRing(verts, sw, normalize, unit, nmv, base);
    if sw.inline {
      AddTopRing(verts, sw, normalize, unit, nmv, base, b2);
    } else {
      assert verts[base..] == verts[base..b2];
    }
  }

  /** The top ring of an inline fairing, written after the base ring. */
  method AddTopRing(verts: array<MeshVertex>, sw: Sweep, normalize: Vec2 -> Vec2, unit: Vec3 -> Vec3, nmv: int, base: int, b2: int)
    requires ValidSweep(sw) && sw.inline && 0 <= nmv && 2 * nmv <= base && b2 == base + 2 * |sw.dirs|
    requires b2 + 2 * |sw.dirs| == verts.Length
    requires verts[..nmv] == SurfaceVerts(sw, normalize, false) && verts[nmv..2 * nmv] == SurfaceVerts(sw, normalize, true)
    requires verts[base..b2] == Pairs(sw, normalize, unit, BaseRing, 0, |sw.dirs|)
    modifies verts
    ensures verts[base..] == Pairs(sw, normalize, unit, BaseRing, 0, |sw.dirs|) + Pairs(sw, normalize, unit, TopRing, 0, |sw.dirs|)
    ensures verts[..base] == old(verts[..base])
  {
    ghost var before := verts[..];
    FillTopRing(verts, sw, normalize, unit, nmv, b2);
    ghost var t := verts[..];
    assert t[..b2] == before[..b2] && t[b2..] == Pairs(sw, normalize, unit, TopRing, 0, |sw.dirs|);
    GlueTail(t, before, base, b2, Pairs(sw, normalize, unit, BaseRing, 0, |sw.dirs|), Pairs(sw, normalize, unit, TopRing, 0, |sw.dirs|));
  }

  /** Strips and rings after the two main surfaces. */
  method FillEdges(verts: array<MeshVertex>, sw: Sweep, normalize: Vec2 -> Vec2, unit: Vec3 -> Vec3, nmv: int)
    requires ValidSweep(sw) && 0 <= nmv && verts.Length == 2 * nmv + |EdgeVerts(sw, normalize, unit)|
    requires verts[..nmv] == SurfaceVerts(sw, normalize, false) && verts[nmv..2 * nmv] == SurfaceVerts(sw, normalize, true)
    modifies verts
    ensures verts[..2 * nmv] == old(verts[..2 * nmv]) && verts[2 * nmv..] == EdgeVerts(sw, normalize, unit)
  {
    EdgeLength(sw, normalize, unit);
    var b1 := 2 * nmv;
    var b2 := b1 + 4 * |sw.shape|;
    ghost var strips := Pairs(sw, normalize, unit, LowStrip, 0, |sw.shape|) + Pairs(sw, normalize, unit, HighStrip, 0, |sw.shape|);
    ghost var rings := Pairs(sw, normalize, unit, BaseRing, 0, |sw.dirs|) + (if sw.inline then Pairs(sw, normalize, unit, TopRing, 0, |sw.dirs|) else []);
    FillStrips(verts, sw, normalize, unit, nmv, b1);
    ghost var before := verts[..];
    Narrow(verts[..], old(verts[..]), 0, b1, 0, nmv);
    Narrow(verts[..], old(verts[..]), 0, b1, nmv, b1);
    FillRings(verts, sw, normalize, unit, nmv, b2);
    GlueTail(verts[..], before, b1, b2, strips, rings);
  }

  /** The closing loop: every tangent gets w = 1. */
  method FinishTangents(verts: array<MeshVertex>)
    modifies verts
    ensures verts[..] == Finished(old(verts[..]))
  {
    for i := 0 to verts.Length
      invariant verts[..i] == Finished(old(verts[..i]))
      invariant verts[i..] == old(verts[i..])
    {
      var v := verts[i];
      assert v == old(verts[i..])[0];
      verts[i] := v.(tangent := v.tangent.(w := 1.0));
      assert verts[..i + 1] == verts[..i] + [Finish(v)];
      assert old(verts[..i + 1]) == old(verts[..i]) + [v];
    }
  }

  /**
   * The vertex half of the shell mesh: both main surfaces, the strips and
   * rings, with the tangent sign set last.
   */
  method BuildVertices(sw: Sweep, normalize: Vec2 -> Vec2, unit: Vec3 -> Vec3) returns (verts: array<MeshVertex>)
    requires ValidSweep(sw)
    ensures fresh(verts)
    ensures verts.Length == Counts(Segs(sw), |sw.shape|, sw.inline).totalVerts
    ensures verts[..] == Finished(VertexBuffer(sw, normalize, unit))
  {
    var c := Counts(Segs(sw), |sw.shape|, sw.inline);
    var nmv := c.mainVerts;
    BufferLength(sw, normalize, unit);
    var zero := Vec3(0.0, 0.0, 0.0);
    verts := new MeshVertex[c.totalVerts](_ => MeshVertex(zero, zero, Vec4(0.0, 0.0, 0.0, 0.0)));
    FillSurfaces(verts, sw, normalize, nmv);
    ghost var mid := verts[..];
    FillEdges(verts, sw, normalize, unit, nmv);
    Narrow(verts[..], mid, 0, 2 * nmv, 0, nmv);
    Narrow(verts[..], mid, 0, 2 * nmv, nmv, 2 * nmv);
    Join3(verts[..], nmv, SurfaceVerts(sw, normalize, false), SurfaceVerts(sw, normalize, true), EdgeVerts(sw, normalize, unit));
    FinishTangents(verts);
  }

  /** The buffer's length is the vertex count the shell mesh allots. */
  lemma BufferLength(sw: Sweep, normalize: Vec2 -> Vec2, unit: Vec3 -> Vec3)
    requires ValidSweep(sw)
    ensures var c := Counts(Segs(sw), |sw.shape|, sw.inline);
      && c.mainVerts == |SurfaceVerts(sw, normalize, false)| == |SurfaceVerts(sw, normalize, true)|
      && c.mainVerts == Rows(sw) * |sw.dirs| + (if sw.inline then 0 else 1)
      && c.totalVerts == 2 * c.mainVerts + |EdgeVerts(sw, normalize, unit)|
  {
    SurfaceLength(sw, normalize, false);
    SurfaceLength(sw, normalize, true);
    EdgeLength(sw, normalize, unit);
  }

  /** A sequence cut into two equal halves and a rest is their concatenation. */
  lemma Join3<T>(t: seq<T>, n: int, a: seq<T>, b: seq<T>, c: seq<T>)
    requires 0 <= n && 2 * n <= |t| && t[..n] == a && t[n..2 * n] == b && t[2 * n..] == c
    ensures t == (a + b) + c
  {
    assert t == t[..n] + t[n..2 * n] + t[2 * n..];
  }

  // ---------------------------------------------------------------------
  // Properties of the vertex buffer

  /** Every main vertex's tangent is horizontal and orthogonal to its normal, on both surfaces. */
  lemma MainTangentOrthogonal(sw: Sweep, normalize: Vec2 -> Vec2, i: int, j: int, inner: bool)
    requires ValidSweep(sw) && 0 <= i < |sw.shape| && 0 <= j < |sw.dirs|
    ensures var v := MainVertex(sw, normalize, i, j, inner);
      v.tangent.y == 0.0 && v.tangent.w == 0.0
      && v.tangent.x * v.normal.x + v.tangent.y * v.normal.y + v.tangent.z * v.normal.z == 0.0
  {
    var d := sw.dirs[j];
    var n := ProfileNormal(sw.shape, i, normalize);
    var dn := Swept(d, n.x, n.y);
    assert dn.x == d.x * n.x && dn.z == d.z * n.x;
    assert -d.z * (d.x * n.x) + d.x * (d.z * n.x) == 0.0;
  }

  /**
   * The two surfaces are a shell of the side thickness: the outer vertex is
   * the inner one pushed by th, horizontally along the direction on the
   * first and last silhouette rows and along the outer normal elsewhere;
   * the inner normal and tangent are the outer ones reversed.
   */
  lemma ShellOffset(sw: Sweep, normalize: Vec2 -> Vec2, i: int, j: int)
    requires ValidSweep(sw) && 0 <= i < |sw.shape| && 0 <= j < |sw.dirs|
    ensures var o, n := MainVertex(sw, normalize, i, j, false), MainVertex(sw, normalize, i, j, true);
      var push := if i == 0 || i == |sw.shape| - 1 then sw.dirs[j] else o.normal;
      o.pos == Add3(n.pos, Scale3(push, sw.th))
      && n.normal == Neg3(o.normal)
      && n.tangent == Vec4(-o.tangent.x, -o.tangent.y, -o.tangent.z, o.tangent.w)
  {
  }

  /**
   * The inner surface is the silhouette turned about the vertical axis: for
   * a horizontal unit direction the inner vertex lies at the silhouette's
   * height and at its radius squared from the axis.
   */
  lemma InnerOnRevolution(sw: Sweep, normalize: Vec2 -> Vec2, i: int, j: int)
    requires ValidSweep(sw) && 0 <= i < |sw.shape| && 0 <= j < |sw.dirs|
    requires sw.dirs[j].y == 0.0 && sw.dirs[j].x * sw.dirs[j].x + sw.dirs[j].z * sw.dirs[j].z == 1.0
    ensures var v, p := MainVertex(sw, normalize, i, j, true).pos, sw.shape[i];
      v.y == p.y && v.x * v.x + v.z * v.z == p.x * p.x
  {
    var d, p := sw.dirs[j], sw.shape[i];
    var v := MainVertex(sw, normalize, i, j, true).pos;
    assert v == Vec3(d.x * p.x, p.y, d.z * p.x);
    calc {
      v.x * v.x + v.z * v.z;
      == (d.x * d.x + d.z * d.z) * (p.x * p.x);
      == p.x * p.x;
    }
  }

  /** Pair k of a block sits at 2 * (k - lo) of the pairs from lo. */
  lemma {:induction false} PairsAt(sw: Sweep, normalize: Vec2 -> Vec2, unit: Vec3 -> Vec3, b: Block, lo: int, hi: int, k: int)
    requires ValidSweep(sw) && 0 <= lo <= k < hi <= BlockLen(sw, b)
    ensures 2 * (k - lo) + 1 < |Pairs(sw, normalize, unit, b, lo, hi)|
    ensures Pairs(sw, normalize, unit, b, lo, hi)[2 * (k - lo)] == PairOf(sw, normalize, unit, b, k)[0]
    ensures Pairs(sw, normalize, unit, b, lo, hi)[2 * (k - lo) + 1] == PairOf(sw, normalize, unit, b, k)[1]
    decreases hi
  {
    if k < hi - 1 {
      PairsAt(sw, normalize, unit, b, lo, hi - 1, k);
    }
  }

  /** Where block b starts among the edge vertices, which follow the two main surfaces. */
  function EdgeOffset(sw: Sweep, b: Block): (r: int)
    ensures r >= 0
  {
    var len, m := |sw.shape|, |sw.dirs|;
    match b
    case LowStrip => 0
    case HighStrip => 2 * len
    case BaseRing => 4 * len
    case TopRing => 4 * len + 2 * m
  }

  /** The main vertex whose positions pair k of block b repeats. */
  function SourceIndex(sw: Sweep, nmv: int, b: Block, k: int): int
    requires ValidSweep(sw)
  {
    match b
    case LowStrip => k * |sw.dirs|
    case HighStrip => HighSource(sw, nmv, k)
    case BaseRing => Segs(sw) - k
    case TopRing => (|sw.shape| - 1) * |sw.dirs| + k
  }

  lemma SourceIndexAt(sw: Sweep, normalize: Vec2 -> Vec2, nmv: int, b: Block, k: int, inner: bool)
    requires ValidSweep(sw) && 0 <= k < BlockLen(sw, b) && (b == TopRing ==> sw.inline)
    requires nmv == |SurfaceVerts(sw, normalize, inner)|
    ensures 0 <= SourceIndex(sw, nmv, b, k) < nmv
    ensures SurfaceVerts(sw, normalize, inner)[SourceIndex(sw, nmv, b, k)] == SourceOf(sw, normalize, b, k, inner)
  {
    match b
    case LowStrip => LowSourceAt(sw, normalize, k, inner);
    case HighStrip => HighSourceAt(sw, normalize, nmv, k, inner);
    case BaseRing => BaseSourceAt(sw, normalize, Segs(sw) - k, inner);
    case TopRing => TopSourceAt(sw, normalize, nmv, k, inner);
  }

  /** Block b inside the edge part of the buffer. */
  lemma EdgeAt(sw: Sweep, normalize: Vec2 -> Vec2, unit: Vec3 -> Vec3, b: Block)
    requires ValidSweep(sw) && (b == TopRing ==> sw.inline)
    ensures Placed(EdgeVerts(sw, normalize, unit), Pairs(sw, normalize, unit, b, 0, BlockLen(sw, b)), EdgeOffset(sw, b))
  {
    match b
    case LowStrip => LowStripAt(sw, normalize, unit);
    case HighStrip => HighStripAt(sw, normalize, unit);
    case BaseRing => BaseRingAt(sw, normalize, unit);
    case TopRing => TopRingAt(sw, normalize, unit);
  }

  lemma LowStripAt(sw: Sweep, normalize: Vec2 -> Vec2, unit: Vec3 -> Vec3)
    requires ValidSweep(sw)
    ensures Placed(EdgeVerts(sw, normalize, unit), Pairs(sw, normalize, unit, LowStrip, 0, BlockLen(sw, LowStrip)), EdgeOffset(sw, LowStrip))
  {
    var len, m := |sw.shape|, |sw.dirs|;
    var lo := Pairs(sw, normalize, unit, LowStrip, 0, len);
    var hi := Pairs(sw, normalize, unit, HighStrip, 0, len);
    var br := Pairs(sw, normalize, unit, BaseRing, 0, m);
    var tr := if sw.inline then Pairs(sw, normalize, unit, TopRing, 0, m) else [];
    assert EdgeVerts(sw, normalize, unit) == (lo + hi) + (br + tr);
    InBlock(lo, hi, br, tr, lo, 0);
  }

  lemma HighStripAt(sw: Sweep, normalize: Vec2 -> Vec2, unit: Vec3 -> Vec3)
    requires ValidSweep(sw)
    ensures Placed(EdgeVerts(sw, normalize, unit), Pairs(sw, normalize, unit, HighStrip, 0, BlockLen(sw, HighStrip)), EdgeOffset(sw, HighStrip))
  {
    var len, m := |sw.shape|, |sw.dirs|;
    var lo := Pairs(sw, normalize, unit, LowStrip, 0, len);
    var hi := Pairs(sw, normalize, unit, HighStrip, 0, len);
    var br := Pairs(sw, normalize, unit, BaseRing, 0, m);
    var tr := if sw.inline then Pairs(sw, normalize, unit, TopRing, 0, m) else [];
    assert EdgeVerts(sw, normalize, unit) == (lo + hi) + (br + tr);
    InBlock(lo, hi, br, tr, hi, 2 * len);
  }

  lemma BaseRingAt(sw: Sweep, normalize: Vec2 -> Vec2, unit: Vec3 -> Vec3)
    requires ValidSweep(sw)
    ensures Placed(EdgeVerts(sw, normalize, unit), Pairs(sw, normalize, unit, BaseRing, 0, BlockLen(sw, BaseRing)), EdgeOffset(sw, BaseRing))
  {
    var len, m := |sw.shape|, |sw.dirs|;
    var lo := Pairs(sw, normalize, unit, LowStrip, 0, len);
    var hi := Pairs(sw, normalize, unit, HighStrip, 0, len);
    var br := Pairs(sw, normalize, unit, BaseRing, 0, m);
    var tr := if sw.inline then Pairs(sw, normalize, unit, TopRing, 0, m) else [];
    assert EdgeVerts(sw, normalize, unit) == (lo + hi) + (br + tr);
    InBlock(lo, hi, br, tr, br, 4 * len);
  }

  lemma TopRingAt(sw: Sweep, normalize: Vec2 -> Vec2, unit: Vec3 -> Vec3)
    requires ValidSweep(sw) && sw.inline
    ensures Placed(EdgeVerts(sw, normalize, unit), Pairs(sw, normalize, unit, TopRing, 0, BlockLen(sw, TopRing)), EdgeOffset(sw, TopRing))
  {
    var len, m := |sw.shape|, |sw.dirs|;
    var lo := Pairs(sw, normalize, unit, LowStrip, 0, len);
    var hi := Pairs(sw, normalize, unit, HighStrip, 0, len);
    var br := Pairs(sw, normalize, unit, BaseRing, 0, m);
    var tr := if sw.inline then Pairs(sw, normalize, unit, TopRing, 0, m) else [];
    assert EdgeVerts(sw, normalize, unit) == (lo + hi) + (br + tr);
    InBlock(lo, hi, br, tr, tr, 4 * len + 2 * m);
  }

  /** One of four blocks laid side by side, the block given with its offset. */
  lemma InBlock<T>(lo: seq<T>, hi: seq<T>, br: seq<T>, tr: seq<T>, p: seq<T>, off: int)
    requires (off == 0 && p == lo) || (off == |lo| && p == hi) || (off == |lo| + |hi| && p == br)
      || (off == |lo| + |hi| + |br| && p == tr)
    ensures Placed((lo + hi) + (br + tr), p, off)
  {
    var all := (lo + hi) + (br + tr);
    if off == 0 && p == lo {
      assert all[..|lo|] == lo;
    } else if off == |lo| && p == hi {
      assert all[|lo|..|lo| + |hi|] == hi;
    } else if off == |lo| + |hi| && p == br {
      assert all[|lo| + |hi|..|lo| + |hi| + |br|] == br;
    } else {
      assert all[|lo| + |hi| + |br|..] == tr;
    }
  }

  /**
   * The strips and rings close the shell: each edge pair repeats the
   * positions of one outer and one inner main vertex (its normal is the
   * block's own, by PairOfParts).
   */
  lemma EdgeSeam(sw: Sweep, normalize: Vec2 -> Vec2, unit: Vec3 -> Vec3, b: Block, k: int)
    requires ValidSweep(sw) && 0 <= k < BlockLen(sw, b) && (b == TopRing ==> sw.inline)
    ensures 0 <= SourceIndex(sw, |SurfaceVerts(sw, normalize, false)|, b, k) < |SurfaceVerts(sw, normalize, false)|
    ensures SamePos(VertexBuffer(sw, normalize, unit), 2 * |SurfaceVerts(sw, normalize, false)| + EdgeOffset(sw, b) + 2 * k,
                    SourceIndex(sw, |SurfaceVerts(sw, normalize, false)|, b, k))
    ensures SamePos(VertexBuffer(sw, normalize, unit), 2 * |SurfaceVerts(sw, normalize, false)| + EdgeOffset(sw, b) + 2 * k + 1,
                    |SurfaceVerts(sw, normalize, false)| + SourceIndex(sw, |SurfaceVerts(sw, normalize, false)|, b, k))
  {
    var s0, s1, e := SurfaceVerts(sw, normalize, false), SurfaceVerts(sw, normalize, true), EdgeVerts(sw, normalize, unit);
    PairSources(sw, normalize, unit, b, k);
    EdgePair(sw, normalize, unit, b, k);
    assert VertexBuffer(sw, normalize, unit) == (s0 + s1) + e;
    SeamAt(s0, s1, e, PairOf(sw, normalize, unit, b, k), SourceIndex(sw, |s0|, b, k), EdgeOffset(sw, b) + 2 * k,
           2 * |s0| + EdgeOffset(sw, b) + 2 * k);
  }

  /** Pair k of block b holds the positions of main vertex SourceIndex of the outer and the inner surface. */
  lemma PairSources(sw: Sweep, normalize: Vec2 -> Vec2, unit: Vec3 -> Vec3, b: Block, k: int)
    requires ValidSweep(sw) && 0 <= k < BlockLen(sw, b) && (b == TopRing ==> sw.inline)
    ensures var s0, s1, q := SurfaceVerts(sw, normalize, false), SurfaceVerts(sw, normalize, true), PairOf(sw, normalize, unit, b, k);
      var si := SourceIndex(sw, |s0|, b, k);
      |s0| == |s1| && 0 <= si < |s0| && q[0].pos == s0[si].pos && q[1].pos == s1[si].pos
  {
    var s0 := SurfaceVerts(sw, normalize, false);
    SameLength(sw, normalize);
    SourceIndexAt(sw, normalize, |s0|, b, k, false);
    SourceIndexAt(sw, normalize, |s0|, b, k, true);
    PairOfParts(sw, normalize, unit, b, k);
  }

  /**
   * In a buffer laid out as outer surface s0, inner surface s1 and edges e,
   * an edge pair q at x whose positions are those of main vertex si of each
   * surface repeats them.
   */
  lemma SeamAt(s0: seq<MeshVertex>, s1: seq<MeshVertex>, e: seq<MeshVertex>, q: seq<MeshVertex>, si: int, x: int, at: int)
    requires |s0| == |s1| && 0 <= si < |s0| && 0 <= x && x + 1 < |e| && at == 2 * |s0| + x
    requires |q| == 2 && e[x] == q[0] && e[x + 1] == q[1] && q[0].pos == s0[si].pos && q[1].pos == s1[si].pos
    ensures SamePos((s0 + s1) + e, at, si) && SamePos((s0 + s1) + e, at + 1, |s0| + si)
  {
    var buf := (s0 + s1) + e;
    assert buf[at] == e[x] && buf[at + 1] == e[x + 1];
    assert buf[si] == s0[si] && buf[|s0| + si] == s1[si];
  }

  /** Vertices a and b of a buffer sit at the same position. */
  ghost predicate SamePos(buf: seq<MeshVertex>, a: int, b: int) {
    0 <= a < |buf| && 0 <= b < |buf| && buf[a].pos == buf[b].pos
  }

  /** Indexing the two surfaces of a buffer laid out as surfaces then edges. */
  lemma BufferAt<T>(s0: seq<T>, s1: seq<T>, e: seq<T>, i: int)
    requires 0 <= i < |s0| == |s1|
    ensures |s0| + i < |(s0 + s1) + e| && ((s0 + s1) + e)[i] == s0[i] && ((s0 + s1) + e)[|s0| + i] == s1[i]
  {
  }

  /** Indexing the edges of a buffer laid out as surfaces then edges. */
  lemma BufferEdgeAt<T>(s0: seq<T>, s1: seq<T>, e: seq<T>, x: int)
    requires 0 <= x < |e| && |s0| == |s1|
    ensures 2 * |s0| + x < |(s0 + s1) + e| && ((s0 + s1) + e)[2 * |s0| + x] == e[x]
  {
  }

  /** Pair k of block b lies at 2 * k into the block's place among the edge vertices. */
  lemma EdgePair(sw: Sweep, normalize: Vec2 -> Vec2, unit: Vec3 -> Vec3, b: Block, k: int)
    requires ValidSweep(sw) && 0 <= k < BlockLen(sw, b) && (b == TopRing ==> sw.inline)
    ensures var e, x, q := EdgeVerts(sw, normalize, unit), EdgeOffset(sw, b) + 2 * k, PairOf(sw, normalize, unit, b, k);
      0 <= x && x + 1 < |e| && e[x] == q[0] && e[x + 1] == q[1]
  {
    var e, p, off := EdgeVerts(sw, normalize, unit), Pairs(sw, normalize, unit, b, 0, BlockLen(sw, b)), EdgeOffset(sw, b);
    EdgeAt(sw, normalize, unit, b);
    WholeBlockAt(sw, normalize, unit, b, k);
    SlicePairAt(e, p, off, 2 * k);
  }

  /** p occurs in e from off on. */
  ghost predicate Placed<T>(e: seq<T>, p: seq<T>, off: int) {
    0 <= off && off + |p| <= |e| && e[off..off + |p|] == p
  }

  /** Indexing a sequence at two neighbours through a slice of it. */
  lemma SlicePairAt<T>(e: seq<T>, p: seq<T>, off: int, x: int)
    requires Placed(e, p, off) && 0 <= x && x + 1 < |p|
    ensures off + x + 1 < |e| && e[off + x] == p[x] && e[off + x + 1] == p[x + 1]
  {
    assert e[off..off + |p|][x] == e[off + x];
    assert e[off..off + |p|][x + 1] == e[off + x + 1];
  }

  /** Pair k of a whole block sits at 2 * k. */
  lemma WholeBlockAt(sw: Sweep, normalize: Vec2 -> Vec2, unit: Vec3 -> Vec3, b: Block, k: int)
    requires ValidSweep(sw) && 0 <= k < BlockLen(sw, b)
    ensures var p, q := Pairs(sw, normalize, unit, b, 0, BlockLen(sw, b)), PairOf(sw, normalize, unit, b, k);
      2 * k + 1 < |p| && p[2 * k] == q[0] && p[2 * k + 1] == q[1]
  {
    PairsAt(sw, normalize, unit, b, 0, BlockLen(sw, b), k);
    assert 2 * (k - 0) == 2 * k;
  }

  /** A pair holds the outer then the inner source position, both with the block's normal. */
  lemma PairOfParts(sw: Sweep, normalize: Vec2 -> Vec2, unit: Vec3 -> Vec3, b: Block, k: int)
    requires ValidSweep(sw) && 0 <= k < BlockLen(sw, b)
    ensures var p := PairOf(sw, normalize, unit, b, k);
      |p| == 2 && p[0].pos == SourceOf(sw, normalize, b, k, false).pos && p[1].pos == SourceOf(sw, normalize, b, k, true).pos
      && p[0].normal == p[1].normal == BlockNormal(sw, b) && p[0].tangent == p[1].tangent
  {
  }

  lemma SameLength(sw: Sweep, normalize: Vec2 -> Vec2)
    requires ValidSweep(sw)
    ensures |SurfaceVerts(sw, normalize, false)| == |SurfaceVerts(sw, normalize, true)|
  {
    SurfaceLength(sw, normalize, false);
    SurfaceLength(sw, normalize, true);
  }

  /** Main vertex j of row i is at i * (numSegs + 1) + j on the outer surface and numMainVerts further on the inner one. */
  lemma BufferMain(sw: Sweep, normalize: Vec2 -> Vec2, unit: Vec3 -> Vec3, i: int, j: int)
    requires ValidSweep(sw) && 0 <= i < Rows(sw) && 0 <= j < |sw.dirs|
    ensures var buf, nmv, x := VertexBuffer(sw, normalize, unit), |SurfaceVerts(sw, normalize, false)|, i * |sw.dirs| + j;
      nmv + x < |buf| && buf[x] == MainVertex(sw, normalize, i, j, false) && buf[nmv + x] == MainVertex(sw, normalize, i, j, true)
  {
    var s0, s1 := SurfaceVerts(sw, normalize, false), SurfaceVerts(sw, normalize, true);
    var buf := VertexBuffer(sw, normalize, unit);
    SurfaceLength(sw, normalize, false);
    SurfaceLength(sw, normalize, true);
    SurfaceIndex(sw, normalize, i, j, false);
    SurfaceIndex(sw, normalize, i, j, true);
    assert buf == (s0 + s1) + (EdgeVerts(sw, normalize, unit) + []);
    FourAt(s0, s1, EdgeVerts(sw, normalize, unit), [], i * |sw.dirs| + j);
  }

  /** Indexing into four blocks laid side by side. */
  lemma FourAt<T>(p: seq<T>, q: seq<T>, r: seq<T>, t: seq<T>, x: int)
    requires 0 <= x
    ensures x < |p| ==> ((p + q) + (r + t))[x] == p[x]
    ensures x < |q| ==> ((p + q) + (r + t))[|p| + x] == q[x]
    ensures x < |r| ==> ((p + q) + (r + t))[|p| + |q| + x] == r[x]
    ensures x < |t| ==> ((p + q) + (r + t))[|p| + |q| + |r| + x] == t[x]
  {
  }

  /** The last main vertex of each surface of a closed fairing is its apex. */
  lemma BufferApex(sw: Sweep, normalize: Vec2 -> Vec2, unit: Vec3 -> Vec3)
    requires ValidSweep(sw) && !sw.inline
    ensures var buf, nmv := VertexBuffer(sw, normalize, unit), Counts(Segs(sw), |sw.shape|, sw.inline).mainVerts;
      2 * nmv <= |buf|
      && buf[nmv - 1].pos == Vec3(0.0, sw.shape[|sw.shape| - 1].y + sw.th, 0.0) && buf[nmv - 1].normal == Up
      && buf[2 * nmv - 1].pos == Vec3(0.0, sw.shape[|sw.shape| - 1].y, 0.0) && buf[2 * nmv - 1].normal == Neg3(Up)
  {
    SurfaceLength(sw, normalize, false);
    SurfaceLength(sw, normalize, true);
    SurfaceApex(sw, normalize, false);
    SurfaceApex(sw, normalize, true);
  }
}
