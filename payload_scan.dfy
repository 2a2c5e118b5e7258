// The payload profiler: edges of payload colliders are rasterised into a
// list of per-height maximum radii ("profile"), one bucket per vertical step.
module PayloadScanning {
  import opened Geometry

  // ---------------------------------------------------------------------
  // The profile update of one edge, as a function of the old profile

  /** An edge in profile coordinates: heights in buckets, radii in metres. */
  datatype Edge = Edge(y0: real, r0: real, y1: real, r1: real)

  /** The endpoint swap: afterwards the lower endpoint comes first. */
  function Ordered(e: Edge): (o: Edge)
    ensures o.y0 <= o.y1
    ensures o == e || o == Edge(e.y1, e.r1, e.y0, e.r0)
    ensures e.y0 <= e.y1 ==> o == e
  {
    if e.y0 > e.y1 then Edge(e.y1, e.r1, e.y0, e.r0) else e
  }

  /** The bucket of the lower endpoint. */
  function H0(e: Edge): int { FloorToInt(Ordered(e).y0) }

  /** The bucket of the upper endpoint. */
  function H1(e: Edge): int { FloorToInt(Ordered(e).y1) }

  lemma BucketsOrdered(e: Edge)
    ensures H0(e) <= H1(e)
    ensures H0(e) != H1(e) ==> Ordered(e).y0 < Ordered(e).y1
  {
    var o := Ordered(e);
    if o.y0 == o.y1 {
      assert H0(e) == H1(e);
    }
  }

  /** The slope of the interpolation line of an edge, in radius per bucket. */
  function Slope(e: Edge): real
    requires H0(e) != H1(e)
  {
    BucketsOrdered(e);
    (Ordered(e).r1 - Ordered(e).r0) / (Ordered(e).y1 - Ordered(e).y0)
  }

  /** The line's value at the bottom of bucket H0 + 1. */
  function Intercept(e: Edge): real
    requires H0(e) != H1(e)
  {
    Ordered(e).r0 + Slope(e) * ((H0(e) + 1) as real - Ordered(e).y0)
  }

  /** Row h of the line with slope k through b at row h0, capped at maxR. */
  function Row(k: real, b: real, h0: int, maxR: real, h: int): (r: real)
    ensures r <= maxR
  {
    Min(k * (h - h0) as real + b, maxR)
  }

  /** What rows lo .. n-1 of that line write into bucket q (0 when none). */
  function Band(k: real, b: real, h0: int, maxR: real, lo: int, n: int, q: int): real {
    Max(if lo <= q < n then Row(k, b, h0, maxR, q) else 0.0,
        if lo <= q - 1 < n then Row(k, b, h0, maxR, q - 1) else 0.0)
  }

  /** One row h changes buckets h and h + 1 only, raising each to Row(h). */
  lemma BandStep(k: real, b: real, h0: int, maxR: real, lo: int, h: int, q: int, x: real)
    requires lo <= h && x >= 0.0
    ensures q == h || q == h + 1 ==>
      Max(Max(x, Band(k, b, h0, maxR, lo, h, q)), Row(k, b, h0, maxR, h)) == Max(x, Band(k, b, h0, maxR, lo, h + 1, q))
    ensures q != h && q != h + 1 ==> Band(k, b, h0, maxR, lo, h, q) == Band(k, b, h0, maxR, lo, h + 1, q)
  {
  }

  /**
   * The radius the interpolation loop writes for row h of an edge whose
   * endpoints lie in different buckets; never more than the larger endpoint
   * radius.
   */
  function RowValue(e: Edge, h: int): (r: real)
    requires H0(e) != H1(e)
    ensures r <= Max(Ordered(e).r0, Ordered(e).r1)
  {
    Row(Slope(e), Intercept(e), H0(e), Max(Ordered(e).r0, Ordered(e).r1), h)
  }

  /** The first loop row: rows below bucket 0 are not visited. */
  function LoopStart(e: Edge): int { MaxInt(H0(e), 0) }

  /** What loop rows LoopStart(e) .. n-1 write into bucket q (0 when none). */
  function LoopTerm(e: Edge, q: int, n: int): real
    requires H0(e) != H1(e)
  {
    Band(Slope(e), Intercept(e), H0(e), Max(Ordered(e).r0, Ordered(e).r1), LoopStart(e), n, q)
  }

  /** The loop's line, written with the values addPayloadEdge computes. */
  lemma LoopTermIsBand(e: Edge, k: real, b: real, q: int)
    requires H0(e) != H1(e)
    requires k == (Ordered(e).r1 - Ordered(e).r0) / (Ordered(e).y1 - Ordered(e).y0)
    requires b == Ordered(e).r0 + k * ((H0(e) + 1) as real - Ordered(e).y0)
    ensures LoopTerm(e, q, H1(e)) == Band(k, b, H0(e), Max(Ordered(e).r0, Ordered(e).r1), MaxInt(H0(e), 0), H1(e), q)
  {
    var o := Ordered(e);
    assert Slope(e) == k;
    assert Intercept(e) == o.r0 + Slope(e) * ((H0(e) + 1) as real - o.y0);
    assert Intercept(e) == b;
  }

  /** The lower endpoint's radius, written into bucket H0 when that bucket exists. */
  function EndTerm0(e: Edge, q: int): real {
    if H0(e) >= 0 && q == H0(e) then Ordered(e).r0 else 0.0
  }

  /** The upper endpoint's radius, written into bucket H1. */
  function EndTerm1(e: Edge, q: int): real {
    if q == H1(e) then Ordered(e).r1 else 0.0
  }

  /** Everything one edge writes into bucket q, combined by max (0 when none). */
  function Contribution(e: Edge, q: int): real {
    var inner := if H0(e) != H1(e) then LoopTerm(e, q, H1(e)) else 0.0;
    Max(Max(EndTerm0(e, q), EndTerm1(e, q)), inner)
  }

  /** Bucket q of a profile, with the zero padding the update appends. */
  function Get(p: seq<real>, q: int): real {
    if 0 <= q < |p| then p[q] else 0.0
  }

  predicate NonNegative(p: seq<real>) {
    forall q :: 0 <= q < |p| ==> p[q] >= 0.0
  }

  /**
   * The profile after one edge: unchanged when the edge lies wholly below
   * bucket 0; otherwise grown to cover bucket H1 and raised bucket-wise to
   * the edge's contribution.
   */
  function Raster(p: seq<real>, e: Edge): (r: seq<real>)
    ensures H1(e) < 0 ==> r == p
    ensures H1(e) >= 0 ==> |r| == MaxInt(|p|, H1(e) + 1)
    ensures |r| >= |p|
    ensures forall q :: 0 <= q < |p| ==> r[q] >= p[q]
    ensures forall q :: |p| <= q < |r| ==> r[q] >= 0.0
    ensures NonNegative(p) ==> NonNegative(r)
    ensures H1(e) >= 0 && H0(e) >= 0 ==> r[H0(e)] >= Ordered(e).r0
    ensures H1(e) >= 0 ==> r[H1(e)] >= Ordered(e).r1
  {
    BucketsOrdered(e);
    if H1(e) < 0 then p
    else
      var n := MaxInt(|p|, H1(e) + 1);
      seq(n, q requires 0 <= q < n => Max(Get(p, q), Contribution(e, q)))
  }

  /** The padding and the two endpoint writes of addPayloadEdge. */
  lemma EndsRaised(p0: seq<real>, e: Edge, base: seq<real>)
    requires NonNegative(p0) && H1(e) >= 0
    requires base == (var p1 := if H1(e) >= |p0| then p0 + seq(H1(e) - |p0| + 1, _ => 0.0) else p0;
                      var p2 := if H0(e) >= 0 then p1[H0(e) := Max(p1[H0(e)], Ordered(e).r0)] else p1;
                      p2[H1(e) := Max(p2[H1(e)], Ordered(e).r1)])
    ensures |base| == MaxInt(|p0|, H1(e) + 1)
    ensures forall q :: 0 <= q < |base| ==> base[q] >= 0.0
    ensures forall q :: 0 <= q < |base| ==> base[q] == Max(Get(p0, q), Max(EndTerm0(e, q), EndTerm1(e, q)))
  {
    BucketsOrdered(e);
  }

  /** One iteration of the interpolation loop keeps its invariant. */
  lemma RaiseRow(base: seq<real>, prof: seq<real>, k: real, b: real, h0: int, maxR: real, lo: int, h: int)
    requires 0 <= lo <= h && h + 1 < |prof| == |base|
    requires forall q :: 0 <= q < |base| ==> base[q] >= 0.0
    requires forall q :: 0 <= q < |prof| ==> prof[q] == Max(base[q], Band(k, b, h0, maxR, lo, h, q))
    ensures var r := Row(k, b, h0, maxR, h);
      var p := prof[h := Max(prof[h], r)][h + 1 := Max(prof[h + 1], r)];
      forall q :: 0 <= q < |p| ==> p[q] == Max(base[q], Band(k, b, h0, maxR, lo, h + 1, q))
  {
    forall q | 0 <= q < |prof| {
      BandStep(k, b, h0, maxR, lo, h, q, base[q]);
    }
  }

  /** The last step of addPayloadEdge for one bucket: endpoints first, then the loop rows. */
  lemma FinishBucket(p0: seq<real>, e: Edge, q: int, b: real, x: real)
    requires NonNegative(p0)
    requires b == Max(Get(p0, q), Max(EndTerm0(e, q), EndTerm1(e, q)))
    requires x == if H0(e) != H1(e) then Max(b, LoopTerm(e, q, H1(e))) else b
    ensures x == Max(Get(p0, q), Contribution(e, q))
  {
    assert Get(p0, q) >= 0.0;
  }

  /** A profile that agrees with the pointwise description of Raster is Raster. */
  lemma RasterAt(p0: seq<real>, e: Edge, r: seq<real>)
    requires H1(e) >= 0 && |r| == MaxInt(|p0|, H1(e) + 1)
    requires forall q :: 0 <= q < |r| ==> r[q] == Max(Get(p0, q), Contribution(e, q))
    ensures r == Raster(p0, e)
  {
  }

  /** An edge contributes nothing above its upper bucket. */
  lemma {:induction false} ContributionZeroAbove(e: Edge, q: int)
    requires q > H1(e)
    ensures Contribution(e, q) == 0.0
  {
    BucketsOrdered(e);
  }

  /** Reading any bucket of the updated profile: the old value raised to the contribution. */
  lemma {:induction false} GetRaster(p: seq<real>, e: Edge, q: int)
    requires NonNegative(p) && q >= 0
    ensures Get(Raster(p, e), q) == Max(Get(p, q), Contribution(e, q))
  {
    BucketsOrdered(e);
    if H1(e) < 0 {
      ContributionZeroAbove(e, q);
    } else if q >= MaxInt(|p|, H1(e) + 1) {
      ContributionZeroAbove(e, q);
    }
  }

  /** Two profiles of equal length that agree at every bucket are equal. */
  lemma SameBuckets(a: seq<real>, b: seq<real>)
    requires |a| == |b|
    requires forall q :: 0 <= q < |a| ==> Get(a, q) == Get(b, q)
    ensures a == b
  {
    forall q | 0 <= q < |a| ensures a[q] == b[q] {
      assert Get(a, q) == Get(b, q);
    }
  }

  /** The order of two edges does not matter. */
  lemma {:induction false} RasterCommutes(p: seq<real>, e1: Edge, e2: Edge)
    requires NonNegative(p)
    ensures Raster(Raster(p, e1), e2) == Raster(Raster(p, e2), e1)
  {
    var a := Raster(Raster(p, e1), e2);
    var b := Raster(Raster(p, e2), e1);
    forall q | 0 <= q < |a| ensures Get(a, q) == Get(b, q) {
      GetRaster(p, e1, q);
      GetRaster(p, e2, q);
      GetRaster(Raster(p, e1), e2, q);
      GetRaster(Raster(p, e2), e1, q);
    }
    SameBuckets(a, b);
  }

  /** Adding the same edge a second time changes nothing. */
  lemma {:induction false} RasterIdempotent(p: seq<real>, e: Edge)
    requires NonNegative(p)
    ensures Raster(Raster(p, e), e) == Raster(p, e)
  {
    var a := Raster(Raster(p, e), e);
    var b := Raster(p, e);
    forall q | 0 <= q < |a| ensures Get(a, q) == Get(b, q) {
      GetRaster(p, e, q);
      GetRaster(b, e, q);
    }
    SameBuckets(a, b);
  }

  // ---------------------------------------------------------------------
  // Many edges

  /** The profile after the edges es, in order. */
  function RasterAll(p: seq<real>, es: seq<Edge>): (r: seq<real>)
    ensures |r| >= |p|
    ensures NonNegative(p) ==> NonNegative(r)
  {
    if |es| == 0 then p else Raster(RasterAll(p, es[..|es| - 1]), es[|es| - 1])
  }

  lemma RasterAllSnoc(p: seq<real>, es: seq<Edge>, e: Edge)
    ensures RasterAll(p, es + [e]) == Raster(RasterAll(p, es), e)
  {
    assert (es + [e])[..|es|] == es;
  }

  /** The largest contribution of any of the edges to bucket q (0 when none). */
  function MaxContribution(es: seq<Edge>, q: int): real {
    if |es| == 0 then 0.0 else Max(MaxContribution(es[..|es| - 1], q), Contribution(es[|es| - 1], q))
  }

  /** Every bucket of the final profile is the max of its old value and all edge contributions. */
  lemma {:induction false} GetRasterAll(p: seq<real>, es: seq<Edge>, q: int)
    requires NonNegative(p) && q >= 0
    ensures Get(RasterAll(p, es), q) == Max(Get(p, q), MaxContribution(es, q))
  {
    if |es| > 0 {
      GetRasterAll(p, es[..|es| - 1], q);
      GetRaster(RasterAll(p, es[..|es| - 1]), es[|es| - 1], q);
    }
  }

  /** Moving one edge to the end of the list leaves the result unchanged. */
  lemma {:induction false} RasterAllMoveToEnd(p: seq<real>, a: seq<Edge>, e: Edge, b: seq<Edge>)
    requires NonNegative(p)
    ensures RasterAll(p, a + [e] + b) == RasterAll(p, a + b + [e])
    decreases |b|
  {
    if |b| > 0 {
      var b0 := b[..|b| - 1];
      var last := b[|b| - 1];
      assert a + [e] + b == (a + [e] + b0) + [last];
      assert a + b + [e] == (a + b0 + [last]) + [e];
      assert a + b0 + [last] == (a + b0) + [last];
      assert a + b == (a + b0) + [last];
      RasterAllSnoc(p, a + [e] + b0, last);
      RasterAllMoveToEnd(p, a, e, b0);
      RasterAllSnoc(p, a + b0, e);
      RasterCommutes(RasterAll(p, a + b0), e, last);
      RasterAllSnoc(p, a + b0, last);
      RasterAllSnoc(p, a + b0 + [last], e);
    } else {
      assert a + [e] + b == a + b + [e];
    }
  }

  /** The final profile does not depend on the order of the edges. */
  lemma {:induction false} RasterAllPermutation(p: seq<real>, es1: seq<Edge>, es2: seq<Edge>)
    requires NonNegative(p)
    requires multiset(es1) == multiset(es2)
    ensures RasterAll(p, es1) == RasterAll(p, es2)
    decreases |es1|
  {
    if |es1| > 0 {
      var e := es1[|es1| - 1];
      var init := es1[..|es1| - 1];
      assert es1 == init + [e];
      assert e in multiset(es2);
      var k :| 0 <= k < |es2| && es2[k] == e;
      var a, b := es2[..k], es2[k + 1..];
      assert es2 == a + [e] + b;
      assert multiset(es1) == multiset(init) + multiset{e};
      assert multiset(es2) == multiset(a) + multiset{e} + multiset(b);
      assert multiset(a + b) == multiset(a) + multiset(b);
      assert multiset(init) + multiset{e} == multiset(a + b) + multiset{e};
      assert multiset(init) == multiset(init) + multiset{e} - multiset{e};
      assert multiset(init) == multiset(a + b);
      RasterAllPermutation(p, init, a + b);
      RasterAllMoveToEnd(p, a, e, b);
      RasterAllSnoc(p, a + b, e);
    } else {
      assert |es2| == 0;
    }
  }

  // ---------------------------------------------------------------------
  // Boxes and meshes

  /** The 12 edges of a box as pairs of corner numbers. */
  const BoxEdges: seq<(int, int)> :=
    [(0, 1), (2, 3), (4, 5), (6, 7),
     (0, 2), (1, 3), (4, 6), (5, 7),
     (0, 4), (1, 5), (2, 6), (3, 7)]

  /** Corner i of a box: bit 0 picks max.x, bit 1 max.y, bit 2 max.z. */
  function BoxCorner(lo: Vec3, hi: Vec3, i: int): Vec3 {
    Vec3(if i % 2 != 0 then hi.x else lo.x,
         if (i / 2) % 2 != 0 then hi.y else lo.y,
         if (i / 4) % 2 != 0 then hi.z else lo.z)
  }

  /** Bit b (0, 1 or 2) of a corner number. */
  function Bit(i: int, b: nat): int
    requires b < 3
  {
    if b == 0 then i % 2 else if b == 1 then (i / 2) % 2 else (i / 4) % 2
  }

  /** The number of the three corner bits in which a and b differ. */
  function BitsApart(a: int, b: int): int {
    (if Bit(a, 0) != Bit(b, 0) then 1 else 0)
    + (if Bit(a, 1) != Bit(b, 1) then 1 else 0)
    + (if Bit(a, 2) != Bit(b, 2) then 1 else 0)
  }

  /** Each box edge joins two of the 8 corners that differ in exactly one bit. */
  lemma BoxEdgesOneBit()
    ensures forall k :: 0 <= k < |BoxEdges| ==>
      0 <= BoxEdges[k].0 < 8 && 0 <= BoxEdges[k].1 < 8 && BitsApart(BoxEdges[k].0, BoxEdges[k].1) == 1
  {
    assert BitsApart(0, 1) == 1 && BitsApart(2, 3) == 1 && BitsApart(4, 5) == 1 && BitsApart(6, 7) == 1;
    assert BitsApart(0, 2) == 1 && BitsApart(1, 3) == 1 && BitsApart(4, 6) == 1 && BitsApart(5, 7) == 1;
    assert BitsApart(0, 4) == 1 && BitsApart(1, 5) == 1 && BitsApart(2, 6) == 1 && BitsApart(3, 7) == 1;
  }

  /** So the two corners of a box edge differ in at most one coordinate. */
  lemma BoxEdgeAxisAligned(lo: Vec3, hi: Vec3, k: int)
    requires 0 <= k < |BoxEdges|
    ensures var u, v := BoxCorner(lo, hi, BoxEdges[k].0), BoxCorner(lo, hi, BoxEdges[k].1);
      (u.x == v.x && u.y == v.y) || (u.x == v.x && u.z == v.z) || (u.y == v.y && u.z == v.z)
  {
  }

  /** The three edges of each triangle of an index list, triangle by triangle. */
  function MeshEdgePairs(faces: seq<int>): (r: seq<(int, int)>)
    requires |faces| % 3 == 0
    ensures |r| == |faces|
    ensures forall k :: 0 <= k < |r| ==> r[k].0 in faces && r[k].1 in faces
  {
    if |faces| == 0 then []
    else
      var n := |faces| - 3;
      var init := faces[..n];
      var r0 := MeshEdgePairs(init);
      assert forall x :: x in init ==> x in faces;
      r0 + [(faces[n], faces[n + 1]), (faces[n + 1], faces[n + 2]), (faces[n + 2], faces[n])]
  }

  /** The next triangle of an index list whose length is a multiple of 3 is whole. */
  lemma TriangleStep(i: int, n: int)
    requires 0 <= i < n && i % 3 == 0 && n % 3 == 0
    ensures i + 3 <= n && (i + 3) % 3 == 0
  {
    assert i == 3 * (i / 3) && n == 3 * (n / 3);
    assert i / 3 < n / 3;
  }

  // ---------------------------------------------------------------------
  // The scanner

  /** A payload part as the scanner sees it. */
  datatype PartInfo = PartInfo(
    id: nat,
    parent: Option<nat>,
    srfAttached: Option<nat>,
    isLaunchClamp: bool,
    isFairingBase: bool,
    isAdapter: bool,
    topAttached: Option<nat>)

  predicate Distinct(s: seq<nat>) {
    forall i, j :: 0 <= i < j < |s| ==> s[i] != s[j]
  }

  class PayloadScan {
    var profile: seq<real>
    var payload: seq<nat>
    var hash: set<nat>
    var targets: seq<nat>
    var ofs: real
    const verticalStep: real
    const extraRadius: real
    var nestedBases: int
    /** Mathf.Sqrt. */
    const sqrt: real -> real

    predicate Valid()
      reads this
    {
      verticalStep > 0.0
      && NonNegative(profile)
      && Distinct(payload) && Distinct(targets)
      && (forall i :: 0 <= i < |payload| ==> payload[i] in hash && payload[i] !in targets)
      && (forall i :: 0 <= i < |targets| ==> targets[i] in hash)
    }

    constructor (p: nat, vs: real, er: real, sqrt: real -> real)
      requires vs > 0.0
      ensures Valid()
      ensures profile == [] && payload == [] && targets == [] && hash == {p}
      ensures ofs == 0.0 && verticalStep == vs && extraRadius == er && nestedBases == 0
      ensures this.sqrt == sqrt
    {
      profile := [];
      payload := [];
      targets := [];
      hash := {p};
      ofs := 0.0;
      verticalStep := vs;
      extraRadius := er;
      nestedBases := 0;
      this.sqrt := sqrt;
    }

    /** The profile radius of a local-space vertex: its distance from the axis plus the margin. */
    function Radius(v: Vec3): real {
      sqrt(v.x * v.x + v.z * v.z) + extraRadius
    }

    /** The edge between two local-space vertices in profile coordinates, for offset o. */
    function EdgeAt(v0: Vec3, v1: Vec3, o: real): Edge
      requires verticalStep > 0.0
    {
      Edge((v0.y - o) / verticalStep, Radius(v0), (v1.y - o) / verticalStep, Radius(v1))
    }

    /** The same edge for the scanner's current offset. */
    function EdgeOf(v0: Vec3, v1: Vec3): Edge
      reads this`ofs
      requires verticalStep > 0.0
    {
      EdgeAt(v0, v1, ofs)
    }

    /** The scan of the payload starts at the height of the base's "top" node, when it has one. */
    method StartAtTopNode(topY: Option<real>)
      requires Valid()
      modifies this`ofs
      ensures Valid()
      ensures ofs == if topY.Some? then topY.value else old(ofs)
    {
      if topY.Some? {
        ofs := topY.value;
      }
    }

    /** addPart: de-duplicate, skip clamps and the surface parent, track nested bases. */
    method AddPart(p: Option<PartInfo>, prev: PartInfo)
      requires Valid()
      modifies this`hash, this`payload, this`targets, this`nestedBases
      ensures Valid()
      ensures (p.None? || p.value.id in old(hash)) ==>
        hash == old(hash) && payload == old(payload) && targets == old(targets) && nestedBases == old(nestedBases)
      ensures p.Some? && p.value.id !in old(hash) ==> hash == old(hash) + {p.value.id}
      ensures p.Some? && p.value.id !in old(hash) ==>
        var q := p.value;
        var skipped := q.isLaunchClamp || (prev.parent == Some(q.id) && prev.srfAttached == Some(q.id));
        var base := !skipped && q.isFairingBase && !q.isAdapter;
        var reversed := base && q.topAttached == Some(prev.id);
        var toTarget := reversed && old(nestedBases) <= 0;
        && targets == (if toTarget then old(targets) + [q.id] else old(targets))
        && payload == (if skipped || toTarget then old(payload) else old(payload) + [q.id])
        && nestedBases == (if !base || toTarget then old(nestedBases)
                           else if reversed then old(nestedBases) - 1
                           else old(nestedBases) + 1)
    {
      if p.None? || p.value.id in hash {
        return;
      }
      var q := p.value;
      hash := hash + {q.id};
      if q.isLaunchClamp {
        return;
      }
      if prev.parent == Some(q.id) && prev.srfAttached == Some(q.id) {
        return;
      }
      if q.isFairingBase && !q.isAdapter {
        if q.topAttached == Some(prev.id) {
          if nestedBases <= 0 {
            targets := targets + [q.id];
            return;
          } else {
            nestedBases := nestedBases - 1;
          }
        } else {
          nestedBases := nestedBases + 1;
        }
      }
      payload := payload + [q.id];
    }

    /** addPayloadEdge: raises the profile along one edge. */
    method AddPayloadEdge(v0: Vec3, v1: Vec3)
      requires Valid()
      modifies this`profile
      ensures Valid()
      ensures profile == Raster(old(profile), EdgeOf(v0, v1))
    {
      ghost var e := EdgeOf(v0, v1);
      assert e == EdgeAt(v0, v1, ofs);
      var r0 := Radius(v0);
      var r1 := Radius(v1);
      var y0 := (v0.y - ofs) / verticalStep;
      var y1 := (v1.y - ofs) / verticalStep;
      assert e.y0 == y0 && e.r0 == r0 && e.y1 == y1 && e.r1 == r1;
      if y0 > y1 {
        var tmp := y0; y0 := y1; y1 := tmp;
        tmp := r0; r0 := r1; r1 := tmp;
      }
      assert Ordered(e) == Edge(y0, r0, y1, r1);
      var h0 := FloorToInt(y0);
      var h1 := FloorToInt(y1);
      if h1 < 0 {
        return;
      }
      profile := RasterBuckets(profile, e, y0, r0, y1, r1, h0, h1);
    }

    /**
     * The part of addPayloadEdge after the early return: pad, raise the two
     * endpoint buckets, then interpolate across the buckets in between.
     */
    static method RasterBuckets(p0: seq<real>, ghost e: Edge, y0: real, r0: real, y1: real, r1: real, h0: int, h1: int)
      returns (prof: seq<real>)
      requires NonNegative(p0)
      requires Ordered(e) == Edge(y0, r0, y1, r1) && h0 == H0(e) && h1 == H1(e) && h1 >= 0
      ensures prof == Raster(p0, e)
      ensures NonNegative(prof)
    {
      BucketsOrdered(e);
      prof := p0;
      if h1 >= |prof| {
        prof := prof + seq(h1 - |prof| + 1, _ => 0.0);
      }
      if h0 >= 0 {
        prof := prof[h0 := Max(prof[h0], r0)];
      }
      prof := prof[h1 := Max(prof[h1], r1)];
      EndsRaised(p0, e, prof);
      prof := FillRows(p0, e, prof, y0, r0, y1, r1, h0, h1);
    }

    /** The interpolation part of addPayloadEdge, after the endpoint writes. */
    static method FillRows(p0: seq<real>, ghost e: Edge, base: seq<real>, y0: real, r0: real, y1: real, r1: real, h0: int, h1: int)
      returns (prof: seq<real>)
      requires NonNegative(p0)
      requires Ordered(e) == Edge(y0, r0, y1, r1) && h0 == H0(e) && h1 == H1(e) && h1 >= 0
      requires |base| == MaxInt(|p0|, h1 + 1)
      requires forall q :: 0 <= q < |base| ==> base[q] >= 0.0
      requires forall q :: 0 <= q < |base| ==> base[q] == Max(Get(p0, q), Max(EndTerm0(e, q), EndTerm1(e, q)))
      ensures prof == Raster(p0, e)
      ensures NonNegative(prof)
    {
      BucketsOrdered(e);
      prof := base;
      if h0 != h1 {
        var k := (r1 - r0) / (y1 - y0);
        var b := r0 + k * ((h0 + 1) as real - y0);
        prof := InterpolateRows(prof, k, b, Max(r0, r1), h0, h1);
        forall q | 0 <= q < |prof| ensures prof[q] == Max(Get(p0, q), Contribution(e, q)) {
          LoopTermIsBand(e, k, b, q);
          FinishBucket(p0, e, q, base[q], prof[q]);
        }
      } else {
        forall q | 0 <= q < |prof| ensures prof[q] == Max(Get(p0, q), Contribution(e, q)) {
          FinishBucket(p0, e, q, base[q], prof[q]);
        }
      }
      RasterAt(p0, e, prof);
    }

    /** The loop of addPayloadEdge over the buckets strictly between the endpoints. */
    static method InterpolateRows(base: seq<real>, k: real, b: real, maxR: real, h0: int, h1: int)
      returns (prof: seq<real>)
      requires h0 < h1 < |base| && 0 <= h1
      requires forall q :: 0 <= q < |base| ==> base[q] >= 0.0
      ensures |prof| == |base|
      ensures forall q :: 0 <= q < |prof| ==> prof[q] == Max(base[q], Band(k, b, h0, maxR, MaxInt(h0, 0), h1, q))
    {
      prof := base;
      var h := MaxInt(h0, 0);
      while h < h1
        invariant MaxInt(h0, 0) <= h <= h1
        invariant |prof| == |base|
        invariant forall q :: 0 <= q < |prof| ==> prof[q] == Max(base[q], Band(k, b, h0, maxR, MaxInt(h0, 0), h, q))
      {
        var r := Min(k * (h - h0) as real + b, maxR);
        RaiseRow(base, prof, k, b, h0, maxR, MaxInt(h0, 0), h);
        prof := prof[h := Max(prof[h], r)];
        prof := prof[h + 1 := Max(prof[h + 1], r)];
        h := h + 1;
      }
    }

    /** The box edges in the order addPayload issues them. */
    function BoxEdgeList(lo: Vec3, hi: Vec3, toLocal: Vec3 -> Vec3): (r: seq<Edge>)
      reads this`ofs
      requires verticalStep > 0.0
      ensures |r| == |BoxEdges|
    {
      var c0, c1, c2, c3 := toLocal(BoxCorner(lo, hi, 0)), toLocal(BoxCorner(lo, hi, 1)),
                            toLocal(BoxCorner(lo, hi, 2)), toLocal(BoxCorner(lo, hi, 3));
      var c4, c5, c6, c7 := toLocal(BoxCorner(lo, hi, 4)), toLocal(BoxCorner(lo, hi, 5)),
                            toLocal(BoxCorner(lo, hi, 6)), toLocal(BoxCorner(lo, hi, 7));
      [EdgeOf(c0, c1), EdgeOf(c2, c3), EdgeOf(c4, c5), EdgeOf(c6, c7),
       EdgeOf(c0, c2), EdgeOf(c1, c3), EdgeOf(c4, c6), EdgeOf(c5, c7),
       EdgeOf(c0, c4), EdgeOf(c1, c5), EdgeOf(c2, c6), EdgeOf(c3, c7)]
    }

    /** The k-th box edge joins the two corners BoxEdges names. */
    lemma BoxEdgeListMatches(lo: Vec3, hi: Vec3, toLocal: Vec3 -> Vec3, k: int)
      requires verticalStep > 0.0
      requires 0 <= k < |BoxEdges|
      ensures BoxEdgeList(lo, hi, toLocal)[k]
        == EdgeOf(toLocal(BoxCorner(lo, hi, BoxEdges[k].0)), toLocal(BoxCorner(lo, hi, BoxEdges[k].1)))
    {
    }

    /** addPayload(Bounds, Matrix4x4): the 12 edges of a transformed box. */
    method AddBox(lo: Vec3, hi: Vec3, toLocal: Vec3 -> Vec3)
      requires Valid()
      modifies this`profile
      ensures Valid()
      ensures profile == RasterAll(old(profile), BoxEdgeList(lo, hi, toLocal))
    {
      var verts := new Vec3[8];
      for i := 0 to 8
        invariant profile == old(profile)
        invariant forall j :: 0 <= j < i ==> verts[j] == toLocal(BoxCorner(lo, hi, j))
      {
        verts[i] := toLocal(BoxCorner(lo, hi, i));
      }
      AddBoxEdges(verts[..], lo, hi, toLocal);
    }

    /** The 12 addPayloadEdge calls of addPayload(Bounds, Matrix4x4), over its corner array. */
    method AddBoxEdges(verts: seq<Vec3>, lo: Vec3, hi: Vec3, toLocal: Vec3 -> Vec3)
      requires Valid()
      requires |verts| == 8 && forall j :: 0 <= j < 8 ==> verts[j] == toLocal(BoxCorner(lo, hi, j))
      modifies this`profile
      ensures Valid()
      ensures profile == RasterAll(old(profile), BoxEdgeList(lo, hi, toLocal))
    {
      ghost var es := BoxEdgeList(lo, hi, toLocal);
      ghost var p0 := profile;
      assert es[..0] == [];
      AddFourEdges(verts[0], verts[1], verts[2], verts[3], verts[4], verts[5], verts[6], verts[7], p0, es, 0);
      AddFourEdges(verts[0], verts[2], verts[1], verts[3], verts[4], verts[6], verts[5], verts[7], p0, es, 4);
      AddFourEdges(verts[0], verts[4], verts[1], verts[5], verts[2], verts[6], verts[3], verts[7], p0, es, 8);
      assert es[..12] == es;
      assert es == BoxEdgeList(lo, hi, toLocal);
    }

    /** addPayload(Collider), mesh branch: three edges per triangle. */
    method AddMesh(verts: seq<Vec3>, faces: seq<int>, toLocal: Vec3 -> Vec3)
      requires Valid()
      requires |faces| % 3 == 0
      requires forall i :: 0 <= i < |faces| ==> 0 <= faces[i] < |verts|
      modifies this`profile
      ensures Valid()
      ensures profile == RasterAll(old(profile), MeshEdges(verts, faces, toLocal, ofs))
    {
      ghost var p0 := profile;
      var i := 0;
      while i < |faces|
        invariant 0 <= i <= |faces| && i % 3 == 0
        invariant Valid()
        invariant profile == RasterAll(p0, MeshEdges(verts, faces[..i], toLocal, ofs))
      {
        TriangleStep(i, |faces|);
        var v0 := toLocal(verts[faces[i]]);
        var v1 := toLocal(verts[faces[i + 1]]);
        var v2 := toLocal(verts[faces[i + 2]]);
        ghost var done := MeshEdges(verts, faces[..i], toLocal, ofs);
        MeshEdgesSnoc(verts, faces, toLocal, ofs, i);
        AddTriangle(v0, v1, v2, p0, done);
        i := i + 3;
      }
      assert faces[..i] == faces;
    }

    /** The three addPayloadEdge calls of one triangle. */
    method AddTriangle(v0: Vec3, v1: Vec3, v2: Vec3, ghost p0: seq<real>, ghost done: seq<Edge>)
      requires Valid()
      requires profile == RasterAll(p0, done)
      modifies this`profile
      ensures Valid()
      ensures profile == RasterAll(p0, done + [EdgeOf(v0, v1), EdgeOf(v1, v2), EdgeOf(v2, v0)])
    {
      ghost var e0, e1, e2 := EdgeOf(v0, v1), EdgeOf(v1, v2), EdgeOf(v2, v0);
      AddPayloadEdge(v0, v1);
      RasterAllSnoc(p0, done, e0);
      AddPayloadEdge(v1, v2);
      RasterAllSnoc(p0, done + [e0], e1);
      AddPayloadEdge(v2, v0);
      RasterAllSnoc(p0, done + [e0] + [e1], e2);
      assert done + [e0] + [e1] + [e2] == done + [e0, e1, e2];
    }

    /** The edges of the triangles in faces, as the mesh loop issues them. */
    function MeshEdges(verts: seq<Vec3>, faces: seq<int>, toLocal: Vec3 -> Vec3, o: real): (r: seq<Edge>)
      requires verticalStep > 0.0
      requires |faces| % 3 == 0
      requires forall i :: 0 <= i < |faces| ==> 0 <= faces[i] < |verts|
      ensures |r| == |faces|
    {
      if |faces| == 0 then []
      else
        var n := |faces| - 3;
        var v0, v1, v2 := toLocal(verts[faces[n]]), toLocal(verts[faces[n + 1]]), toLocal(verts[faces[n + 2]]);
        MeshEdges(verts, faces[..n], toLocal, o) + [EdgeAt(v0, v1, o), EdgeAt(v1, v2, o), EdgeAt(v2, v0, o)]
    }

    /** Four consecutive addPayloadEdge calls of a sequence of edges. */
    method AddFourEdges(a0: Vec3, b0: Vec3, a1: Vec3, b1: Vec3, a2: Vec3, b2: Vec3, a3: Vec3, b3: Vec3,
                        ghost p0: seq<real>, ghost es: seq<Edge>, ghost k: nat)
      requires Valid()
      requires k + 4 <= |es|
      requires es[k] == EdgeOf(a0, b0) && es[k + 1] == EdgeOf(a1, b1)
      requires es[k + 2] == EdgeOf(a2, b2) && es[k + 3] == EdgeOf(a3, b3)
      requires profile == RasterAll(p0, es[..k])
      modifies this`profile
      ensures Valid()
      ensures profile == RasterAll(p0, es[..k + 4])
    {
      AddEdgeStep(a0, b0, p0, es, k);
      AddEdgeStep(a1, b1, p0, es, k + 1);
      AddEdgeStep(a2, b2, p0, es, k + 2);
      AddEdgeStep(a3, b3, p0, es, k + 3);
    }

    /** One addPayloadEdge call of a sequence of edges. */
    method AddEdgeStep(v0: Vec3, v1: Vec3, ghost p0: seq<real>, ghost es: seq<Edge>, ghost k: nat)
      requires Valid()
      requires k < |es| && es[k] == EdgeOf(v0, v1)
      requires profile == RasterAll(p0, es[..k])
      modifies this`profile
      ensures Valid()
      ensures profile == RasterAll(p0, es[..k + 1])
    {
      AddPayloadEdge(v0, v1);
      Step(p0, es, k);
    }

    /** The edges of the first i + 3 indices: those of the first i, then one more triangle. */
    lemma MeshEdgesSnoc(verts: seq<Vec3>, faces: seq<int>, toLocal: Vec3 -> Vec3, o: real, i: int)
      requires verticalStep > 0.0
      requires 0 <= i && i + 3 <= |faces| && i % 3 == 0
      requires forall j :: 0 <= j < |faces| ==> 0 <= faces[j] < |verts|
      ensures MeshEdges(verts, faces[..i + 3], toLocal, o)
        == MeshEdges(verts, faces[..i], toLocal, o)
           + [EdgeAt(toLocal(verts[faces[i]]), toLocal(verts[faces[i + 1]]), o),
              EdgeAt(toLocal(verts[faces[i + 1]]), toLocal(verts[faces[i + 2]]), o),
              EdgeAt(toLocal(verts[faces[i + 2]]), toLocal(verts[faces[i]]), o)]
    {
      assert faces[..i + 3][..i] == faces[..i];
    }

    /** Edge k of a mesh joins the two vertices MeshEdgePairs names. */
    lemma {:induction false} MeshEdgesFollowPairs(verts: seq<Vec3>, faces: seq<int>, toLocal: Vec3 -> Vec3, o: real)
      requires verticalStep > 0.0
      requires |faces| % 3 == 0
      requires forall i :: 0 <= i < |faces| ==> 0 <= faces[i] < |verts|
      ensures forall k :: 0 <= k < |faces| ==>
        MeshEdges(verts, faces, toLocal, o)[k]
        == EdgeAt(toLocal(verts[MeshEdgePairs(faces)[k].0]), toLocal(verts[MeshEdgePairs(faces)[k].1]), o)
    {
      if |faces| > 0 {
        var n := |faces| - 3;
        MeshEdgesFollowPairs(verts, faces[..n], toLocal, o);
      }
    }

    lemma Step(p0: seq<real>, es: seq<Edge>, k: nat)
      requires k < |es|
      requires profile == Raster(RasterAll(p0, es[..k]), es[k])
      ensures profile == RasterAll(p0, es[..k + 1])
    {
      assert es[..k + 1] == es[..k] + [es[k]];
      RasterAllSnoc(p0, es[..k], es[k]);
    }
  }
}
