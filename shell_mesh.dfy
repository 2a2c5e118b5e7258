// The mesh of one fairing side: rebuildMesh sweeps the silhouette around
// its share of the circle in numSegs segments and fills the vertex and
// triangle buffers block by block.  The current and the older FairingSide
// share this code line for line, so one model covers both.
module ShellMesh {
  import opened Geometry

  /** The buffer sizes rebuildMesh computes from the segment count ns and the silhouette length len. */
  datatype MeshCounts = MeshCounts(
    mainVerts: int, mainFaces: int,
    sideVerts: int, sideFaces: int,
    ringVerts: int, ringFaces: int,
    totalVerts: int, totalFaces: int)

  /**
   * The counts as the source computes them: a closed fairing ends in one
   * apex vertex per surface, an inline one (inlineHeight > 0) in a full
   * row and a second ring.
   */
  function Counts(ns: int, len: int, inline: bool): MeshCounts {
    var mainVerts := if inline then (ns + 1) * len else (ns + 1) * (len - 1) + 1;
    var mainFaces := if inline then ns * (len - 1) * 2 else ns * ((len - 2) * 2 + 1);
    var sideVerts := len * 2;
    var sideFaces := (len - 1) * 2;
    var ringVerts := (ns + 1) * 2;
    var ringFaces := ns * 2;
    MeshCounts(mainVerts, mainFaces, sideVerts, sideFaces, ringVerts, ringFaces,
      mainVerts * 2 + sideVerts * 2 + ringVerts + (if inline then ringVerts else 0),
      mainFaces * 2 + sideFaces * 2 + ringFaces + (if inline then ringFaces else 0))
  }

  /** With at least two silhouette points no count is negative. */
  lemma CountsNonNegative(ns: nat, len: int, inline: bool)
    requires len >= 2
    ensures var c := Counts(ns, len, inline);
      && c.mainVerts >= 1 && c.mainFaces >= 0 && c.sideVerts >= 4 && c.sideFaces >= 2
      && c.ringVerts >= 2 && c.ringFaces >= 0
  {
    var l1 := len - 1;
    var l2 := len - 2;
    assert (ns + 1) * len >= 1;
    assert (ns + 1) * l1 >= 0;
    assert ns * l1 >= 0;
    assert ns * (l2 * 2 + 1) >= 0;
  }

  /** Rows of quads in the main surfaces: all gaps between silhouette points, less the apex row of a closed fairing. */
  function QuadRows(len: int, inline: bool): int {
    len - (if inline then 1 else 2)
  }

  // ---------------------------------------------------------------------
  // The triangle index buffer, block by block, as the loops write it.

  /** The two triangles of the quad whose first corner is main vertex vi, on the outer or the inner surface. */
  function MainQuad(vi: int, ns: int, nmv: int, inner: bool): seq<int> {
    if inner then
      [nmv + vi, nmv + vi + 1, nmv + vi + 1 + ns + 1,
       nmv + vi, nmv + vi + 1 + ns + 1, nmv + vi + ns + 1]
    else
      [vi, vi + 1 + ns + 1, vi + 1,
       vi, vi + ns + 1, vi + 1 + ns + 1]
  }

  /** The first j quads of the row starting at main vertex v0. */
  function MainRow(v0: int, j: nat, ns: int, nmv: int, inner: bool): (r: seq<int>)
    ensures |r| == 6 * j
  {
    if j == 0 then [] else MainRow(v0, j - 1, ns, nmv, inner) + MainQuad(v0 + j - 1, ns, nmv, inner)
  }

  /** The first r rows of quads; row i starts at main vertex i * (ns + 1). */
  function MainRows(r: nat, ns: nat, nmv: int, inner: bool): seq<int> {
    if r == 0 then [] else MainRows(r - 1, ns, nmv, inner) + MainRow((r - 1) * (ns + 1), ns, ns, nmv, inner)
  }

  /** The tip triangle of segment vi, fanned into the apex vertex of its surface. */
  function TipTriangle(vi: int, nmv: int, inner: bool): seq<int> {
    if inner then [nmv + vi, nmv + vi + 1, nmv + nmv - 1] else [vi, nmv - 1, vi + 1]
  }

  /** The first j tip triangles, starting at main vertex v0. */
  function TipFan(v0: int, j: nat, nmv: int, inner: bool): (r: seq<int>)
    ensures |r| == 3 * j
  {
    if j == 0 then [] else TipFan(v0, j - 1, nmv, inner) + TipTriangle(v0 + j - 1, nmv, inner)
  }

  /** One main surface with nmv main vertices: its rows of quads, then the tip fan of a closed fairing. */
  function MainBlock(ns: nat, len: int, inline: bool, nmv: int, inner: bool): seq<int>
    requires len >= 2
  {
    var rows := QuadRows(len, inline);
    MainRows(rows, ns, nmv, inner) + (if inline then [] else TipFan(rows * (ns + 1), ns, nmv, inner))
  }

  /** The two triangles between strip vertex pairs vi, vi+1 and vi+2, vi+3; the inner copy is shifted by off. */
  function StripQuad(vi: int, off: int, inner: bool): seq<int> {
    if inner then
      [off + vi, off + vi + 3, off + vi + 1,
       off + vi, off + vi + 2, off + vi + 3]
    else
      [vi, vi + 1, vi + 3,
       vi, vi + 3, vi + 2]
  }

  /** The first n quads of a strip whose vertex pairs start at v0. */
  function Strip(v0: int, n: nat, off: int, inner: bool): (r: seq<int>)
    ensures |r| == 6 * n
  {
    if n == 0 then [] else Strip(v0, n - 1, off, inner) + StripQuad(v0 + 2 * (n - 1), off, inner)
  }

  /**
   * The triangle buffer for nmv main vertices: outer and inner main
   * surface, outer and inner side strip, the base ring and, for an inline
   * fairing, the top ring.
   */
  function TriangleBlocks(ns: nat, len: int, inline: bool, nmv: int): seq<int>
    requires len >= 2
  {
    MainBlock(ns, len, inline, nmv, false) + MainBlock(ns, len, inline, nmv, true)
      + OuterBlocks(ns, len, inline, nmv)
  }

  /** The triangle buffer rebuildMesh writes. */
  function Triangles(ns: nat, len: int, inline: bool): seq<int>
    requires len >= 2
  {
    TriangleBlocks(ns, len, inline, Counts(ns, len, inline).mainVerts)
  }

  // ---------------------------------------------------------------------
  // Sizes: each block fills three slots per face it counts.

  lemma MulOdd(a: int, b: int)
    ensures a * (b * 2 + 1) == 2 * (a * b) + a
  {
  }

  lemma {:induction false} MainRowsLength(r: nat, ns: nat, nmv: int, inner: bool)
    ensures |MainRows(r, ns, nmv, inner)| == 6 * (ns * r)
  {
    if r > 0 {
      MainRowsLength(r - 1, ns, nmv, inner);
      assert ns * r == ns * (r - 1) + ns;
    }
  }

  lemma MainBlockLength(ns: nat, len: int, inline: bool, nmv: int, inner: bool)
    requires len >= 2
    ensures |MainBlock(ns, len, inline, nmv, inner)| == Counts(ns, len, inline).mainFaces * 3
  {
    var rows := QuadRows(len, inline);
    var mf := Counts(ns, len, inline).mainFaces;
    MainRowsLength(rows, ns, nmv, inner);
    var p := ns * rows;
    if inline {
      assert mf == ns * (len - 1) * 2;
      assert mf == 2 * p;
    } else {
      assert mf == ns * ((len - 2) * 2 + 1);
      MulOdd(ns, rows);
      assert mf == 2 * p + ns;
      assert |TipFan(rows * (ns + 1), ns, nmv, inner)| == 3 * ns;
    }
  }

  /**
   * The blocks tile the triangle buffer exactly: each main surface holds
   * mainFaces triangles, each side strip sideFaces, each ring ringFaces,
   * and together they fill the totalFaces * 3 entries the buffer is
   * allocated with.
   */
  lemma TrianglesTiling(ns: nat, len: int, inline: bool)
    requires len >= 2
    ensures var c := Counts(ns, len, inline);
      && |MainBlock(ns, len, inline, c.mainVerts, false)| == c.mainFaces * 3
      && |MainBlock(ns, len, inline, c.mainVerts, true)| == c.mainFaces * 3
      && |Strip(c.mainVerts * 2, len - 1, 0, false)| == c.sideFaces * 3
      && |Strip(c.mainVerts * 2, len - 1, c.sideVerts, true)| == c.sideFaces * 3
      && |Strip(c.mainVerts * 2 + c.sideVerts * 2, ns, 0, false)| == c.ringFaces * 3
      && |Triangles(ns, len, inline)| == c.totalFaces * 3
  {
    var c := Counts(ns, len, inline);
    MainBlockLength(ns, len, inline, c.mainVerts, false);
    MainBlockLength(ns, len, inline, c.mainVerts, true);
  }

  // ---------------------------------------------------------------------
  // Index ranges.

  /** Every entry of s lies in [lo, hi). */
  predicate AllIn(s: seq<int>, lo: int, hi: int) {
    forall k :: 0 <= k < |s| ==> lo <= s[k] < hi
  }

  lemma AllInAppend(a: seq<int>, b: seq<int>, lo: int, hi: int)
    requires AllIn(a, lo, hi) && AllIn(b, lo, hi)
    ensures AllIn(a + b, lo, hi)
  {
    forall k | 0 <= k < |a + b|
      ensures lo <= (a + b)[k] < hi
    {
      if k >= |a| {
        assert (a + b)[k] == b[k - |a|];
      }
    }
  }

  lemma AllInWiden(s: seq<int>, lo: int, hi: int, lo': int, hi': int)
    requires AllIn(s, lo, hi) && lo' <= lo && hi <= hi'
    ensures AllIn(s, lo', hi')
  {
  }

  /** The surface's base index: 0 outside, numMainVerts inside. */
  function Surface(nmv: int, inner: bool): int {
    if inner then nmv else 0
  }

  lemma {:induction false} MainRowIn(v0: int, j: nat, ns: nat, nmv: int, inner: bool)
    requires j >= 1
    ensures AllIn(MainRow(v0, j, ns, nmv, inner), Surface(nmv, inner) + v0, Surface(nmv, inner) + v0 + j + ns + 2)
  {
    var b := Surface(nmv, inner);
    var q := MainQuad(v0 + j - 1, ns, nmv, inner);
    assert AllIn(q, b + v0, b + v0 + j + ns + 2);
    if j > 1 {
      MainRowIn(v0, j - 1, ns, nmv, inner);
      AllInWiden(MainRow(v0, j - 1, ns, nmv, inner), b + v0, b + v0 + j + ns + 1, b + v0, b + v0 + j + ns + 2);
      AllInAppend(MainRow(v0, j - 1, ns, nmv, inner), q, b + v0, b + v0 + j + ns + 2);
    }
  }

  lemma {:induction false} MainRowsIn(r: nat, ns: nat, nmv: int, inner: bool)
    ensures AllIn(MainRows(r, ns, nmv, inner), Surface(nmv, inner), Surface(nmv, inner) + (r + 1) * (ns + 1))
  {
    var b := Surface(nmv, inner);
    if r > 0 {
      var v0 := (r - 1) * (ns + 1);
      assert (r + 1) * (ns + 1) == v0 + ns + ns + 2;
      assert r * (ns + 1) == v0 + ns + 1;
      MainRowsIn(r - 1, ns, nmv, inner);
      AllInWiden(MainRows(r - 1, ns, nmv, inner), b, b + r * (ns + 1), b, b + (r + 1) * (ns + 1));
      if ns > 0 {
        MainRowIn(v0, ns, ns, nmv, inner);
        AllInWiden(MainRow(v0, ns, ns, nmv, inner), b + v0, b + v0 + ns + ns + 2, b, b + (r + 1) * (ns + 1));
      }
      AllInAppend(MainRows(r - 1, ns, nmv, inner), MainRow(v0, ns, ns, nmv, inner), b, b + (r + 1) * (ns + 1));
    }
  }

  lemma {:induction false} TipFanIn(v0: int, j: nat, nmv: int, inner: bool)
    requires 0 <= v0 && v0 + j + 1 < nmv
    ensures AllIn(TipFan(v0, j, nmv, inner), Surface(nmv, inner), Surface(nmv, inner) + nmv)
  {
    if j > 0 {
      TipFanIn(v0, j - 1, nmv, inner);
      AllInAppend(TipFan(v0, j - 1, nmv, inner), TipTriangle(v0 + j - 1, nmv, inner), Surface(nmv, inner), Surface(nmv, inner) + nmv);
    }
  }

  lemma {:induction false} StripIn(v0: int, n: nat, off: int, inner: bool)
    ensures AllIn(Strip(v0, n, off, inner), (if inner then off else 0) + v0, (if inner then off else 0) + v0 + 2 * n + 2)
  {
    if n > 0 {
      var b := if inner then off else 0;
      StripIn(v0, n - 1, off, inner);
      AllInWiden(Strip(v0, n - 1, off, inner), b + v0, b + v0 + 2 * n, b + v0, b + v0 + 2 * n + 2);
      AllInAppend(Strip(v0, n - 1, off, inner), StripQuad(v0 + 2 * (n - 1), off, inner), b + v0, b + v0 + 2 * n + 2);
    }
  }

  /**
   * The outer main surface only uses its own vertices [0, numMainVerts),
   * the inner one only [numMainVerts, 2 * numMainVerts), and no index
   * of the whole buffer reaches totalVerts.
   */
  lemma MulSucc(a: int, b: int)
    ensures (a + 1) * b == a * b + b
  {
  }

  /** The rows of quads end just below the apex of a closed fairing and at the last vertex of an inline one. */
  lemma MainVertsRows(ns: nat, len: int, inline: bool)
    requires len >= 2
    ensures var rows := QuadRows(len, inline);
      var nmv := Counts(ns, len, inline).mainVerts;
      && (rows + 1) * (ns + 1) <= nmv
      && (!inline ==> nmv == rows * (ns + 1) + ns + 2)
  {
    var rows := QuadRows(len, inline);
    MulSucc(rows, ns + 1);
    if inline {
      assert rows + 1 == len;
    } else {
      assert rows + 1 == len - 1;
    }
  }

  lemma MainBlockIn(ns: nat, len: int, inline: bool, inner: bool)
    requires len >= 2
    ensures var nmv := Counts(ns, len, inline).mainVerts;
      AllIn(MainBlock(ns, len, inline, nmv, inner), Surface(nmv, inner), Surface(nmv, inner) + nmv)
  {
    var nmv := Counts(ns, len, inline).mainVerts;
    MainVertsRows(ns, len, inline);
    MainBlockInFor(ns, len, inline, nmv, inner);
  }

  lemma MainBlockInFor(ns: nat, len: int, inline: bool, nmv: int, inner: bool)
    requires len >= 2
    requires (QuadRows(len, inline) + 1) * (ns + 1) <= nmv
    requires !inline ==> nmv == QuadRows(len, inline) * (ns + 1) + ns + 2
    ensures AllIn(MainBlock(ns, len, inline, nmv, inner), Surface(nmv, inner), Surface(nmv, inner) + nmv)
  {
    var rows := QuadRows(len, inline);
    var b := Surface(nmv, inner);
    MainRowsIn(rows, ns, nmv, inner);
    AllInWiden(MainRows(rows, ns, nmv, inner), b, b + (rows + 1) * (ns + 1), b, b + nmv);
    if !inline {
      TipFanIn(rows * (ns + 1), ns, nmv, inner);
      AllInAppend(MainRows(rows, ns, nmv, inner), TipFan(rows * (ns + 1), ns, nmv, inner), b, b + nmv);
    }
  }

  /**
   * The outer main surface only uses its own vertices [0, numMainVerts),
   * the inner one only [numMainVerts, 2 * numMainVerts), and no index
   * of the whole buffer reaches totalVerts.
   */
  lemma TrianglesIn(ns: nat, len: int, inline: bool)
    requires len >= 2
    ensures var c := Counts(ns, len, inline);
      && AllIn(MainBlock(ns, len, inline, c.mainVerts, false), 0, c.mainVerts)
      && AllIn(MainBlock(ns, len, inline, c.mainVerts, true), c.mainVerts, 2 * c.mainVerts)
      && AllIn(Triangles(ns, len, inline), 0, c.totalVerts)
  {
    var c := Counts(ns, len, inline);
    CountsNonNegative(ns, len, inline);
    MainBlockIn(ns, len, inline, false);
    MainBlockIn(ns, len, inline, true);
    BlocksIn(ns, len, inline, c.mainVerts, c.totalVerts);
  }

  lemma BlocksIn(ns: nat, len: int, inline: bool, nmv: int, tv: int)
    requires len >= 2 && nmv >= 0
    requires tv == nmv * 2 + len * 4 + (ns + 1) * 2 + (if inline then (ns + 1) * 2 else 0)
    requires AllIn(MainBlock(ns, len, inline, nmv, false), 0, nmv)
    requires AllIn(MainBlock(ns, len, inline, nmv, true), nmv, 2 * nmv)
    ensures AllIn(TriangleBlocks(ns, len, inline, nmv), 0, tv)
  {
    var m0 := MainBlock(ns, len, inline, nmv, false);
    var m1 := MainBlock(ns, len, inline, nmv, true);
    AllInWiden(m0, 0, nmv, 0, tv);
    AllInWiden(m1, nmv, 2 * nmv, 0, tv);
    OuterIn(ns, len, inline, nmv, tv);
    AllInAppend(m0, m1, 0, tv);
    AllInAppend(m0 + m1, OuterBlocks(ns, len, inline, nmv), 0, tv);
  }

  lemma OuterIn(ns: nat, len: int, inline: bool, nmv: int, tv: int)
    requires len >= 2 && nmv >= 0
    requires tv == nmv * 2 + len * 4 + (ns + 1) * 2 + (if inline then (ns + 1) * 2 else 0)
    ensures AllIn(OuterBlocks(ns, len, inline, nmv), 0, tv)
  {
    var ringStart := nmv * 2 + len * 4;
    var s := Strip(nmv * 2, len - 1, 0, false) + Strip(nmv * 2, len - 1, len * 2, true);
    var r := Strip(ringStart, ns, 0, false) + (if inline then Strip(ringStart + 2 * ns + 2, ns, 0, false) else []);
    SidesIn(nmv, len, tv);
    RingsIn(ns, inline, ringStart, tv);
    AllInAppend(s, r, 0, tv);
    assert OuterBlocks(ns, len, inline, nmv) == s + r;
  }

  lemma SidesIn(nmv: int, len: int, tv: int)
    requires len >= 2 && nmv >= 0 && nmv * 2 + len * 4 <= tv
    ensures AllIn(Strip(nmv * 2, len - 1, 0, false) + Strip(nmv * 2, len - 1, len * 2, true), 0, tv)
  {
    var s0 := Strip(nmv * 2, len - 1, 0, false);
    var s1 := Strip(nmv * 2, len - 1, len * 2, true);
    StripIn(nmv * 2, len - 1, 0, false);
    StripIn(nmv * 2, len - 1, len * 2, true);
    AllInWiden(s0, nmv * 2, nmv * 2 + 2 * (len - 1) + 2, 0, tv);
    AllInWiden(s1, len * 2 + nmv * 2, len * 2 + nmv * 2 + 2 * (len - 1) + 2, 0, tv);
    AllInAppend(s0, s1, 0, tv);
  }

  lemma RingsIn(ns: nat, inline: bool, ringStart: int, tv: int)
    requires ringStart >= 0 && tv == ringStart + (ns + 1) * 2 + (if inline then (ns + 1) * 2 else 0)
    ensures AllIn(Strip(ringStart, ns, 0, false) + (if inline then Strip(ringStart + 2 * ns + 2, ns, 0, false) else []), 0, tv)
  {
    var r0 := Strip(ringStart, ns, 0, false);
    StripIn(ringStart, ns, 0, false);
    AllInWiden(r0, ringStart, ringStart + 2 * ns + 2, 0, tv);
    if inline {
      var r1 := Strip(ringStart + 2 * ns + 2, ns, 0, false);
      StripIn(ringStart + 2 * ns + 2, ns, 0, false);
      AllInWiden(r1, ringStart + 2 * ns + 2, ringStart + 2 * ns + 2 + 2 * ns + 2, 0, tv);
      AllInAppend(r0, r1, 0, tv);
    } else {
      assert r0 + [] == r0;
    }
  }

  // ---------------------------------------------------------------------
  // Winding: the inner copies are the outer triangles turned over.

  /** The slot that holds the same corner once the last two corners of every triangle are swapped. */
  function Corner(k: int): int {
    if k % 3 == 1 then k + 1 else if k % 3 == 2 then k - 1 else k
  }

  /**
   * The triangles of s shifted by off with the last two corners of each
   * swapped, i.e. with opposite winding (a trailing partial triangle is
   * dropped).
   */
  function Flipped(s: seq<int>, off: int): seq<int>
    decreases |s|
  {
    if |s| < 3 then []
    else Flipped(s[..|s| - 3], off) + [s[|s| - 3] + off, s[|s| - 1] + off, s[|s| - 2] + off]
  }

  /** On whole triangles Flipped keeps the length, moves every corner by off and swaps the last two corners of each triangle. */
  lemma {:induction false} FlippedCorners(s: seq<int>, off: int)
    requires |s| % 3 == 0
    ensures |Flipped(s, off)| == |s|
    ensures forall k :: 0 <= k < |s| ==> 0 <= Corner(k) < |s| && Flipped(s, off)[k] == s[Corner(k)] + off
    decreases |s|
  {
    if |s| > 0 {
      var s' := s[..|s| - 3];
      FlippedCorners(s', off);
      forall k | 0 <= k < |s|
        ensures 0 <= Corner(k) < |s| && Flipped(s, off)[k] == s[Corner(k)] + off
      {
        if k < |s'| {
          assert Flipped(s, off)[k] == Flipped(s', off)[k];
        } else {
          assert k % 3 == (k - |s'|) % 3;
        }
      }
    }
  }

  lemma FlippedTriangle(t: seq<int>, off: int)
    requires |t| == 3
    ensures Flipped(t, off) == [t[0] + off, t[2] + off, t[1] + off]
  {
    assert t[..0] == [];
  }

  /** Flipping works triangle by triangle: it distributes over appending m whole triangles. */
  lemma {:induction false} FlippedAppend(a: seq<int>, b: seq<int>, off: int, m: nat)
    requires |b| == 3 * m
    ensures Flipped(a + b, off) == Flipped(a, off) + Flipped(b, off)
    decreases m
  {
    if m > 0 {
      var b' := b[..|b| - 3];
      var last := [b[|b| - 3] + off, b[|b| - 1] + off, b[|b| - 2] + off];
      FlippedAppend(a, b', off, m - 1);
      assert (a + b)[..|a + b| - 3] == a + b';
      calc {
        Flipped(a + b, off);
        Flipped(a + b', off) + last;
        Flipped(a, off) + Flipped(b', off) + last;
        Flipped(a, off) + Flipped(b, off);
      }
    } else {
      assert a + b == a;
    }
  }

  /** Turning over a prefix and m more triangles separately turns over their concatenation. */
  /** Turning over a prefix and then one more triangle turns over their concatenation. */
  lemma FlippedSnoc(a: seq<int>, fa: seq<int>, t: seq<int>, ft: seq<int>, off: int, s: seq<int>, fs: seq<int>)
    requires |t| == 3 && fa == Flipped(a, off) && ft == [t[0] + off, t[2] + off, t[1] + off]
    requires s == a + t && fs == fa + ft
    ensures fs == Flipped(s, off)
  {
    FlippedTriangle(t, off);
    FlippedAppend(a, t, off, 1);
  }

  /** The inner quad is the outer quad turned over. */
  lemma MainQuadFlipped(vi: int, ns: nat, nmv: int)
    ensures MainQuad(vi, ns, nmv, true) == Flipped(MainQuad(vi, ns, nmv, false), nmv)
  {
    var q := MainQuad(vi, ns, nmv, false);
    FlippedAppend(q[..3], q[3..], nmv, 1);
    FlippedTriangle(q[..3], nmv);
    FlippedTriangle(q[3..], nmv);
    assert q == q[..3] + q[3..];
  }

  lemma StripQuadFlipped(vi: int, off: int)
    ensures StripQuad(vi, off, true) == Flipped(StripQuad(vi, 0, false), off)
  {
    var q := StripQuad(vi, 0, false);
    FlippedAppend(q[..3], q[3..], off, 1);
    FlippedTriangle(q[..3], off);
    FlippedTriangle(q[3..], off);
    assert q == q[..3] + q[3..];
  }

  lemma {:induction false} MainRowFlipped(v0: int, j: nat, ns: nat, nmv: int)
    ensures MainRow(v0, j, ns, nmv, true) == Flipped(MainRow(v0, j, ns, nmv, false), nmv)
  {
    if j > 0 {
      MainRowFlipped(v0, j - 1, ns, nmv);
      FlippedAppend(MainRow(v0, j - 1, ns, nmv, false), MainQuad(v0 + j - 1, ns, nmv, false), nmv, 2);
      MainQuadFlipped(v0 + j - 1, ns, nmv);
    }
  }

  lemma {:induction false} MainRowsFlipped(r: nat, ns: nat, nmv: int)
    ensures MainRows(r, ns, nmv, true) == Flipped(MainRows(r, ns, nmv, false), nmv)
  {
    if r > 0 {
      MainRowsFlipped(r - 1, ns, nmv);
      MainRowFlipped((r - 1) * (ns + 1), ns, ns, nmv);
      FlippedAppend(MainRows(r - 1, ns, nmv, false), MainRow((r - 1) * (ns + 1), ns, ns, nmv, false), nmv, 2 * ns);
    }
  }

  lemma {:induction false} TipFanFlipped(v0: int, j: nat, nmv: int)
    ensures TipFan(v0, j, nmv, true) == Flipped(TipFan(v0, j, nmv, false), nmv)
  {
    if j > 0 {
      var a, fa := TipFan(v0, j - 1, nmv, false), TipFan(v0, j - 1, nmv, true);
      var t, ft := TipTriangle(v0 + j - 1, nmv, false), TipTriangle(v0 + j - 1, nmv, true);
      TipFanFlipped(v0, j - 1, nmv);
      FlippedSnoc(a, fa, t, ft, nmv, TipFan(v0, j, nmv, false), TipFan(v0, j, nmv, true));
    }
  }

  lemma {:induction false} StripFlipped(v0: int, n: nat, off: int)
    ensures Strip(v0, n, off, true) == Flipped(Strip(v0, n, 0, false), off)
  {
    if n > 0 {
      StripFlipped(v0, n - 1, off);
      FlippedAppend(Strip(v0, n - 1, 0, false), StripQuad(v0 + 2 * (n - 1), 0, false), off, 2);
      StripQuadFlipped(v0 + 2 * (n - 1), off);
    }
  }

  /**
   * Each inner main or tip triangle is the outer one offset by
   * numMainVerts with its last two corners swapped, and each inner side
   * strip triangle is the outer one offset by numSideVerts the same way:
   * the inner surfaces face the other way.
   */
  lemma InnerSurfacesFlipped(ns: nat, len: int, inline: bool)
    requires len >= 2
    ensures var c := Counts(ns, len, inline);
      && MainBlock(ns, len, inline, c.mainVerts, true) == Flipped(MainBlock(ns, len, inline, c.mainVerts, false), c.mainVerts)
      && Strip(c.mainVerts * 2, len - 1, c.sideVerts, true) == Flipped(Strip(c.mainVerts * 2, len - 1, 0, false), c.sideVerts)
  {
    var c := Counts(ns, len, inline);
    MainBlockFlipped(ns, len, inline, c.mainVerts);
    StripFlipped(c.mainVerts * 2, len - 1, c.sideVerts);
  }

  lemma MainBlockFlipped(ns: nat, len: int, inline: bool, nmv: int)
    requires len >= 2
    ensures MainBlock(ns, len, inline, nmv, true) == Flipped(MainBlock(ns, len, inline, nmv, false), nmv)
  {
    var rows := QuadRows(len, inline);
    MainRowsFlipped(rows, ns, nmv);
    TipFanFlipped(rows * (ns + 1), ns, nmv);
    if !inline {
      FlippedAppend(MainRows(rows, ns, nmv, false), TipFan(rows * (ns + 1), ns, nmv, false), nmv, ns);
    } else {
      assert MainBlock(ns, len, inline, nmv, false) == MainRows(rows, ns, nmv, false);
      assert MainBlock(ns, len, inline, nmv, true) == MainRows(rows, ns, nmv, true);
    }
  }

  // ---------------------------------------------------------------------
  // The triangle loops of rebuildMesh over the index buffer.

  /** Writes the entries of q at a[at..], one slot after the other, as the source's running cursors do. */
  method Put<T>(a: array<T>, at: int, q: seq<T>)
    requires 0 <= at && at + |q| <= a.Length
    modifies a
    ensures a[at..at + |q|] == q
    ensures a[..at] == old(a[..at]) && a[at + |q|..] == old(a[at + |q|..])
  {
    for k := 0 to |q|
      invariant a[at..at + k] == q[..k]
      invariant a[..at] == old(a[..at]) && a[at + |q|..] == old(a[at + |q|..])
    {
      a[at + k] := q[k];
    }
  }

  /**
   * One step of a loop with two cursors: q1 goes on the end of the
   * outer block tri[lo1..t1], q2 on the end of the inner block
   * tri[lo2..t2], and nothing else changes.
   */
  method PutPair<T>(tri: array<T>, lo1: int, t1: int, q1: seq<T>, lo2: int, t2: int, q2: seq<T>, n: int)
    requires |q1| == |q2| == n
    requires 0 <= lo1 <= t1 && t1 + n <= lo2 <= t2 && t2 + n <= tri.Length
    modifies tri
    ensures tri[lo1..t1 + n] == old(tri[lo1..t1]) + q1
    ensures tri[lo2..t2 + n] == old(tri[lo2..t2]) + q2
    ensures tri[..lo1] == old(tri[..lo1]) && tri[t1 + n..lo2] == old(tri[t1 + n..lo2]) && tri[t2 + n..] == old(tri[t2 + n..])
  {
    ghost var s0 := tri[..];
    Put(tri, t1, q1);
    ghost var s1 := tri[..];
    Put(tri, t2, q2);
    ghost var s2 := tri[..];
    SpliceFacts(s0, s1, t1, q1);
    SpliceFacts(s1, s2, t2, q2);
    assert s2[lo1..t1 + |q1|] == s1[lo1..t1 + |q1|] == s0[lo1..t1] + q1;
    assert s2[lo2..t2 + |q2|] == s1[lo2..t2] + q2 == s0[lo2..t2] + q2;
  }

  /** Two sequences that agree on [lo, hi) agree on every slice inside it. */
  lemma Narrow<T>(a: seq<T>, b: seq<T>, lo: int, hi: int, lo': int, hi': int)
    requires 0 <= lo <= lo' <= hi' <= hi <= |a| == |b| && a[lo..hi] == b[lo..hi]
    ensures a[lo'..hi'] == b[lo'..hi']
  {
    forall k | lo' <= k < hi'
      ensures a[k] == b[k]
    {
      assert a[k] == a[lo..hi][k - lo];
      assert b[k] == b[lo..hi][k - lo];
    }
    assert a[lo'..hi'] == b[lo'..hi'];
  }

  /** A write of q at position at leaves the rest of the sequence as it was. */
  lemma SpliceFacts<T>(s0: seq<T>, s1: seq<T>, at: int, q: seq<T>)
    requires 0 <= at && at + |q| <= |s0| == |s1|
    requires s1[at..at + |q|] == q && s1[..at] == s0[..at] && s1[at + |q|..] == s0[at + |q|..]
    ensures forall lo, hi :: 0 <= lo <= hi <= at ==> s1[lo..hi] == s0[lo..hi]
    ensures forall lo, hi :: at + |q| <= lo <= hi <= |s0| ==> s1[lo..hi] == s0[lo..hi]
    ensures forall lo :: 0 <= lo <= at ==> s1[lo..at + |q|] == s0[lo..at] + q
  {
    var e := at + |q|;
    assert s1[0..at] == s1[..at] && s0[0..at] == s0[..at];
    assert s1[e..|s0|] == s1[e..] && s0[e..|s0|] == s0[e..];
    forall lo, hi | 0 <= lo <= hi <= at
      ensures s1[lo..hi] == s0[lo..hi]
    {
      Narrow(s1, s0, 0, at, lo, hi);
    }
    forall lo, hi | e <= lo <= hi <= |s0|
      ensures s1[lo..hi] == s0[lo..hi]
    {
      Narrow(s1, s0, e, |s0|, lo, hi);
    }
    forall lo | 0 <= lo <= at
      ensures s1[lo..e] == s0[lo..at] + q
    {
      SliceSplit(s1, lo, at, e);
      Narrow(s1, s0, 0, at, lo, at);
    }
  }

  /** The inner loop of the main faces: the ns quads of the row starting at v0, outer at ti1 and inner at ti2. */
  method FillMainRow(tri: array<int>, v0: int, ti1: int, ti2: int, ns: nat, nmv: int)
    returns (vi: int, ti1': int, ti2': int)
    requires 0 <= ti1 && ti1 + 6 * ns <= ti2 && ti2 + 6 * ns <= tri.Length
    modifies tri
    ensures vi == v0 + ns && ti1' == ti1 + 6 * ns && ti2' == ti2 + 6 * ns
    ensures tri[ti1..ti1'] == MainRow(v0, ns, ns, nmv, false)
    ensures tri[ti2..ti2'] == MainRow(v0, ns, ns, nmv, true)
    ensures tri[..ti1] == old(tri[..ti1]) && tri[ti1'..ti2] == old(tri[ti1'..ti2]) && tri[ti2'..] == old(tri[ti2'..])
  {
    vi, ti1', ti2' := v0, ti1, ti2;
    for j := 0 to ns
      invariant vi == v0 + j && ti1' == ti1 + 6 * j && ti2' == ti2 + 6 * j
      invariant tri[ti1..ti1'] == MainRow(v0, j, ns, nmv, false)
      invariant tri[ti2..ti2'] == MainRow(v0, j, ns, nmv, true)
      invariant tri[..ti1] == old(tri[..ti1]) && tri[ti1'..ti2] == old(tri[ti1'..ti2]) && tri[ti2'..] == old(tri[ti2'..])
    {
      ghost var before := tri[..];
      MainRowSucc(v0, j, vi, ns, nmv, false);
      MainRowSucc(v0, j, vi, ns, nmv, true);
      PutPair(tri, ti1, ti1', MainQuad(vi, ns, nmv, false), ti2, ti2', MainQuad(vi, ns, nmv, true), 6);
      Narrow(before, old(tri[..]), ti1', ti2, ti1' + 6, ti2);
      SuffixKept(before, old(tri[..]), ti2', ti2' + 6);
      vi, ti1', ti2' := vi + 1, ti1' + 6, ti2' + 6;
    }
  }

  /** The main tip faces of a closed fairing: ns triangles fanned into each apex. */
  method FillTipFan(tri: array<int>, v0: int, ti1: int, ti2: int, ns: nat, nmv: int)
    returns (vi: int, ti1': int, ti2': int)
    requires 0 <= ti1 && ti1 + 3 * ns <= ti2 && ti2 + 3 * ns <= tri.Length
    modifies tri
    ensures vi == v0 + ns && ti1' == ti1 + 3 * ns && ti2' == ti2 + 3 * ns
    ensures tri[ti1..ti1'] == TipFan(v0, ns, nmv, false)
    ensures tri[ti2..ti2'] == TipFan(v0, ns, nmv, true)
    ensures tri[..ti1] == old(tri[..ti1]) && tri[ti1'..ti2] == old(tri[ti1'..ti2]) && tri[ti2'..] == old(tri[ti2'..])
  {
    ghost var orig := tri[..];
    vi, ti1', ti2' := v0, ti1, ti2;
    for j := 0 to ns
      invariant vi == v0 + j && ti1' == ti1 + 3 * j && ti2' == ti2 + 3 * j
      invariant tri[ti1..ti1'] == TipFan(v0, j, nmv, false)
      invariant tri[ti2..ti2'] == TipFan(v0, j, nmv, true)
      invariant tri[..ti1] == orig[..ti1] && tri[ti1'..ti2] == orig[ti1'..ti2] && tri[ti2'..] == orig[ti2'..]
    {
      TipFanPass(tri, v0, j, vi, ti1, ti1', ti2, ti2', nmv, orig);
      vi, ti1', ti2' := vi + 1, ti1' + 3, ti2' + 3;
    }
  }

  /** One pass of the tip fan loop: triangle j on both surfaces. */
  method TipFanPass(tri: array<int>, v0: int, j: nat, vi: int, ti1: int, c1: int, ti2: int, c2: int, nmv: int,
                    ghost orig: seq<int>)
    requires vi == v0 + j && c1 == ti1 + 3 * j && c2 == ti2 + 3 * j
    requires 0 <= ti1 && c1 + 3 <= ti2 && c2 + 3 <= tri.Length == |orig|
    requires tri[ti1..c1] == TipFan(v0, j, nmv, false) && tri[ti2..c2] == TipFan(v0, j, nmv, true)
    requires tri[..ti1] == orig[..ti1] && tri[c1..ti2] == orig[c1..ti2] && tri[c2..] == orig[c2..]
    modifies tri
    ensures tri[ti1..c1 + 3] == TipFan(v0, j + 1, nmv, false) && tri[ti2..c2 + 3] == TipFan(v0, j + 1, nmv, true)
    ensures tri[..ti1] == orig[..ti1] && tri[c1 + 3..ti2] == orig[c1 + 3..ti2] && tri[c2 + 3..] == orig[c2 + 3..]
  {
    ghost var before := tri[..];
    TipFanSucc(v0, j, vi, nmv, false);
    TipFanSucc(v0, j, vi, nmv, true);
    PutPair(tri, ti1, c1, TipTriangle(vi, nmv, false), ti2, c2, TipTriangle(vi, nmv, true), 3);
    Narrow(before, orig, c1, ti2, c1 + 3, ti2);
    SuffixKept(before, orig, c2, c2 + 3);
  }

  /** The side strip faces: n quads up the strip, outer at ti1 and inner (vertices shifted by off) at ti2. */
  method FillSideFaces(tri: array<int>, v0: int, ti1: int, ti2: int, n: nat, off: int)
    requires 0 <= ti1 && ti1 + 6 * n <= ti2 && ti2 + 6 * n <= tri.Length
    modifies tri
    ensures tri[ti1..ti1 + 6 * n] == Strip(v0, n, 0, false)
    ensures tri[ti2..ti2 + 6 * n] == Strip(v0, n, off, true)
    ensures tri[..ti1] == old(tri[..ti1]) && tri[ti1 + 6 * n..ti2] == old(tri[ti1 + 6 * n..ti2]) && tri[ti2 + 6 * n..] == old(tri[ti2 + 6 * n..])
  {
    ghost var orig := tri[..];
    var vi, t1, t2 := v0, ti1, ti2;
    for i := 0 to n
      invariant vi == v0 + 2 * i && t1 == ti1 + 6 * i && t2 == ti2 + 6 * i
      invariant tri[ti1..t1] == Strip(v0, i, 0, false)
      invariant tri[ti2..t2] == Strip(v0, i, off, true)
      invariant tri[..ti1] == orig[..ti1] && tri[t1..ti2] == orig[t1..ti2] && tri[t2..] == orig[t2..]
    {
      SideStep(tri, v0, vi, ti1, t1, ti2, t2, i, n, off, orig);
      vi, t1, t2 := vi + 2, t1 + 6, t2 + 6;
    }
  }

  /** One pass of the side strip loop: quad i appended to the outer and the inner strip. */
  method SideStep(tri: array<int>, v0: int, vi: int, ti1: int, t1: int, ti2: int, t2: int, i: nat, n: nat, off: int, ghost orig: seq<int>)
    requires i < n && 0 <= ti1 && ti1 + 6 * n <= ti2 && ti2 + 6 * n <= tri.Length == |orig|
    requires vi == v0 + 2 * i && t1 == ti1 + 6 * i && t2 == ti2 + 6 * i
    requires tri[ti1..t1] == Strip(v0, i, 0, false)
    requires tri[ti2..t2] == Strip(v0, i, off, true)
    requires tri[..ti1] == orig[..ti1] && tri[t1..ti2] == orig[t1..ti2] && tri[t2..] == orig[t2..]
    modifies tri
    ensures tri[ti1..t1 + 6] == Strip(v0, i + 1, 0, false)
    ensures tri[ti2..t2 + 6] == Strip(v0, i + 1, off, true)
    ensures tri[..ti1] == orig[..ti1] && tri[t1 + 6..ti2] == orig[t1 + 6..ti2] && tri[t2 + 6..] == orig[t2 + 6..]
  {
    ghost var before := tri[..];
    StripSucc(v0, i, vi, 0, false);
    StripSucc(v0, i, vi, off, true);
    PutPair(tri, ti1, t1, StripQuad(vi, 0, false), ti2, t2, StripQuad(vi, off, true), 6);
    Narrow(before, orig, t1, ti2, t1 + 6, ti2);
    SuffixKept(before, orig, t2, t2 + 6);
  }

  /** A ring's faces: n quads around the ring whose vertex pairs start at v0. */
  method FillRingFaces(tri: array<int>, v0: int, ti1: int, n: nat)
    returns (vi: int, ti1': int)
    requires 0 <= ti1 && ti1 + 6 * n <= tri.Length
    modifies tri
    ensures vi == v0 + 2 * n && ti1' == ti1 + 6 * n
    ensures tri[ti1..ti1'] == Strip(v0, n, 0, false)
    ensures tri[..ti1] == old(tri[..ti1]) && tri[ti1'..] == old(tri[ti1'..])
  {
    vi, ti1' := v0, ti1;
    for j := 0 to n
      invariant vi == v0 + 2 * j && ti1' == ti1 + 6 * j
      invariant tri[ti1..ti1'] == Strip(v0, j, 0, false)
      invariant tri[..ti1] == old(tri[..ti1]) && tri[ti1'..] == old(tri[ti1'..])
    {
      ghost var outer := tri[ti1..ti1'];
      Put(tri, ti1', StripQuad(vi, 0, false));
      assert tri[ti1..ti1' + 6] == tri[ti1..ti1'] + tri[ti1'..ti1' + 6];
      assert tri[ti1..ti1'] == outer;
      vi, ti1' := vi + 2, ti1' + 6;
    }
  }

  lemma MulMono(a: nat, b: nat, c: nat)
    requires b <= c
    ensures a * b <= a * c
  {
  }

  /** Row i + 1 of rows ends ns quads after row i, still within the rows. */
  lemma RowCount(ns: nat, i: nat, rows: nat)
    requires i < rows
    ensures 0 <= ns * i && ns * (i + 1) == ns * i + ns && ns * (i + 1) <= ns * rows
  {
    MulMono(ns, i + 1, rows);
  }

  /** The main-face loops: row by row both surfaces, then the tip fan of a closed fairing. */
  method FillMainFaces(tri: array<int>, ns: nat, len: int, inline: bool, nmv: int, nmf: int)
    requires len >= 2
    requires nmf * 3 == 6 * (ns * QuadRows(len, inline)) + (if inline then 0 else 3 * ns)
    requires 6 * (ns * QuadRows(len, inline)) >= 0
    requires 2 * nmf * 3 <= tri.Length
    modifies tri
    ensures tri[..nmf * 3] == MainBlock(ns, len, inline, nmv, false)
    ensures tri[nmf * 3..2 * nmf * 3] == MainBlock(ns, len, inline, nmv, true)
    ensures tri[2 * nmf * 3..] == old(tri[2 * nmf * 3..])
  {
    var rows := QuadRows(len, inline);
    var half := nmf * 3;
    if inline {
      FillOpen(tri, ns, rows, nmv, half);
    } else {
      FillClosed(tri, ns, rows, nmv, half);
    }
  }

  /** The main faces of an inline fairing: the rows of quads alone, on both surfaces. */
  method FillOpen(tri: array<int>, ns: nat, rows: nat, nmv: int, half: int)
    requires half == 6 * (ns * rows) && 2 * half <= tri.Length
    modifies tri
    ensures tri[..half] == MainRows(rows, ns, nmv, false) + []
    ensures tri[half..2 * half] == MainRows(rows, ns, nmv, true) + []
    ensures tri[2 * half..] == old(tri[2 * half..])
  {
    var vi, ti1, ti2 := FillRows(tri, ns, rows, nmv, half);
    assert tri[..half] == MainRows(rows, ns, nmv, false) + [];
  }

  /** The main faces of a closed fairing: the rows of quads, then the tip fan, on both surfaces. */
  method FillClosed(tri: array<int>, ns: nat, rows: nat, nmv: int, half: int)
    requires half == 6 * (ns * rows) + 3 * ns && 2 * half <= tri.Length
    modifies tri
    ensures tri[..half] == MainRows(rows, ns, nmv, false) + TipFan(rows * (ns + 1), ns, nmv, false)
    ensures tri[half..2 * half] == MainRows(rows, ns, nmv, true) + TipFan(rows * (ns + 1), ns, nmv, true)
    ensures tri[2 * half..] == old(tri[2 * half..])
  {
    ghost var before := tri[..];
    var vi, ti1, ti2 := FillRows(tri, ns, rows, nmv, half);
    ghost var mid := tri[..];
    vi, ti1, ti2 := TipFanStep(tri, vi, ti1, ti2, ns, nmv, half, rows);
    SuffixKept(mid, before, ti2 - 3 * ns, ti2);
  }

  /** What stays equal from position i on also stays equal from any later position. */
  lemma SuffixKept<T>(a: seq<T>, b: seq<T>, i: int, j: int)
    requires 0 <= i <= j <= |a| == |b| && a[i..] == b[i..]
    ensures a[j..] == b[j..]
  {
    assert a[j..] == a[i..][j - i..];
    assert b[j..] == b[i..][j - i..];
  }

  /** The row loop of the main faces: rows rows of quads on both surfaces, the inner block starting at half. */
  method FillRows(tri: array<int>, ns: nat, rows: nat, nmv: int, half: int)
    returns (vi: int, ti1: int, ti2: int)
    requires 6 * (ns * rows) <= half && half + 6 * (ns * rows) <= tri.Length
    modifies tri
    ensures vi == rows * (ns + 1) && ti1 == 6 * (ns * rows) && ti2 == half + ti1
    ensures tri[..ti1] == MainRows(rows, ns, nmv, false)
    ensures tri[half..ti2] == MainRows(rows, ns, nmv, true)
    ensures tri[ti2..] == old(tri[ti2..])
  {
    vi, ti1, ti2 := 0, 0, half;
    for i := 0 to rows
      invariant vi == i * (ns + 1) && ti1 == 6 * (ns * i) && ti2 == half + ti1
      invariant 0 <= ti1 <= 6 * (ns * rows)
      invariant tri[..ti1] == MainRows(i, ns, nmv, false)
      invariant tri[half..ti2] == MainRows(i, ns, nmv, true)
      invariant tri[ti2..] == old(tri[ti2..])
    {
      RowCount(ns, i, rows);
      vi, ti1, ti2 := MainRowStep(tri, vi, ti1, ti2, ns, nmv, half, i, rows);
    }
  }

  /** One pass of the outer row loop: row i of quads appended to both main blocks. */
  method MainRowStep(tri: array<int>, v0: int, ti1: int, ti2: int, ns: nat, nmv: int, half: int, i: nat, rows: nat)
    returns (vi: int, ti1': int, ti2': int)
    requires i < rows && 6 * (ns * rows) <= half && half + 6 * (ns * rows) <= tri.Length
    requires v0 == i * (ns + 1) && ti1 == 6 * (ns * i) && ti2 == half + ti1
    requires 0 <= ti1 && ti1 + 6 * ns <= 6 * (ns * rows)
    requires tri[..ti1] == MainRows(i, ns, nmv, false)
    requires tri[half..ti2] == MainRows(i, ns, nmv, true)
    modifies tri
    ensures vi == (i + 1) * (ns + 1) && ti1' == 6 * (ns * (i + 1)) && ti2' == half + ti1'
    ensures tri[..ti1'] == MainRows(i + 1, ns, nmv, false)
    ensures tri[half..ti2'] == MainRows(i + 1, ns, nmv, true)
    ensures tri[ti2'..] == old(tri[ti2'..])
  {
    assert ns * (i + 1) == ns * i + ns;
    MulSucc(i, ns + 1);
    MainRowsSucc(i, ns, nmv, false);
    MainRowsSucc(i, ns, nmv, true);
    ghost var prev := tri[..];
    vi, ti1', ti2' := FillMainRow(tri, v0, ti1, ti2, ns, nmv);
    GrowTwo(tri[..], prev, ti1, ti1', half, ti2, ti2', MainRows(i, ns, nmv, false), MainRows(i, ns, nmv, true));
    vi := vi + 1;
  }

  /** One more row of quads, the row starting at main vertex i * (ns + 1). */
  lemma MainRowsSucc(i: nat, ns: nat, nmv: int, inner: bool)
    ensures MainRows(i + 1, ns, nmv, inner) == MainRows(i, ns, nmv, inner) + MainRow(i * (ns + 1), ns, ns, nmv, inner)
  {
    assert i + 1 - 1 == i;
  }

  /** One more quad of a row, the one at main vertex vi = v0 + j. */
  lemma MainRowSucc(v0: int, j: nat, vi: int, ns: int, nmv: int, inner: bool)
    requires vi == v0 + j
    ensures MainRow(v0, j + 1, ns, nmv, inner) == MainRow(v0, j, ns, nmv, inner) + MainQuad(vi, ns, nmv, inner)
  {
    assert v0 + (j + 1) - 1 == vi;
  }

  /** One more triangle of a tip fan, the one at main vertex vi = v0 + j. */
  lemma TipFanSucc(v0: int, j: nat, vi: int, nmv: int, inner: bool)
    requires vi == v0 + j
    ensures TipFan(v0, j + 1, nmv, inner) == TipFan(v0, j, nmv, inner) + TipTriangle(vi, nmv, inner)
  {
    assert v0 + (j + 1) - 1 == vi;
  }

  /** One more quad of a strip, the one whose vertex pairs start at vi = v0 + 2 * i. */
  lemma StripSucc(v0: int, i: nat, vi: int, off: int, inner: bool)
    requires vi == v0 + 2 * i
    ensures Strip(v0, i + 1, off, inner) == Strip(v0, i, off, inner) + StripQuad(vi, off, inner)
  {
    assert v0 + 2 * (i + 1 - 1) == vi;
  }

  /** Two blocks, one starting at 0 and one at half, each grown by what was written just past its end. */
  lemma GrowTwo<T>(cur: seq<T>, prev: seq<T>, t1: int, t1': int, half: int, t2: int, t2': int, a: seq<T>, b: seq<T>)
    requires 0 <= t1 <= t1' <= half <= t2 <= t2' <= |cur| == |prev|
    requires prev[..t1] == a && prev[half..t2] == b
    requires cur[..t1] == prev[..t1] && cur[t1'..t2] == prev[t1'..t2]
    ensures cur[..t1'] == a + cur[t1..t1'] && cur[half..t2'] == b + cur[t2..t2']
  {
    assert cur[..t1'] == cur[..t1] + cur[t1..t1'];
    Narrow(cur, prev, t1', t2, half, t2);
    assert cur[half..t2'] == cur[half..t2] + cur[t2..t2'];
  }

  /** The tip fan appended to both main blocks of a closed fairing. */
  method TipFanStep(tri: array<int>, v0: int, ti1: int, ti2: int, ns: nat, nmv: int, half: int, rows: nat)
    returns (vi: int, ti1': int, ti2': int)
    requires 0 <= ti1 && ti1 + 3 * ns <= half && ti2 == half + ti1 && ti2 + 3 * ns <= tri.Length
    requires tri[..ti1] == MainRows(rows, ns, nmv, false)
    requires tri[half..ti2] == MainRows(rows, ns, nmv, true)
    modifies tri
    ensures vi == v0 + ns && ti1' == ti1 + 3 * ns && ti2' == ti2 + 3 * ns
    ensures tri[..ti1'] == MainRows(rows, ns, nmv, false) + TipFan(v0, ns, nmv, false)
    ensures tri[half..ti2'] == MainRows(rows, ns, nmv, true) + TipFan(v0, ns, nmv, true)
    ensures tri[ti2'..] == old(tri[ti2'..])
  {
    ghost var prev := tri[..];
    vi, ti1', ti2' := FillTipFan(tri, v0, ti1, ti2, ns, nmv);
    GrowTwo(tri[..], prev, ti1, ti1', half, ti2, ti2', MainRows(rows, ns, nmv, false), MainRows(rows, ns, nmv, true));
  }

  /** The main-face count splits into the rows of quads and, for a closed fairing, the tip fan. */
  lemma MainFacesSplit(ns: nat, len: int, inline: bool)
    requires len >= 2
    ensures Counts(ns, len, inline).mainFaces * 3 == 6 * (ns * QuadRows(len, inline)) + (if inline then 0 else 3 * ns)
    ensures 6 * (ns * QuadRows(len, inline)) >= 0
  {
    var rows := QuadRows(len, inline);
    if !inline {
      MulOdd(ns, rows);
    }
  }

  /**
   * The triangle part of rebuildMesh: allocates totalFaces * 3 entries and
   * fills them block by block, leaving exactly the buffer Triangles describes.
   */
  method BuildTriangles(ns: nat, len: int, inline: bool) returns (tri: array<int>)
    requires len >= 2
    ensures fresh(tri)
    ensures tri.Length == Counts(ns, len, inline).totalFaces * 3
    ensures tri[..] == Triangles(ns, len, inline)
  {
    var c := Counts(ns, len, inline);
    CountsNonNegative(ns, len, inline);
    MainFacesSplit(ns, len, inline);
    tri := new int[c.totalFaces * 3];
    FillTriangles(tri, ns, len, inline, c.mainVerts, c.mainFaces);
  }

  /** A buffer grown past mid by y, over a prefix that held x from lo on. */
  lemma GlueTail<T>(cur: seq<T>, before: seq<T>, lo: int, mid: int, x: seq<T>, y: seq<T>)
    requires 0 <= lo <= mid <= |cur| == |before|
    requires before[lo..mid] == x && cur[..mid] == before[..mid] && cur[mid..] == y
    ensures cur[lo..] == x + y && cur[..lo] == before[..lo]
  {
    Narrow(cur, before, 0, mid, lo, mid);
    Narrow(cur, before, 0, mid, 0, lo);
    assert cur[lo..] == cur[lo..mid] + cur[mid..];
  }

  lemma SliceSplit<T>(s: seq<T>, a: int, b: int, c: int)
    requires 0 <= a <= b <= c <= |s|
    ensures s[a..c] == s[a..b] + s[b..c]
  {
  }

  /** The face loops of rebuildMesh, in order: main faces, side strips, base ring, top ring. */
  method FillTriangles(tri: array<int>, ns: nat, len: int, inline: bool, nmv: int, nmf: int)
    requires len >= 2 && nmv >= 0 && nmf >= 0
    requires nmf * 3 == 6 * (ns * QuadRows(len, inline)) + (if inline then 0 else 3 * ns)
    requires 6 * (ns * QuadRows(len, inline)) >= 0
    requires tri.Length == nmf * 6 + (len - 1) * 12 + ns * 6 + (if inline then ns * 6 else 0)
    modifies tri
    ensures tri[..] == TriangleBlocks(ns, len, inline, nmv)
  {
    var b1 := nmf * 6;
    FillMainFaces(tri, ns, len, inline, nmv, nmf);
    ghost var m := tri[..b1];
    assert m == MainBlock(ns, len, inline, nmv, false) + MainBlock(ns, len, inline, nmv, true) by {
      SliceSplit(tri[..], 0, nmf * 3, b1);
    }
    FillOuterFaces(tri, ns, len, inline, nmv, b1);
    SliceSplit(tri[..], 0, b1, tri.Length);
    assert tri[..] == tri[..b1] + tri[b1..];
  }

  /** The blocks after the main faces: both side strips, the base ring and, inline, the top ring. */
  function OuterBlocks(ns: nat, len: int, inline: bool, nmv: int): seq<int>
    requires len >= 2
  {
    var ringStart := nmv * 2 + len * 4;
    (Strip(nmv * 2, len - 1, 0, false) + Strip(nmv * 2, len - 1, len * 2, true))
      + (Strip(ringStart, ns, 0, false) + (if inline then Strip(ringStart + 2 * ns + 2, ns, 0, false) else []))
  }

  /** The side-strip and ring face loops of rebuildMesh, written from b1 onwards. */
  method FillOuterFaces(tri: array<int>, ns: nat, len: int, inline: bool, nmv: int, b1: int)
    requires len >= 2 && 0 <= b1
    requires tri.Length == b1 + (len - 1) * 12 + ns * 6 + (if inline then ns * 6 else 0)
    modifies tri
    ensures tri[..b1] == old(tri[..b1])
    ensures tri[b1..] == OuterBlocks(ns, len, inline, nmv)
  {
    var b3 := b1 + (len - 1) * 12;
    var ringStart := nmv * 2 + len * 4;
    ghost var sides := Strip(nmv * 2, len - 1, 0, false) + Strip(nmv * 2, len - 1, len * 2, true);
    ghost var rings := Strip(ringStart, ns, 0, false) + (if inline then Strip(ringStart + 2 * ns + 2, ns, 0, false) else []);
    assert OuterBlocks(ns, len, inline, nmv) == sides + rings;
    FillSideBlocks(tri, nmv, len, b1);
    ghost var before := tri[..];
    assert before[b1..b3] == sides;
    FillRingBlocks(tri, ns, inline, ringStart, b3);
    Combine(tri[..], before, b1, b3);
  }

  /** Writing only from b3 on keeps [0, b3), so the slice from b1 is the kept part followed by the new one. */
  lemma Combine<T>(t: seq<T>, before: seq<T>, b1: int, b3: int)
    requires 0 <= b1 <= b3 <= |t| == |before| && t[..b3] == before[..b3]
    ensures t[..b1] == before[..b1] && t[b1..] == before[b1..b3] + t[b3..]
  {
    Narrow(t, before, 0, b3, b1, b3);
    Narrow(t, before, 0, b3, 0, b1);
    SliceSplit(t, b1, b3, |t|);
  }

  /** Both side-strip loops: the strip at segment 0, then the one at segment ns. */
  method FillSideBlocks(tri: array<int>, nmv: int, len: int, b1: int)
    requires len >= 2 && 0 <= b1 && b1 + (len - 1) * 12 <= tri.Length
    modifies tri
    ensures tri[..b1] == old(tri[..b1]) && tri[b1 + (len - 1) * 12..] == old(tri[b1 + (len - 1) * 12..])
    ensures tri[b1..b1 + (len - 1) * 12] == Strip(nmv * 2, len - 1, 0, false) + Strip(nmv * 2, len - 1, len * 2, true)
  {
    var b2 := b1 + (len - 1) * 6;
    var b3 := b2 + (len - 1) * 6;
    FillSideFaces(tri, nmv * 2, b1, b2, len - 1, len * 2);
    SliceSplit(tri[..], b1, b2, b3);
  }

  /** The base ring loop and, for an inline fairing, the top ring loop. */
  method FillRingBlocks(tri: array<int>, ns: nat, inline: bool, ringStart: int, b3: int)
    requires 0 <= b3 && tri.Length == b3 + ns * 6 + (if inline then ns * 6 else 0)
    modifies tri
    ensures tri[..b3] == old(tri[..b3])
    ensures tri[b3..] == Strip(ringStart, ns, 0, false) + (if inline then Strip(ringStart + 2 * ns + 2, ns, 0, false) else [])
  {
    var vi, ti1 := FillRingFaces(tri, ringStart, b3, ns);
    if inline {
      ghost var mid := ti1;
      ghost var before := tri[..];
      ghost var first := Strip(ringStart, ns, 0, false);
      assert before[b3..mid] == first && before[..b3] == old(tri[..b3]);
      vi, ti1 := FillRingFaces(tri, vi + 2, ti1, ns);
      assert ti1 == tri.Length && tri[mid..] == tri[mid..ti1];
      GlueTail(tri[..], before, b3, mid, first, Strip(ringStart + 2 * ns + 2, ns, 0, false));
    } else {
      assert tri[b3..] == tri[b3..ti1];
    }
  }
}
