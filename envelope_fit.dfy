// The numeric half of the fairing base's shape recalculation: from the
// payload profile (one maximum radius per height bucket) to the fairing
// envelope — the cylinder radius maxRad and the heights cylStart / cylEnd
// where the cylinder meets the base cone and the nose (or top) cone.
// Every scan is greedy: it walks the buckets and stops at the first one
// that does not fit the cone.
module EnvelopeFit {
  import opened Geometry
  import opened Utilities

  /** Height of profile bucket i. */
  function RowY(i: int, step: real, ofs: real): real {
    i as real * step + ofs
  }

  lemma RowYMonotone(i: int, j: int, step: real, ofs: real)
    requires i <= j && step > 0.0
    ensures RowY(i, step, ofs) <= RowY(j, step, ofs)
  {
    assert RowY(j, step, ofs) - RowY(i, step, ofs) == (j - i) as real * step;
  }

  // ---------------------------------------------------------------------
  // The inner test loops

  /**
   * The inner loop of the base-cone and nose scans: buckets j .. hi - 1 lie
   * under a straight cone line that starts at r and moves by d per bucket.
   */
  predicate RowsUnder(p: seq<real>, j: int, hi: int, r: real, d: real)
    requires 0 <= j && hi <= |p|
    decreases hi - j
  {
    j >= hi || (p[j] <= r && RowsUnder(p, j + 1, hi, r + d, d))
  }

  /** The cone test in closed form. */
  lemma {:induction false} RowsUnderClosed(p: seq<real>, j: int, hi: int, r: real, d: real)
    requires 0 <= j && hi <= |p|
    ensures RowsUnder(p, j, hi, r, d) <==> forall m :: j <= m < hi ==> p[m] <= r + (m - j) as real * d
    decreases hi - j
  {
    if j < hi {
      RowsUnderClosed(p, j + 1, hi, r + d, d);
      forall m | j + 1 <= m < hi
        ensures (p[m] <= r + d + (m - (j + 1)) as real * d) == (p[m] <= r + (m - j) as real * d)
      {
        assert (m - j) as real * d == (m - (j + 1)) as real * d + d;
      }
    }
  }

  /** The inner test loop, stopping at the first bucket above the line. */
  method RowsUnderLine(p: seq<real>, j0: int, hi: int, r0: real, d: real) returns (ok: bool)
    requires 0 <= j0 && hi <= |p|
    ensures ok == RowsUnder(p, j0, hi, r0, d)
  {
    ok := true;
    var j, r := j0, r0;
    while j < hi
      invariant j0 <= j
      invariant RowsUnder(p, j0, hi, r0, d) == RowsUnder(p, j, hi, r, d)
      decreases hi - j
    {
      if p[j] > r {
        ok := false;
        break;
      }
      j, r := j + 1, r + d;
    }
  }

  /**
   * The inner loop of the top-cone scan: like RowsUnder, but the line is
   * first raised to the floor r0 whenever it has dropped below it.
   */
  predicate ClampedRowsUnder(p: seq<real>, j: int, hi: int, r: real, d: real, r0: real)
    requires 0 <= j && hi <= |p|
    decreases hi - j
  {
    j >= hi || (var c := if r < r0 then r0 else r; p[j] <= c && ClampedRowsUnder(p, j + 1, hi, c + d, d, r0))
  }

  /** n steps of d, by repeated addition (n * d for n >= 0). */
  function Scale(n: int, d: real): real
    decreases n
  {
    if n <= 0 then 0.0 else Scale(n - 1, d) + d
  }

  lemma {:induction false} ScaleIsProduct(n: nat, d: real)
    ensures Scale(n, d) == n as real * d
  {
    if n > 0 {
      ScaleIsProduct(n - 1, d);
      calc {
        Scale(n, d);
        Scale(n - 1, d) + d;
        (n - 1) as real * d + d;
        { MulSucc(n - 1, d); }
        n as real * d;
      }
    }
  }

  lemma {:induction false} ScaleNonPositive(n: int, d: real)
    requires d <= 0.0
    ensures Scale(n, d) <= 0.0
    decreases n
  {
    if n > 0 {
      ScaleNonPositive(n - 1, d);
    }
  }

  /** Raising a falling line to its floor and then following it is the floored line. */
  lemma ClampShift(x: real, r: real, r0: real, d: real, a: real, b: real)
    requires d <= 0.0 && a <= 0.0 && b == a + d
    ensures (x <= Max(r0, (if r < r0 then r0 else r) + d + a)) == (x <= Max(r0, r + b))
  {
  }

  /** For a falling line an accepted bucket m lies under the line floored at r0. */
  lemma {:induction false} ClampedRowsUnderSound(p: seq<real>, j: int, hi: int, r: real, d: real, r0: real, m: int)
    requires 0 <= j <= m < hi <= |p| && d <= 0.0
    requires ClampedRowsUnder(p, j, hi, r, d, r0)
    ensures p[m] <= Max(r0, r + Scale(m - j, d))
    decreases m - j
  {
    var c := if r < r0 then r0 else r;
    if m > j {
      ClampedRowsUnderSound(p, j + 1, hi, c + d, d, r0, m);
      ScaleNonPositive(m - (j + 1), d);
      ClampShift(p[m], r, r0, d, Scale(m - (j + 1), d), Scale(m - j, d));
    }
  }

  /** The first bucket from j above the clamped line, or hi. */
  function Breach(p: seq<real>, j: int, hi: int, r: real, d: real, r0: real): int
    requires 0 <= j && hi <= |p|
    decreases hi - j
  {
    if j >= hi then hi
    else
      var c := if r < r0 then r0 else r;
      if p[j] <= c then Breach(p, j + 1, hi, c + d, d, r0) else j
  }

  /** A rejected cone has a bucket above the line floored at r0: the first breach. */
  lemma {:induction false} ClampedRowsUnderComplete(p: seq<real>, j: int, hi: int, r: real, d: real, r0: real)
    requires 0 <= j <= hi <= |p| && d <= 0.0
    requires !ClampedRowsUnder(p, j, hi, r, d, r0)
    ensures j <= Breach(p, j, hi, r, d, r0) < hi
    ensures var m := Breach(p, j, hi, r, d, r0); p[m] > Max(r0, r + Scale(m - j, d))
    decreases hi - j
  {
    var c := if r < r0 then r0 else r;
    if p[j] <= c {
      ClampedRowsUnderComplete(p, j + 1, hi, c + d, d, r0);
      var m := Breach(p, j, hi, r, d, r0);
      ScaleNonPositive(m - (j + 1), d);
      ClampShift(p[m], r, r0, d, Scale(m - (j + 1), d), Scale(m - j, d));
    } else {
      assert Scale(0, d) == 0.0;
    }
  }

  method ClampedRowsUnderLine(p: seq<real>, j0: int, hi: int, rStart: real, d: real, r0: real) returns (ok: bool)
    requires 0 <= j0 && hi <= |p|
    ensures ok == ClampedRowsUnder(p, j0, hi, rStart, d, r0)
  {
    ok := true;
    var j, r := j0, rStart;
    while j < hi
      invariant j0 <= j
      invariant ClampedRowsUnder(p, j0, hi, rStart, d, r0) == ClampedRowsUnder(p, j, hi, r, d, r0)
      decreases hi - j
    {
      if r < r0 {
        r := r0;
      }
      if p[j] > r {
        ok := false;
        break;
      }
      j, r := j + 1, r + d;
    }
  }

  // ---------------------------------------------------------------------
  // Base cone: fit it as high as possible

  /**
   * Bucket i is accepted by the base-cone scan: the cone from baseRad at
   * height 0 to maxRad at the bucket's height is at least minTan steep and
   * every bucket below lies under it.  At height 0 the slope is an infinite
   * float and the line through ofs < 0 starts at minus infinity, so the
   * first comparison fails: the bucket is rejected.
   */
  predicate BaseRowFits(p: seq<real>, i: int, ofs: real, step: real, baseRad: real, maxRad: real, minTan: real)
    requires 0 <= i <= |p|
  {
    && RowY(i, step, ofs) != 0.0
    && BaseSlope(i, ofs, step, baseRad, maxRad) >= minTan
    && UnderBaseCone(p, i, ofs, step, baseRad, BaseSlope(i, ofs, step, baseRad, maxRad))
  }

  /** Buckets 0 .. i - 1 lie under the line r0 + k * height. */
  predicate UnderBaseCone(p: seq<real>, i: int, ofs: real, step: real, r0: real, k: real)
    requires 0 <= i <= |p|
  {
    RowsUnder(p, 0, i, r0 + k * ofs, k * step)
  }

  /** The inner test of the base-cone scan for the line r0 + k * height. */
  method BaseConeClear(p: seq<real>, i: int, ofs: real, step: real, r0: real, k: real) returns (ok: bool)
    requires 0 <= i <= |p|
    ensures ok == UnderBaseCone(p, i, ofs, step, r0, k)
  {
    ok := RowsUnderLine(p, 0, i, r0 + k * ofs, k * step);
  }

  /** The slope of the base cone that reaches maxRad at bucket i. */
  function BaseSlope(i: int, ofs: real, step: real, baseRad: real, maxRad: real): real
    requires RowY(i, step, ofs) != 0.0
  {
    (maxRad - baseRad) / RowY(i, step, ofs)
  }

  /** The bucket at which the upward base-cone scan from i stops. */
  function BaseStop(p: seq<real>, i: int, ofs: real, step: real, baseRad: real, maxRad: real, minTan: real): (m: int)
    requires 1 <= i <= |p|
    ensures i <= m <= |p|
    decreases |p| - i
  {
    if i == |p| || !BaseRowFits(p, i, ofs, step, baseRad, maxRad, minTan) then i
    else BaseStop(p, i + 1, ofs, step, baseRad, maxRad, minTan)
  }

  /** cylStart after the scan: ofs when bucket 1 already fails, else the last accepted height. */
  function BaseConeStart(p: seq<real>, ofs: real, step: real, baseRad: real, maxRad: real, minTan: real): real
    requires |p| >= 1
  {
    var m := BaseStop(p, 1, ofs, step, baseRad, maxRad, minTan);
    if m == 1 then ofs else RowY(m - 1, step, ofs)
  }

  /** The scan accepts every bucket below its stop and the stop is the first failure. */
  lemma {:induction false} BaseStopIsFirstFailure(p: seq<real>, i: int, ofs: real, step: real, baseRad: real, maxRad: real, minTan: real)
    requires 1 <= i <= |p|
    ensures var m := BaseStop(p, i, ofs, step, baseRad, maxRad, minTan);
      && (forall q :: i <= q < m ==> BaseRowFits(p, q, ofs, step, baseRad, maxRad, minTan))
      && (m == |p| || !BaseRowFits(p, m, ofs, step, baseRad, maxRad, minTan))
    decreases |p| - i
  {
    if i < |p| && BaseRowFits(p, i, ofs, step, baseRad, maxRad, minTan) {
      BaseStopIsFirstFailure(p, i + 1, ofs, step, baseRad, maxRad, minTan);
    }
  }

  /**
   * cylStart stays at ofs when the first bucket already fails; otherwise it
   * is the height of the last accepted bucket, whose cone AcceptedBaseConeClears
   * describes.
   */
  lemma BaseConeStartFits(p: seq<real>, ofs: real, step: real, baseRad: real, maxRad: real, minTan: real)
    requires |p| >= 1
    ensures var m := BaseStop(p, 1, ofs, step, baseRad, maxRad, minTan);
      && (m == 1 ==> BaseConeStart(p, ofs, step, baseRad, maxRad, minTan) == ofs)
      && (m > 1 ==> BaseConeStart(p, ofs, step, baseRad, maxRad, minTan) == RowY(m - 1, step, ofs)
                    && BaseRowFits(p, m - 1, ofs, step, baseRad, maxRad, minTan))
  {
    BaseStopIsFirstFailure(p, 1, ofs, step, baseRad, maxRad, minTan);
  }

  /**
   * An accepted bucket i has a height y != 0, a slope k = (maxRad - baseRad) / y
   * of at least minTan, and the cone line baseRad + k * height clears every
   * bucket below it.
   */
  lemma AcceptedBaseConeClears(p: seq<real>, i: int, ofs: real, step: real, baseRad: real, maxRad: real, minTan: real)
    requires 0 <= i <= |p| && BaseRowFits(p, i, ofs, step, baseRad, maxRad, minTan)
    ensures RowY(i, step, ofs) != 0.0
    ensures BaseSlope(i, ofs, step, baseRad, maxRad) >= minTan
    ensures forall j :: 0 <= j < i ==> p[j] <= baseRad + BaseSlope(i, ofs, step, baseRad, maxRad) * RowY(j, step, ofs)
  {
    BaseConeClearsAll(p, i, baseRad, BaseSlope(i, ofs, step, baseRad, maxRad), ofs, step);
  }

  lemma BaseConeClearsAll(p: seq<real>, i: int, r0: real, k: real, ofs: real, step: real)
    requires 0 <= i <= |p|
    requires UnderBaseCone(p, i, ofs, step, r0, k)
    ensures forall j :: 0 <= j < i ==> p[j] <= r0 + k * RowY(j, step, ofs)
  {
    forall j | 0 <= j < i
      ensures p[j] <= r0 + k * RowY(j, step, ofs)
    {
      BaseConeClears(p, i, r0, k, ofs, step, j);
    }
  }

  /** One bucket under an accepted base cone, with the line through height 0. */
  lemma BaseConeClears(p: seq<real>, i: int, r0: real, k: real, ofs: real, step: real, j: int)
    requires 0 <= j < i <= |p|
    requires UnderBaseCone(p, i, ofs, step, r0, k)
    ensures p[j] <= r0 + k * RowY(j, step, ofs)
  {
    RowsUnderClosed(p, 0, i, r0 + k * ofs, k * step);
    LineThroughOffset(r0, k, ofs, step, j);
  }

  lemma LineThroughOffset(r0: real, k: real, ofs: real, step: real, j: int)
    ensures r0 + k * ofs + (j - 0) as real * (k * step) == r0 + k * RowY(j, step, ofs)
  {
    assert (j - 0) as real * (k * step) == k * (j as real * step);
  }

  /** The base-cone scan loop of recalcShape. */
  method FitBaseCone(p: seq<real>, ofs: real, step: real, baseRad: real, maxRad: real, minTan: real)
    returns (cylStart: real)
    requires |p| >= 1
    ensures cylStart == BaseConeStart(p, ofs, step, baseRad, maxRad, minTan)
  {
    cylStart := ofs;
    for i := 1 to |p|
      invariant BaseStop(p, i, ofs, step, baseRad, maxRad, minTan) == BaseStop(p, 1, ofs, step, baseRad, maxRad, minTan)
      invariant cylStart == if i == 1 then ofs else RowY(i - 1, step, ofs)
    {
      var y, fits := BaseRowTest(p, i, ofs, step, baseRad, maxRad, minTan);
      if !fits {
        break;
      }
      cylStart := y;
    }
  }

  /**
   * The body of the base-cone scan for bucket i: its height, and whether the
   * cone through it is accepted.  Each early return is a break of the scan.
   */
  method BaseRowTest(p: seq<real>, i: int, ofs: real, step: real, baseRad: real, maxRad: real, minTan: real)
    returns (y: real, fits: bool)
    requires 0 <= i <= |p|
    ensures y == RowY(i, step, ofs)
    ensures fits == BaseRowFits(p, i, ofs, step, baseRad, maxRad, minTan)
  {
    y := i as real * step + ofs;
    var r0 := baseRad;
    if y == 0.0 {
      return y, false;
    }
    var k := (maxRad - r0) / y;
    assert k == BaseSlope(i, ofs, step, baseRad, maxRad);
    if k < minTan {
      return y, false;
    }
    fits := BaseConeClear(p, i, ofs, step, r0, k);
  }

  /** The result of the base step: the cylinder radius and cylStart. */
  datatype BaseFit = BaseFit(maxRad: real, cylStart: real)

  /**
   * With a payload wider than the base the scan fits a base cone; otherwise
   * the fairing has no base cone and the cylinder takes the base radius.
   */
  function BaseStep(p: seq<real>, ofs: real, step: real, baseRad: real, maxRad: real, minTan: real): (r: BaseFit)
    requires |p| >= 1
    ensures r.maxRad >= baseRad && r.maxRad >= maxRad
    ensures maxRad <= baseRad ==> r == BaseFit(baseRad, 0.0)
    ensures maxRad > baseRad ==> r.maxRad == maxRad && r.cylStart == BaseConeStart(p, ofs, step, baseRad, maxRad, minTan)
  {
    if maxRad > baseRad then BaseFit(maxRad, BaseConeStart(p, ofs, step, baseRad, maxRad, minTan))
    else BaseFit(baseRad, 0.0)
  }

  // ---------------------------------------------------------------------
  // Nose cone: fit it as low as possible

  /** Bucket i is accepted by the nose scan: every bucket from i up lies under a line falling by s per bucket. */
  predicate NoseRowFits(p: seq<real>, i: int, maxRad: real, s: real)
    requires 0 <= i <= |p|
  {
    RowsUnder(p, i, |p|, maxRad - s, -s)
  }

  /** The lowest bucket the downward nose scan from i reaches (i + 1 when i itself fails). */
  function NoseLow(p: seq<real>, i: int, maxRad: real, s: real): (m: int)
    requires -1 <= i < |p|
    ensures 0 <= m <= i + 1
    decreases i + 1
  {
    if i < 0 || !NoseRowFits(p, i, maxRad, s) then i + 1 else NoseLow(p, i - 1, maxRad, s)
  }

  /** cylEnd after the nose scan; the top of the profile when no bucket fits. */
  function NoseConeEnd(p: seq<real>, ofs: real, step: real, maxRad: real, noseHeightRatio: real): real
    requires noseHeightRatio != 0.0
  {
    RowY(NoseLow(p, |p| - 1, maxRad, step / noseHeightRatio), step, ofs)
  }

  lemma {:induction false} NoseLowIsFirstFailure(p: seq<real>, i: int, maxRad: real, s: real)
    requires -1 <= i < |p|
    ensures var m := NoseLow(p, i, maxRad, s);
      && (forall q :: m <= q <= i ==> NoseRowFits(p, q, maxRad, s))
      && (m == 0 || !NoseRowFits(p, m - 1, maxRad, s))
    decreases i + 1
  {
    if 0 <= i && NoseRowFits(p, i, maxRad, s) {
      NoseLowIsFirstFailure(p, i - 1, maxRad, s);
    }
  }

  /**
   * The nose scan lowers cylEnd to bucket m: every bucket from m up is
   * accepted (see AcceptedNoseClears) and the scan stopped at bucket m - 1
   * because that one is not.
   */
  lemma NoseConeEndFits(p: seq<real>, ofs: real, step: real, maxRad: real, noseHeightRatio: real)
    requires noseHeightRatio != 0.0
    ensures var s := step / noseHeightRatio;
      var m := NoseLow(p, |p| - 1, maxRad, s);
      && NoseConeEnd(p, ofs, step, maxRad, noseHeightRatio) == RowY(m, step, ofs)
      && (m < |p| ==> NoseRowFits(p, m, maxRad, s))
      && (m == 0 || !NoseRowFits(p, m - 1, maxRad, s))
  {
    NoseLowIsFirstFailure(p, |p| - 1, maxRad, step / noseHeightRatio);
  }

  /** An accepted nose bucket m: every bucket j from m up lies under the nose line maxRad - (j - m + 1) * s. */
  lemma AcceptedNoseClears(p: seq<real>, m: int, maxRad: real, s: real)
    requires 0 <= m < |p| && NoseRowFits(p, m, maxRad, s)
    ensures forall j :: m <= j < |p| ==> p[j] <= maxRad - (j - m + 1) as real * s
  {
    RowsUnderClosed(p, m, |p|, maxRad - s, -s);
    forall j | m <= j < |p|
      ensures p[j] <= maxRad - (j - m + 1) as real * s
    {
      MulSucc(j - m, s);
      assert (j - m) as real * -s == -((j - m) as real * s);
    }
  }

  /** The nose scan loop of recalcShape. */
  method FitNose(p: seq<real>, ofs: real, step: real, maxRad: real, noseHeightRatio: real)
    returns (cylEnd: real)
    requires noseHeightRatio != 0.0
    ensures cylEnd == NoseConeEnd(p, ofs, step, maxRad, noseHeightRatio)
  {
    ghost var s0 := step / noseHeightRatio;
    cylEnd := |p| as real * step + ofs;
    var i := |p| - 1;
    while i >= 0
      invariant -1 <= i < |p|
      invariant NoseLow(p, i, maxRad, s0) == NoseLow(p, |p| - 1, maxRad, s0)
      invariant cylEnd == RowY(i + 1, step, ofs)
      decreases i + 1
    {
      var s := step / noseHeightRatio;
      var ok := RowsUnderLine(p, i, |p|, maxRad - s, -s);
      if !ok {
        break;
      }
      var y := i as real * step + ofs;
      cylEnd := y;
      i := i - 1;
    }
  }

  // ---------------------------------------------------------------------
  // Inline fairings: the top cone under the upper base

  /** The buckets below the upper base, and their lowest bucket height is below topY. */
  predicate BelowTop(profTop: int, ofs: real, step: real, topY: real) {
    profTop <= 0 || RowY(profTop - 1, step, ofs) < topY
  }

  /** profTop: the number of buckets below topY, at most the profile length. */
  function InlineProfTop(p: seq<real>, ofs: real, step: real, topY: real): (r: int)
    requires step > 0.0 && topY >= ofs
    ensures 0 <= r <= |p|
    ensures BelowTop(r, ofs, step, topY)
  {
    var x := (topY - ofs) / step;
    var t := CeilToInt(x);
    assert x >= 0.0;
    var r := if t > |p| then |p| else t;
    assert (r - 1) as real < x;
    assert (r - 1) as real * step < x * step;
    r
  }

  /** maxRad of an inline fairing: the largest bucket below the top (at least 0), at least topRad. */
  method InlineMaxRadius(p: seq<real>, profTop: int, topRad: real) returns (maxRad: real)
    requires 0 <= profTop <= |p|
    ensures maxRad == Max(ListMax0(p[..profTop]), topRad)
    ensures maxRad >= topRad && maxRad >= 0.0
    ensures forall i :: 0 <= i < profTop ==> p[i] <= maxRad
  {
    maxRad := 0.0;
    for i := 0 to profTop
      invariant maxRad == ListMax0(p[..i])
    {
      assert p[..i + 1][..i] == p[..i];
      maxRad := Max(maxRad, p[i]);
    }
    maxRad := Max(maxRad, topRad);
    ListMax0Bounds(p[..profTop]);
  }

  /** The floor r0 of the top cone: topRad, raised by the two buckets just under the top. */
  function TopFloor(p: seq<real>, profTop: int, topRad: real): (r0: real)
    requires 0 <= profTop <= |p|
    ensures r0 >= topRad
    ensures 0 < profTop < |p| ==> r0 >= p[profTop - 1] && (profTop >= 2 ==> r0 >= p[profTop - 2])
    ensures !(0 < profTop < |p|) ==> r0 == topRad
    ensures r0 == topRad || (0 < profTop < |p| && (r0 == p[profTop - 1] || (profTop >= 2 && r0 == p[profTop - 2])))
  {
    if 0 < profTop < |p| then
      var r := Max(topRad, p[profTop - 1]);
      if profTop - 2 >= 0 then Max(r, p[profTop - 2]) else r
    else topRad
  }

  /**
   * Bucket i is accepted by the top-cone scan: the cone falling from maxRad
   * towards r0 at topY, clamped at r0, clears buckets i .. profTop - 1.
   */
  predicate TopRowFits(p: seq<real>, i: int, profTop: int, ofs: real, step: real, topY: real, maxRad: real, r0: real)
    requires 0 <= i < profTop <= |p| && RowY(i, step, ofs) < topY
  {
    UnderTopCone(p, i, profTop, step, maxRad, TopSlope(i, ofs, step, topY, maxRad, r0), r0)
  }

  /** Buckets i .. profTop - 1 lie under the line falling from maxRad by k per unit height, floored at r0. */
  predicate UnderTopCone(p: seq<real>, i: int, profTop: int, step: real, maxRad: real, k: real, r0: real)
    requires 0 <= i <= profTop <= |p|
  {
    ClampedRowsUnder(p, i, profTop, maxRad + k * step, k * step, r0)
  }

  /** The inner test of the top-cone scan for slope k. */
  method TopConeClear(p: seq<real>, i: int, profTop: int, step: real, maxRad: real, k: real, r0: real) returns (ok: bool)
    requires 0 <= i <= profTop <= |p|
    ensures ok == UnderTopCone(p, i, profTop, step, maxRad, k, r0)
  {
    ok := ClampedRowsUnderLine(p, i, profTop, maxRad + k * step, k * step, r0);
  }

  /** The slope of the top cone from maxRad at bucket i to r0 at topY. */
  function TopSlope(i: int, ofs: real, step: real, topY: real, maxRad: real, r0: real): real
    requires RowY(i, step, ofs) != topY
  {
    (maxRad - r0) / (RowY(i, step, ofs) - topY)
  }

  /** The lowest bucket the downward top-cone scan from i reaches. */
  function TopLow(p: seq<real>, i: int, profTop: int, ofs: real, step: real, topY: real, maxRad: real, r0: real): (m: int)
    requires -1 <= i < profTop <= |p| && step > 0.0 && BelowTop(profTop, ofs, step, topY)
    ensures 0 <= m <= i + 1
    decreases i + 1
  {
    if i < 0 then 0
    else
      RowYMonotone(i, profTop - 1, step, ofs);
      if !TopRowFits(p, i, profTop, ofs, step, topY, maxRad, r0) then i + 1
      else TopLow(p, i - 1, profTop, ofs, step, topY, maxRad, r0)
  }

  /** cylEnd after the top-cone scan, starting from the profile top pulled under topY. */
  function TopConeEnd(p: seq<real>, profTop: int, ofs: real, step: real, topY: real, maxRad: real, r0: real): real
    requires 0 <= profTop <= |p| && step > 0.0 && BelowTop(profTop, ofs, step, topY)
  {
    var start := RowY(|p|, step, ofs);
    var pulled := if start > topY then topY - step else start;
    var m := TopLow(p, profTop - 1, profTop, ofs, step, topY, maxRad, r0);
    if m == profTop then pulled else RowY(m, step, ofs)
  }

  lemma {:induction false} TopLowIsFirstFailure(p: seq<real>, i: int, profTop: int, ofs: real, step: real, topY: real, maxRad: real, r0: real)
    requires -1 <= i < profTop <= |p| && step > 0.0 && BelowTop(profTop, ofs, step, topY)
    ensures var m := TopLow(p, i, profTop, ofs, step, topY, maxRad, r0);
      && (forall q :: m <= q <= i ==> RowY(q, step, ofs) < topY && TopRowFits(p, q, profTop, ofs, step, topY, maxRad, r0))
      && (m > 0 ==> RowY(m - 1, step, ofs) < topY && !TopRowFits(p, m - 1, profTop, ofs, step, topY, maxRad, r0))
    decreases i + 1
  {
    if 0 <= i {
      RowYMonotone(i, profTop - 1, step, ofs);
      if TopRowFits(p, i, profTop, ofs, step, topY, maxRad, r0) {
        TopLowIsFirstFailure(p, i - 1, profTop, ofs, step, topY, maxRad, r0);
      }
    }
  }

  /**
   * The top-cone scan leaves cylEnd at or under topY.  When it lowers
   * cylEnd to bucket m, that bucket is below topY and accepted; its cone is
   * described by AcceptedTopConeClears.
   */
  lemma TopConeEndFits(p: seq<real>, profTop: int, ofs: real, step: real, topY: real, maxRad: real, r0: real)
    requires 0 <= profTop <= |p| && step > 0.0 && BelowTop(profTop, ofs, step, topY)
    ensures TopConeEnd(p, profTop, ofs, step, topY, maxRad, r0) <= topY
    ensures var m := TopLow(p, profTop - 1, profTop, ofs, step, topY, maxRad, r0);
      m < profTop ==>
        && TopConeEnd(p, profTop, ofs, step, topY, maxRad, r0) == RowY(m, step, ofs)
        && RowY(m, step, ofs) < topY
        && TopRowFits(p, m, profTop, ofs, step, topY, maxRad, r0)
  {
    TopLowIsFirstFailure(p, profTop - 1, profTop, ofs, step, topY, maxRad, r0);
  }

  /** An accepted bucket's top cone falls and, floored at r0, clears every bucket from it to profTop - 1. */
  lemma AcceptedTopConeClears(p: seq<real>, i: int, profTop: int, ofs: real, step: real, topY: real, maxRad: real, r0: real)
    requires 0 <= i < profTop <= |p| && step > 0.0 && maxRad > r0
    requires RowY(i, step, ofs) < topY && TopRowFits(p, i, profTop, ofs, step, topY, maxRad, r0)
    ensures TopSlope(i, ofs, step, topY, maxRad, r0) < 0.0
    ensures forall j :: i <= j < profTop ==>
      p[j] <= Max(r0, maxRad + (j - i + 1) as real * TopSlope(i, ofs, step, topY, maxRad, r0) * step)
  {
    var k := TopSlope(i, ofs, step, topY, maxRad, r0);
    NegativeSlope(maxRad - r0, RowY(i, step, ofs) - topY, k, step);
    TopConeClearsAll(p, i, profTop, step, maxRad, k, r0);
  }

  lemma TopConeClearsAll(p: seq<real>, i: int, profTop: int, step: real, maxRad: real, k: real, r0: real)
    requires 0 <= i < profTop <= |p| && k * step <= 0.0
    requires UnderTopCone(p, i, profTop, step, maxRad, k, r0)
    ensures forall j :: i <= j < profTop ==> p[j] <= Max(r0, maxRad + (j - i + 1) as real * k * step)
  {
    forall j | i <= j < profTop
      ensures p[j] <= Max(r0, maxRad + (j - i + 1) as real * k * step)
    {
      TopConeClears(p, i, profTop, step, maxRad, k, r0, j);
    }
  }

  /** One bucket under an accepted top cone, with the line written as a product. */
  lemma TopConeClears(p: seq<real>, m: int, profTop: int, step: real, maxRad: real, k: real, r0: real, j: int)
    requires 0 <= m <= j < profTop <= |p| && k * step <= 0.0
    requires UnderTopCone(p, m, profTop, step, maxRad, k, r0)
    ensures p[j] <= Max(r0, maxRad + (j - m + 1) as real * k * step)
  {
    var d := k * step;
    ClampedRowsUnderSound(p, m, profTop, maxRad + d, d, r0, j);
    ScaleIsProduct(j - m, d);
    MulSucc(j - m, d);
    assert (j - m + 1) as real * k * step == (j - m + 1) as real * d;
  }

  lemma MulSucc(n: int, d: real)
    ensures (n + 1) as real * d == n as real * d + d
  {
  }

  lemma NegativeSlope(num: real, den: real, k: real, step: real)
    requires num > 0.0 && den < 0.0 && k == num / den && step > 0.0
    ensures k < 0.0 && k * step <= 0.0
  {
    assert k * den == num;
  }

  /** The top-cone scan loop of recalcShape, including the initial pull under topY. */
  method FitTopCone(p: seq<real>, profTop: int, ofs: real, step: real, topY: real, maxRad: real, r0: real)
    returns (cylEnd: real)
    requires 0 <= profTop <= |p| && step > 0.0 && BelowTop(profTop, ofs, step, topY)
    ensures cylEnd == TopConeEnd(p, profTop, ofs, step, topY, maxRad, r0)
  {
    cylEnd := |p| as real * step + ofs;
    if cylEnd > topY {
      cylEnd := topY - step;
    }
    ghost var pulled := cylEnd;
    var i := profTop - 1;
    while i >= 0
      invariant -1 <= i < profTop
      invariant TopLow(p, i, profTop, ofs, step, topY, maxRad, r0) == TopLow(p, profTop - 1, profTop, ofs, step, topY, maxRad, r0)
      invariant cylEnd == if i == profTop - 1 then pulled else RowY(i + 1, step, ofs)
      decreases i + 1
    {
      var y, fits := TopRowTest(p, i, profTop, ofs, step, topY, maxRad, r0);
      if !fits {
        break;
      }
      cylEnd := y;
      i := i - 1;
    }
  }

  /** The body of the top-cone scan for bucket i: its height, and whether the cone from it is accepted. */
  method TopRowTest(p: seq<real>, i: int, profTop: int, ofs: real, step: real, topY: real, maxRad: real, r0: real)
    returns (y: real, fits: bool)
    requires 0 <= i < profTop <= |p| && step > 0.0 && BelowTop(profTop, ofs, step, topY)
    ensures y == RowY(i, step, ofs) && y < topY
    ensures fits == TopRowFits(p, i, profTop, ofs, step, topY, maxRad, r0)
  {
    y := i as real * step + ofs;
    RowYMonotone(i, profTop - 1, step, ofs);
    var k := (maxRad - r0) / (y - topY);
    assert k == TopSlope(i, ofs, step, topY, maxRad, r0);
    fits := TopConeClear(p, i, profTop, step, maxRad, k, r0);
  }

  /** cylEnd of an inline fairing: the top cone when the cylinder is wider than its floor, else topY. */
  function InlineEnd(p: seq<real>, profTop: int, ofs: real, step: real, topY: real, maxRad: real, topRad: real): (r: real)
    requires 0 <= profTop <= |p| && step > 0.0 && BelowTop(profTop, ofs, step, topY)
    ensures r <= topY
    ensures maxRad <= TopFloor(p, profTop, topRad) ==> r == topY
  {
    var r0 := TopFloor(p, profTop, topRad);
    if maxRad > r0 then
      TopConeEndFits(p, profTop, ofs, step, topY, maxRad, r0);
      TopConeEnd(p, profTop, ofs, step, topY, maxRad, r0)
    else topY
  }

  // ---------------------------------------------------------------------
  // The whole fit

  /** The fairing envelope: cylinder radius and the cylinder's lower and upper heights. */
  datatype Envelope = Envelope(maxRad: real, cylStart: real, cylEnd: real)

  /** Closed fairings end in a nose cone; inline ones end under an upper base at topY. */
  datatype Top = Nose(noseHeightRatio: real) | InlineTop(topY: real, topRad: real)

  /** The profile the fit works on: an empty scan becomes a single bucket of extraRadius. */
  function FitProfile(profile: seq<real>, extraRadius: real): (p: seq<real>)
    ensures |p| >= 1
    ensures |profile| > 0 ==> p == profile
    ensures |profile| == 0 ==> p == [extraRadius]
  {
    if |profile| <= 0 then profile + [extraRadius] else profile
  }

  /** Legacy code takes the true maximum of the (non-empty) profile. */
  function SeqMax(s: seq<real>): real
    requires |s| >= 1
  {
    if |s| == 1 then s[0] else Max(SeqMax(s[..|s| - 1]), s[|s| - 1])
  }

  lemma {:induction false} SeqMaxIsMaximum(s: seq<real>)
    requires |s| >= 1
    ensures SeqMax(s) in s
    ensures forall i :: 0 <= i < |s| ==> s[i] <= SeqMax(s)
  {
    if |s| > 1 {
      var q := s[..|s| - 1];
      SeqMaxIsMaximum(q);
      assert forall i :: 0 <= i < |q| ==> s[i] == q[i];
    }
  }

  /** The current code's list maximum is the true maximum floored at 0. */
  lemma {:induction false} ListMax0IsFlooredMax(s: seq<real>)
    requires |s| >= 1
    ensures ListMax0(s) == Max(0.0, SeqMax(s))
  {
    if |s| > 1 {
      ListMax0IsFlooredMax(s[..|s| - 1]);
    } else {
      assert s[..0] == [];
    }
  }

  /** profile.Max(), the legacy maximum. */
  method ProfileMax(p: seq<real>) returns (m: real)
    requires |p| >= 1
    ensures m == SeqMax(p)
    ensures m in p && forall i :: 0 <= i < |p| ==> p[i] <= m
  {
    m := p[0];
    for i := 1 to |p|
      invariant m == SeqMax(p[..i])
    {
      assert p[..i + 1][..i] == p[..i];
      m := Max(m, p[i]);
    }
    assert p[..|p|] == p;
    SeqMaxIsMaximum(p);
  }

  /**
   * The automatic envelope of recalcShape.  `legacy` selects the older
   * code's true maximum for closed fairings instead of the 0-floored one.
   */
  function AutoEnvelope(p: seq<real>, ofs: real, step: real, baseRad: real, minTan: real, top: Top, legacy: bool): Envelope
    requires |p| >= 1 && step > 0.0
    requires top.Nose? ==> top.noseHeightRatio != 0.0
    requires top.InlineTop? ==> top.topY >= ofs
  {
    match top
    case Nose(noseHeightRatio) =>
      var b := BaseStep(p, ofs, step, baseRad, if legacy then SeqMax(p) else ListMax0(p), minTan);
      Envelope(b.maxRad, b.cylStart, NoseConeEnd(p, ofs, step, b.maxRad, noseHeightRatio))
    case InlineTop(topY, topRad) =>
      var profTop := InlineProfTop(p, ofs, step, topY);
      var b := BaseStep(p, ofs, step, baseRad, Max(ListMax0(p[..profTop]), topRad), minTan);
      Envelope(b.maxRad, b.cylStart, InlineEnd(p, profTop, ofs, step, topY, b.maxRad, topRad))
  }

  /**
   * What the automatic envelope guarantees: the cylinder is at least as wide
   * as the base, at least as wide as the payload buckets it has to clear
   * (closed: every bucket of the current code's profile; inline: every
   * bucket below the top and the top radius), and an inline cylinder ends
   * at or under topY.
   */
  lemma AutoEnvelopeBounds(p: seq<real>, ofs: real, step: real, baseRad: real, minTan: real, top: Top, legacy: bool)
    requires |p| >= 1 && step > 0.0
    requires top.Nose? ==> top.noseHeightRatio != 0.0
    requires top.InlineTop? ==> top.topY >= ofs
    ensures var e := AutoEnvelope(p, ofs, step, baseRad, minTan, top, legacy);
      && e.maxRad >= baseRad
      && (top.Nose? ==> forall i :: 0 <= i < |p| ==> p[i] <= e.maxRad)
      && (top.InlineTop? ==>
            && e.maxRad >= top.topRad && e.cylEnd <= top.topY
            && forall i :: 0 <= i < InlineProfTop(p, ofs, step, top.topY) ==> p[i] <= e.maxRad)
  {
    match top
    case Nose(_) =>
      ListMax0Bounds(p);
      SeqMaxIsMaximum(p);
    case InlineTop(topY, topRad) =>
      var profTop := InlineProfTop(p, ofs, step, topY);
      ListMax0Bounds(p[..profTop]);
      assert forall i :: 0 <= i < profTop ==> p[..profTop][i] == p[i];
  }

  /** With a payload no wider than the base there is no base cone: cylStart is 0 and maxRad is the base radius. */
  lemma NarrowPayloadHasNoBaseCone(p: seq<real>, ofs: real, step: real, baseRad: real, minTan: real, top: Top, legacy: bool)
    requires |p| >= 1 && step > 0.0
    requires top.Nose? ==> top.noseHeightRatio != 0.0
    requires top.InlineTop? ==> top.topY >= ofs
    requires top.Nose? ==> forall i :: 0 <= i < |p| ==> p[i] <= baseRad
    requires top.Nose? ==> baseRad >= 0.0
    requires top.InlineTop? ==> top.topRad <= baseRad && baseRad >= 0.0
                                && forall i :: 0 <= i < |p| ==> p[i] <= baseRad
    ensures AutoEnvelope(p, ofs, step, baseRad, minTan, top, legacy).cylStart == 0.0
    ensures AutoEnvelope(p, ofs, step, baseRad, minTan, top, legacy).maxRad == baseRad
  {
    match top
    case Nose(_) =>
      ListMax0Bounds(p);
      SeqMaxIsMaximum(p);
    case InlineTop(topY, topRad) =>
      var profTop := InlineProfTop(p, ofs, step, topY);
      ListMax0Bounds(p[..profTop]);
  }

  // ---------------------------------------------------------------------
  // Automatic and manual shape

  /** What auto mode records in the manual fields: diameter, cylStart, cylEnd. */
  function Stored(e: Envelope): (s: Envelope)
    ensures s.maxRad == 2.0 * e.maxRad
  {
    Envelope(e.maxRad * 2.0, e.cylStart, e.cylEnd)
  }

  /** What manual mode reads back from the manual fields. */
  function ReadBack(s: Envelope): (e: Envelope)
    ensures e.maxRad == s.maxRad / 2.0
  {
    Envelope(s.maxRad * 0.5, s.cylStart, s.cylEnd)
  }

  /** The final clamp: cylStart never above cylEnd. */
  function Clamped(e: Envelope): (r: Envelope)
    ensures r.cylStart <= r.cylEnd
    ensures r.maxRad == e.maxRad && r.cylEnd == e.cylEnd
    ensures e.cylStart <= e.cylEnd ==> r == e
  {
    if e.cylStart > e.cylEnd then e.(cylStart := e.cylEnd) else e
  }

  /** Switching from auto to manual mode reproduces the automatic envelope. */
  lemma ManualReproducesAuto(fit: Envelope)
    ensures ReadBack(Stored(fit)) == fit
    ensures Clamped(ReadBack(Stored(fit))) == Clamped(fit)
  {
  }

  lemma ClampedIdempotent(e: Envelope)
    ensures Clamped(Clamped(e)) == Clamped(e)
  {
  }

  /** The fairing base's shape-mode state: the auto flag and the manual envelope fields. */
  class FairingBase {
    var autoShape: bool
    var manualMaxSize: real
    var manualCylStart: real
    var manualCylEnd: real

    function Manual(): Envelope
      reads this
    {
      Envelope(manualMaxSize, manualCylStart, manualCylEnd)
    }

    constructor (autoShape: bool, manual: Envelope)
      ensures this.autoShape == autoShape && Manual() == manual
    {
      this.autoShape := autoShape;
      manualMaxSize := manual.maxRad;
      manualCylStart := manual.cylStart;
      manualCylEnd := manual.cylEnd;
    }

    /** Auto mode records the fit; manual mode replaces it by the recorded values. Then the clamp. */
    method ApplyShapeMode(fit: Envelope) returns (e: Envelope)
      modifies this
      ensures autoShape == old(autoShape)
      ensures old(autoShape) ==> Manual() == Stored(fit) && e == Clamped(fit)
      ensures !old(autoShape) ==> Manual() == old(Manual()) && e == Clamped(ReadBack(old(Manual())))
    {
      var maxRad, cylStart, cylEnd := fit.maxRad, fit.cylStart, fit.cylEnd;
      if autoShape {
        manualMaxSize := maxRad * 2.0;
        manualCylStart := cylStart;
        manualCylEnd := cylEnd;
      } else {
        maxRad := manualMaxSize * 0.5;
        cylStart := manualCylStart;
        cylEnd := manualCylEnd;
      }
      if cylStart > cylEnd {
        cylStart := cylEnd;
      }
      e := Envelope(maxRad, cylStart, cylEnd);
    }

    /**
     * The envelope part of recalcShape (current code): empty-profile fix,
     * maximum, base-cone scan, nose or top-cone scan, shape mode, clamp.
     * An inline top below the scan offset is first raised to it.
     */
    method RecalcEnvelope(profile: seq<real>, extraRadius: real, ofs: real, step: real,
                          baseRad: real, minTan: real, top: Top)
      returns (e: Envelope)
      requires step > 0.0
      requires top.Nose? ==> top.noseHeightRatio != 0.0
      modifies this
      ensures var fit := AutoEnvelope(FitProfile(profile, extraRadius), ofs, step, baseRad, minTan, RaisedTop(top, ofs), false);
        && autoShape == old(autoShape)
        && (old(autoShape) ==> Manual() == Stored(fit) && e == Clamped(fit))
        && (!old(autoShape) ==> Manual() == old(Manual()) && e == Clamped(ReadBack(old(Manual()))))
    {
      var fit := FitEnvelope(FitProfile(profile, extraRadius), ofs, step, baseRad, minTan, RaisedTop(top, ofs), false);
      e := ApplyShapeMode(fit);
    }

    /** The same for the older copy, which takes the true profile maximum. */
    method LegacyRecalcEnvelope(profile: seq<real>, extraRadius: real, ofs: real, step: real,
                                baseRad: real, minTan: real, top: Top)
      returns (e: Envelope)
      requires step > 0.0
      requires top.Nose? ==> top.noseHeightRatio != 0.0
      modifies this
      ensures var fit := AutoEnvelope(FitProfile(profile, extraRadius), ofs, step, baseRad, minTan, RaisedTop(top, ofs), true);
        && autoShape == old(autoShape)
        && (old(autoShape) ==> Manual() == Stored(fit) && e == Clamped(fit))
        && (!old(autoShape) ==> Manual() == old(Manual()) && e == Clamped(ReadBack(old(Manual()))))
    {
      var fit := FitEnvelope(FitProfile(profile, extraRadius), ofs, step, baseRad, minTan, RaisedTop(top, ofs), true);
      e := ApplyShapeMode(fit);
    }
  }

  /** recalcShape raises an upper base below the scan offset to it. */
  function RaisedTop(top: Top, ofs: real): (t: Top)
    ensures t.Nose? <==> top.Nose?
    ensures t.Nose? ==> t == top
    ensures t.InlineTop? ==> t.topY == Max(top.topY, ofs) && t.topRad == top.topRad
  {
    match top
    case Nose(_) => top
    case InlineTop(topY, topRad) => InlineTop(if topY < ofs then ofs else topY, topRad)
  }

  /** The scans of recalcShape run in order on a non-empty profile. */
  method FitEnvelope(p: seq<real>, ofs: real, step: real, baseRad: real, minTan: real, top: Top, legacy: bool)
    returns (fit: Envelope)
    requires |p| >= 1 && step > 0.0
    requires top.Nose? ==> top.noseHeightRatio != 0.0
    requires top.InlineTop? ==> top.topY >= ofs
    ensures fit == AutoEnvelope(p, ofs, step, baseRad, minTan, top, legacy)
  {
    var maxRad: real;
    var profTop := |p|;
    if top.InlineTop? {
      profTop := InlineProfTop(p, ofs, step, top.topY);
      maxRad := InlineMaxRadius(p, profTop, top.topRad);
    } else if legacy {
      maxRad := ProfileMax(p);
    } else {
      maxRad := GetMaxValueFromList(p);
    }
    var cylStart := 0.0;
    if maxRad > baseRad {
      cylStart := FitBaseCone(p, ofs, step, baseRad, maxRad, minTan);
    } else {
      maxRad := baseRad;
    }
    var cylEnd: real;
    if top.InlineTop? {
      var r0 := TopFloor(p, profTop, top.topRad);
      if maxRad > r0 {
        cylEnd := FitTopCone(p, profTop, ofs, step, top.topY, maxRad, r0);
      } else {
        cylEnd := top.topY;
      }
    } else {
      cylEnd := FitNose(p, ofs, step, maxRad, top.noseHeightRatio);
    }
    fit := Envelope(maxRad, cylStart, cylEnd);
  }
}
