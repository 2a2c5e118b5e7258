# Procedural Fairings shape engine, modelled in Dafny

Procedural Fairings is a Kerbal Space Program plug-in. It builds payload
fairings, interstage adapters and resizable stack parts whose shapes follow
the payload. This project models the deterministic core of the plug-in: the
geometry and bookkeeping that turn a payload into a fairing shell, and the
small rules that keep the nodes, sizes, masses and shielding of the parts
consistent. Both copies of the classes are modelled. One is the current
`Source/ProceduralFairings/*.cs`; the other is the older top-level
`Source/*.cs`. Where the two copies behave alike they share one definition,
and the table cites both. Where they differ, a `legacy` flag or a separate
member models the older behaviour.

The modules follow the plug-in's classes:

- `Geometry`: vectors, the clamped linear interpolation, and Unity's rounding
  helpers written out exactly (`RoundToInt` rounds halves to even).
- `Utilities`: the cubic Bezier slope used for cone curvature, the list
  maximum, the tech-tree minimum and maximum folds, and the recursive listing
  of a part subtree.
- `PayloadScanning`: the payload profiler, a class whose `profile` sequence
  keeps one maximum radius per height bucket. Collider edges are rasterised
  into it, and boxes and meshes are reduced to edges.
- `EnvelopeFit`: the numeric half of the fairing base's `recalcShape`. It
  covers the greedy base-cone, nose-cone and top-cone scans, the cylinder
  radius and heights, and the auto/manual switch and clamp.
- `FairingShape`: the two silhouette builders, which fill point arrays of
  exact length.
- `SideRefresh`: the step that hands the new shape to every side part and
  rebuilds a side unless it is skipped. The two copies use different skip
  tests, and each test is modelled as written.
- `SideMesh`, `SideVertices`, `ShellMesh`: the side part's `rebuildMesh`.
  These cover the vertex and face counts, the vertex buffer (positions,
  normals and tangents) and the triangle buffer filled block by block. They
  also cover the surface area, mass, cost, strength and connect-node size.
- `Shielding`: the choice of the side fairing and the silhouette thickened
  by the wall. It also covers the bounding cylinder and sphere, and the
  filter that decides which candidate parts lie inside the shell.
- `PayloadJoints`: the older base's rule for which payload parts get a joint.
- `NodeNames`, `AttachNodes`, `NodeTweaker`: the node number tweaker. It
  covers the two-digit node names, the attach-node list with its lookup by
  id, and the passes that create, place, hide and remove numbered nodes. It
  also covers the guarded node-count changes of both copies.
- `Sizing`, `ProcAdapter`, `Resizers`: the adapter and the resizers. They
  cover change detection, the wall thickness rule, the cubic mass formula,
  node sizes, the heights of the "top" and interstage nodes, and the legacy
  radius conversion. The adapter's shape update is also stated as a value:
  `ShapeUpdate` maps the outputs before the update to those after it, and
  lemmas state what each output becomes on each way through it.

Floating-point numbers are modelled as exact reals. Square root, sine,
cosine and vector normalisation are passed in as function parameters, and
each lemma states the one property of them it needs. Methods that fill
arrays or update fields in the source are methods here. Each such method is
proved against a function of its inputs or its old state, and the lemmas
state what the source promises about that function.

## Model

| member | source | states |
|---|---|---|
| Geometry.Clamp01 | Source/ProceduralFairings/Utilities.cs:25-30 | the Lerp parameter is clamped into [0, 1] and left alone inside it |
| Geometry.LerpBetween | Source/ProceduralFairings/Utilities.cs:25-30 | a clamped interpolation lies between its end values and returns them for t ≤ 0 and t ≥ 1 |
| Utilities.SlopeOf | Source/ProceduralFairings/Utilities.cs:17-21 | the slope built from a four-vector has p1 = (x, y) and p2 = (z, w); in Source/utils.cs, lines 20–24: the legacy constructor, the same |
| Utilities.CasteljauBounds | Source/ProceduralFairings/Utilities.cs:23-32 | one coordinate of interp is 0 for t ≤ 0, 1 for t ≥ 1 and stays inside the hull of 0, c1, c2, 1 |
| Utilities.InterpBounds | Source/ProceduralFairings/Utilities.cs:23-32 | interp(t) = (0,0) for t ≤ 0 and (1,1) for t ≥ 1, and lies in the bounding box of the four control points; in Source/utils.cs, lines 26–36: the legacy interp, the same end points and bounding box |
| Utilities.BernsteinScalar | Source/ProceduralFairings/Utilities.cs:23-32 | on [0, 1] one coordinate of the de Casteljau chain equals 3(1−t)²t·c1 + 3(1−t)t²·c2 + t³ |
| Utilities.InterpIsBernstein | Source/ProceduralFairings/Utilities.cs:23-32 | on [0, 1] interp is the cubic Bernstein form with P0 = (0,0) and P3 = (1,1); in Source/utils.cs, lines 26–36: the legacy interp, the same Bernstein form |
| Utilities.ListMax0Bounds | Source/ProceduralFairings/Utilities.cs:382-395 | the running maximum started at 0 is ≥ 0, ≥ every element, and is 0 or an element |
| Utilities.GetMaxValueFromList | Source/ProceduralFairings/Utilities.cs:382-395 | the loop returns the maximum of 0 and the elements: 0 for an empty list, ≥ every element, 0 or an element |
| Utilities.ScanNode | Source/ProceduralFairings/Utilities.cs:74-90 | the inner loop over one configuration node keeps the has-value flag and the running minimum (maximum) exact over the available values seen so far |
| Utilities.ScanNodes | Source/ProceduralFairings/Utilities.cs:64-99 | the nested loops return defVal when no value is available and otherwise the extremum of the available values, which is one of them |
| Utilities.GetTechMinValue | Source/ProceduralFairings/Utilities.cs:64-99 | defVal when no entry's tech is available, else an available value no larger than any other; in Source/utils.cs, lines 73–89: the legacy fold, the same |
| Utilities.GetTechMaxValue | Source/ProceduralFairings/Utilities.cs:101-136 | defVal when no entry's tech is available, else an available value no smaller than any other; in Source/utils.cs, lines 92–108: the legacy fold, the same |
| Utilities.AllChildrenListsSubtree | Source/ProceduralFairings/Utilities.cs:363-380 | the listing holds exactly the parts of the subtree, leaves the root out iff root is set, starts with the root otherwise, and has one entry per part; in Source/utils.cs, lines 188–200: the legacy listing, the same |
| Utilities.ChildrenFromListsSubtree | Source/ProceduralFairings/Utilities.cs:371-377 | the children's listings, concatenated, hold exactly the parts below the root, one entry per part |
| Utilities.ChildrenAreSmaller | Source/ProceduralFairings/Utilities.cs:371-377 | a descendant's subtree is strictly smaller, so the recursion ends and no part lists itself twice |
| PayloadScanning.Ordered | Source/PayloadScan.cs:79-84 | after the swap the lower endpoint comes first, radii travelling with their heights; an ordered edge is left alone |
| PayloadScanning.BucketsOrdered | Source/PayloadScan.cs:86-87 | the lower endpoint's bucket h0 is at most h1, and distinct buckets mean distinct heights, so the slope is defined |
| PayloadScanning.Row | Source/PayloadScan.cs:113 | an interpolated radius never exceeds maxR |
| PayloadScanning.RowValue | Source/PayloadScan.cs:107-113 | an interpolated contribution never exceeds the larger of the two endpoint radii |
| PayloadScanning.BandStep | Source/PayloadScan.cs:111-116 | one loop row raises buckets h and h+1 and no other |
| PayloadScanning.LoopTermIsBand | Source/PayloadScan.cs:107-111 | the loop's k and b are the slope and intercept the edge's line has |
| PayloadScanning.Raster | Source/PayloadScan.cs:71-118 | an edge with h1 < 0 leaves the profile unchanged; otherwise its length becomes max(old, h1+1), it never shrinks, no bucket decreases, new buckets are ≥ 0, bucket h0 (when ≥ 0) ends ≥ r0 and bucket h1 ends ≥ r1 |
| PayloadScanning.EndsRaised | Source/PayloadScan.cs:92-102 | the zero padding and the two endpoint writes give, bucket by bucket, the old value raised to the endpoint radii |
| PayloadScanning.RaiseRow | Source/PayloadScan.cs:111-116 | one iteration of the interpolation loop keeps "bucket = max(start value, rows so far)" |
| PayloadScanning.FinishBucket | Source/PayloadScan.cs:101-117 | endpoints then loop rows give the old value raised to the whole edge's contribution |
| PayloadScanning.RasterAt | Source/PayloadScan.cs:92-117 | a profile of the right length with the pointwise values is the one Raster describes |
| PayloadScanning.ContributionZeroAbove | Source/PayloadScan.cs:92-116 | an edge writes nothing above its upper bucket |
| PayloadScanning.GetRaster | Source/PayloadScan.cs:92-116 | every bucket after an edge is max(old bucket or 0, the edge's contribution) |
| PayloadScanning.RasterCommutes | Source/PayloadScan.cs:71-118 | two edges give the same profile in either order |
| PayloadScanning.RasterIdempotent | Source/PayloadScan.cs:71-118 | adding the same edge twice changes nothing the second time |
| PayloadScanning.RasterAll | Source/PayloadScan.cs:71-118 | a sequence of edges never shrinks the profile and keeps it non-negative |
| PayloadScanning.RasterAllSnoc | Source/PayloadScan.cs:71-118 | adding one more edge is one more Raster step |
| PayloadScanning.GetRasterAll | Source/PayloadScan.cs:96-116 | the final profile is, bucket by bucket, the max of the old bucket, 0 and every edge's contribution |
| PayloadScanning.RasterAllMoveToEnd | Source/PayloadScan.cs:71-118 | moving one edge to the end does not change the result |
| PayloadScanning.RasterAllPermutation | Source/PayloadScan.cs:71-118 | the final profile does not depend on the order of the edges |
| PayloadScanning.BoxEdgesOneBit | Source/PayloadScan.cs:133-146 | the 12 box edges join corner numbers below 8 that differ in exactly one bit |
| PayloadScanning.BoxEdgeAxisAligned | Source/PayloadScan.cs:127-131 | the corners of each box edge differ in one coordinate at most |
| PayloadScanning.MeshEdgePairs | Source/PayloadScan.cs:161-169 | three edges per triangle, each joining two indices of the face list |
| PayloadScanning.PayloadScan.constructor | Source/PayloadScan.cs:30-42 | empty profile, payload and targets, the own part hashed, offset 0, no nested bases |
| PayloadScanning.PayloadScan.StartAtTopNode | Source/ProceduralFairings/FairingBase.cs:557-564 | the scan's height offset becomes the base's "top" node's height when it has one; in Source/FairingBase.cs, lines 555–561: the same in the older copy |
| PayloadScanning.PayloadScan.AddPart | Source/PayloadScan.cs:45-68 | a missing or hashed part changes nothing; otherwise it is hashed, clamps and the surface parent are skipped, a reversed base becomes a target only when nestedBases ≤ 0 and otherwise decrements it, a normal base increments it, and the rest join the payload; each part enters the payload at most once |
| PayloadScanning.PayloadScan.AddPayloadEdge | Source/PayloadScan.cs:71-118 | the new profile is Raster of the old one and the edge in profile coordinates |
| PayloadScanning.PayloadScan.RasterBuckets | Source/PayloadScan.cs:92-117 | padding, endpoint writes and interpolation yield Raster |
| PayloadScanning.PayloadScan.FillRows | Source/PayloadScan.cs:105-117 | the interpolation part completes Raster from the endpoint writes |
| PayloadScanning.PayloadScan.InterpolateRows | Source/PayloadScan.cs:111-116 | the loop raises every bucket to the max of its value and the rows that touch it |
| PayloadScanning.PayloadScan.BoxEdgeList | Source/PayloadScan.cs:133-146 | a box gives exactly 12 edges |
| PayloadScanning.PayloadScan.BoxEdgeListMatches | Source/PayloadScan.cs:125-146 | box edge k joins the transformed corners BoxEdges names |
| PayloadScanning.PayloadScan.AddBox | Source/PayloadScan.cs:121-147 | the profile after a box is the old one rastered with its 12 edges |
| PayloadScanning.PayloadScan.AddBoxEdges | Source/PayloadScan.cs:133-146 | the 12 calls in order raster the 12 box edges |
| PayloadScanning.PayloadScan.AddMesh | Source/PayloadScan.cs:154-170 | the profile after a mesh collider is the old one rastered with three edges per triangle |
| PayloadScanning.PayloadScan.AddTriangle | Source/PayloadScan.cs:163-168 | one triangle appends its three edges v0-v1, v1-v2, v2-v0 |
| PayloadScanning.PayloadScan.MeshEdges | Source/PayloadScan.cs:161-169 | one edge per face index, three per triangle |
| PayloadScanning.PayloadScan.AddFourEdges | Source/PayloadScan.cs:133-146 | four consecutive edge calls extend the rastered prefix by four |
| PayloadScanning.PayloadScan.AddEdgeStep | Source/PayloadScan.cs:133-146 | one edge call extends the rastered prefix by one |
| PayloadScanning.PayloadScan.MeshEdgesSnoc | Source/PayloadScan.cs:161-169 | the edges of i+3 indices are those of i, then one more triangle |
| PayloadScanning.PayloadScan.MeshEdgesFollowPairs | Source/PayloadScan.cs:161-169 | mesh edge k joins the vertices MeshEdgePairs names |
| EnvelopeFit.RowsUnderClosed | Source/ProceduralFairings/FairingBase.cs:840-850 | the stepping cone test holds iff every bucket m from j on lies under r + (m − j)·d |
| EnvelopeFit.RowsUnderLine | Source/ProceduralFairings/FairingBase.cs:838-850 | the inner loop with its break returns exactly the cone test RowsUnder |
| EnvelopeFit.ClampedRowsUnderSound | Source/ProceduralFairings/FairingBase.cs:894-911 | every bucket the clamped top-cone test accepts lies under max(r0, r + (m − j)·d) |
| EnvelopeFit.ClampedRowsUnderComplete | Source/ProceduralFairings/FairingBase.cs:894-911 | a rejected top cone has a first bucket above max(r0, r + (m − j)·d) |
| EnvelopeFit.ClampedRowsUnderLine | Source/ProceduralFairings/FairingBase.cs:894-911 | the inner loop with the clamp and break returns exactly the clamped cone test |
| EnvelopeFit.BaseConeClear | Source/ProceduralFairings/FairingBase.cs:838-850 | the base-cone inner test is "buckets 0..i−1 under baseRad + k·height" |
| EnvelopeFit.BaseStop | Source/ProceduralFairings/FairingBase.cs:827-858 | the upward scan stops at a bucket between its start and the profile length |
| EnvelopeFit.BaseStopIsFirstFailure | Source/ProceduralFairings/FairingBase.cs:827-858 | the scan accepts a prefix of buckets 1, 2, … and stops at the first one that fails |
| EnvelopeFit.BaseConeStartFits | Source/ProceduralFairings/FairingBase.cs:825-858 | cylStart stays ofs when bucket 1 fails, else it is the height of the last accepted bucket, which fits |
| EnvelopeFit.AcceptedBaseConeClears | Source/ProceduralFairings/FairingBase.cs:829-857 | an accepted bucket has height y ≠ 0, slope k = (maxRad − baseRad)/y ≥ tan(minBaseConeAngle) and profile[j] ≤ baseRad + k·(ofs + j·step) for all j < i; in Source/FairingBase.cs, lines 696–710: the same in the legacy scan |
| EnvelopeFit.BaseConeClearsAll | Source/ProceduralFairings/FairingBase.cs:840-850 | an accepted base cone clears every bucket below it |
| EnvelopeFit.BaseConeClears | Source/ProceduralFairings/FairingBase.cs:840-850 | one bucket under an accepted base cone, with the line through height 0 |
| EnvelopeFit.FitBaseCone | Source/ProceduralFairings/FairingBase.cs:825-858 | the loop with its breaks leaves cylStart at BaseConeStart; in Source/FairingBase.cs, lines 695–710: the legacy loop, the same |
| EnvelopeFit.BaseRowTest | Source/ProceduralFairings/FairingBase.cs:829-855 | the loop body returns the bucket's height and whether the cone through it is accepted |
| EnvelopeFit.BaseStep | Source/ProceduralFairings/FairingBase.cs:821-865 | afterwards maxRad ≥ baseRad; a payload no wider than the base gives maxRad = baseRad and cylStart 0, a wider one keeps maxRad and runs the scan |
| EnvelopeFit.NoseLow | Source/ProceduralFairings/FairingBase.cs:930-953 | the downward scan reaches a bucket between 0 and its start + 1 |
| EnvelopeFit.NoseLowIsFirstFailure | Source/ProceduralFairings/FairingBase.cs:930-953 | the nose scan accepts a run of buckets downward and stops at the first failure |
| EnvelopeFit.NoseConeEndFits | Source/ProceduralFairings/FairingBase.cs:930-953 | cylEnd starts at Count·step + ofs and is lowered to bucket m, which is accepted while bucket m−1 is not; at line 867: the nose scan starts with cylEnd at the top of the profile, Count·step + ofs |
| EnvelopeFit.AcceptedNoseClears | Source/ProceduralFairings/FairingBase.cs:932-946 | when cylEnd is lowered to bucket i, every j ≥ i has profile[j] ≤ maxRad − (j − i + 1)·step/noseHeightRatio; in Source/FairingBase.cs, lines 755–768: the same in the legacy scan |
| EnvelopeFit.FitNose | Source/ProceduralFairings/FairingBase.cs:930-953 | the nose loop with its breaks leaves cylEnd at NoseConeEnd; in Source/FairingBase.cs, lines 755–768: the legacy nose loop, the same |
| EnvelopeFit.InlineProfTop | Source/ProceduralFairings/FairingBase.cs:800-805 | 0 ≤ profTop ≤ profile.Count and the highest bucket below profTop starts below topY |
| EnvelopeFit.InlineMaxRadius | Source/ProceduralFairings/FairingBase.cs:807-814 | maxRad is the maximum of 0, the buckets below profTop and topRad, so maxRad ≥ topRad and ≥ each such bucket; in Source/FairingBase.cs, lines 683–687: the legacy loop, the same |
| EnvelopeFit.TopFloor | Source/ProceduralFairings/FairingBase.cs:871-878 | r0 is topRad raised by the one or two buckets under profTop when profTop is inside the profile, and is one of those values |
| EnvelopeFit.TopConeClear | Source/ProceduralFairings/FairingBase.cs:894-911 | the top-cone inner test is the clamped cone test from maxRad + k·step |
| EnvelopeFit.TopLow | Source/ProceduralFairings/FairingBase.cs:889-919 | the downward top-cone scan reaches a bucket between 0 and its start + 1 |
| EnvelopeFit.TopLowIsFirstFailure | Source/ProceduralFairings/FairingBase.cs:889-919 | the scan accepts a run of buckets below topY downward and stops at the first failure |
| EnvelopeFit.TopConeEndFits | Source/ProceduralFairings/FairingBase.cs:880-919 | after the pull under topY and the scan, cylEnd ≤ topY; a lowered cylEnd is an accepted bucket below topY |
| EnvelopeFit.AcceptedTopConeClears | Source/ProceduralFairings/FairingBase.cs:891-911 | an accepted top cone falls (k < 0) and clears every bucket up to profTop under max(r0, maxRad + (j − i + 1)·k·step); in Source/FairingBase.cs, lines 731–747: the same in the legacy scan |
| EnvelopeFit.TopConeClearsAll | Source/ProceduralFairings/FairingBase.cs:896-911 | an accepted clamped cone clears every bucket from i to profTop − 1 |
| EnvelopeFit.TopConeClears | Source/ProceduralFairings/FairingBase.cs:896-911 | one bucket under an accepted top cone, the line written as a product |
| EnvelopeFit.FitTopCone | Source/ProceduralFairings/FairingBase.cs:882-919 | the pull under topY and the scan loop leave cylEnd at TopConeEnd; in Source/FairingBase.cs, lines 728–747: the legacy loop, the same |
| EnvelopeFit.TopRowTest | Source/ProceduralFairings/FairingBase.cs:891-913 | the loop body returns the bucket's height, below topY, and whether its cone is accepted |
| EnvelopeFit.InlineEnd | Source/ProceduralFairings/FairingBase.cs:869-925 | an inline cylEnd is ≤ topY, and equals topY when maxRad ≤ r0 |
| EnvelopeFit.FitProfile | Source/ProceduralFairings/FairingBase.cs:697-700 | an empty profile is replaced by [extraRadius]; a non-empty one is kept; in Source/FairingBase.cs, line 617: the legacy replacement, the same |
| EnvelopeFit.SeqMaxIsMaximum | Source/FairingBase.cs:690 | the legacy maximum is an element and ≥ every element |
| EnvelopeFit.ListMax0IsFlooredMax | Source/ProceduralFairings/FairingBase.cs:818 | the current maximum is the true maximum floored at 0, which is where the two copies differ |
| EnvelopeFit.ProfileMax | Source/FairingBase.cs:690 | profile.Max() returns the true maximum, which may be negative |
| EnvelopeFit.AutoEnvelopeBounds | Source/ProceduralFairings/FairingBase.cs:796-954 | the automatic envelope has maxRad ≥ baseRad; closed: maxRad ≥ every bucket (current copy); inline: maxRad ≥ topRad and every bucket below profTop, and cylEnd ≤ topY |
| EnvelopeFit.NarrowPayloadHasNoBaseCone | Source/ProceduralFairings/FairingBase.cs:821-865 | with every bucket (and topRad) ≤ baseRad, cylStart stays 0 and maxRad = baseRad |
| EnvelopeFit.Stored | Source/ProceduralFairings/FairingBase.cs:956-961 | auto mode stores manualMaxSize = 2·maxRad with cylStart and cylEnd |
| EnvelopeFit.ReadBack | Source/ProceduralFairings/FairingBase.cs:962-967 | manual mode reads back maxRad = manualMaxSize/2 |
| EnvelopeFit.Clamped | Source/ProceduralFairings/FairingBase.cs:969-972 | afterwards cylStart ≤ cylEnd, only cylStart changes, and an ordered envelope is untouched |
| EnvelopeFit.ManualReproducesAuto | Source/ProceduralFairings/FairingBase.cs:956-972 | an auto → manual switch reproduces the same envelope |
| EnvelopeFit.ClampedIdempotent | Source/ProceduralFairings/FairingBase.cs:969-972 | clamping twice is clamping once |
| EnvelopeFit.FairingBase.constructor | Source/ProceduralFairings/FairingBase.cs:956-967 | the shape-mode fields start as given |
| EnvelopeFit.FairingBase.ApplyShapeMode | Source/ProceduralFairings/FairingBase.cs:956-972 | auto mode records Stored(fit) and returns the clamped fit; manual mode keeps the fields and returns the clamped read-back; in Source/FairingBase.cs, lines 771–784: the legacy copy, the same |
| EnvelopeFit.FairingBase.RecalcEnvelope | Source/ProceduralFairings/FairingBase.cs:685-972 | the current envelope: empty-profile fix, 0-floored maximum, base scan, nose or top scan, shape mode, clamp |
| EnvelopeFit.FairingBase.LegacyRecalcEnvelope | Source/FairingBase.cs:610-784 | the legacy envelope, with the true maximum for closed fairings |
| EnvelopeFit.RaisedTop | Source/ProceduralFairings/FairingBase.cs:685-688 | an upper base below the scan offset is raised to it; a closed top is unchanged |
| EnvelopeFit.FitEnvelope | Source/ProceduralFairings/FairingBase.cs:793-954 | the scans in order produce AutoEnvelope |
| FairingShape.BaseCone | Source/ProceduralFairings/FairingBase.cs:482-489 | the base cone loop yields b + 1 points |
| FairingShape.BasePart | Source/ProceduralFairings/FairingBase.cs:480-494 | one point (baseRad, 0) when cylStart is 0, else the b + 1 cone points |
| FairingShape.NosePart | Source/ProceduralFairings/FairingBase.cs:496-503 | the nose loop yields n + 1 points |
| FairingShape.TopCone | Source/ProceduralFairings/FairingBase.cs:540-547 | the top cone loop yields b + 1 points, from (maxRad, cylEnd) at texture coordinate v0 to (topRad, top) at v1 |
| FairingShape.InlineBasePart | Source/ProceduralFairings/FairingBase.cs:523-533 | no base cone points when cylStart is 0, else b + 1 |
| FairingShape.TopPart | Source/ProceduralFairings/FairingBase.cs:538-548 | no top cone points when cylEnd equals top; otherwise b + 1 points running from (maxRad, cylEnd, v0) to (topRad, top, v1) |
| FairingShape.BaseConeEnds | Source/ProceduralFairings/FairingBase.cs:484-488 | because interp(0) = (0,0) and interp(1) = (1,1), the base cone starts at (baseRad, 0) and ends at (maxRad, cylStart) |
| FairingShape.NoseEnds | Source/ProceduralFairings/FairingBase.cs:498-502 | the nose starts at (maxRad, cylEnd) and ends at the tip (0, cylEnd + tip) |
| FairingShape.TopConeEnds | Source/ProceduralFairings/FairingBase.cs:542-546 | the top cone starts at (maxRad, cylEnd) with texture coordinate v0 and ends at (topRad, top) with v1 |
| FairingShape.FairingOutlineShape | Source/ProceduralFairings/FairingBase.cs:463-506 | 1 + (cylStart = 0 ? 0 : b) + 1 + n points, starting at (baseRad, 0), the base cone ending at (maxRad, cylStart), the nose starting at (maxRad, cylEnd), the last point the tip (0, cylEnd + maxRad·noseHeightRatio); in Source/FairingBase.cs, lines 460–502: the legacy builder, the same length and end points |
| FairingShape.InlineOutlineShape | Source/ProceduralFairings/FairingBase.cs:508-551 | 2 + (cylStart = 0 ? 0 : b+1) + (cylEnd = top ? 0 : b+1) points, holding (maxRad, cylStart) followed by (maxRad, cylEnd), and, when cylEnd ≠ top, a top cone whose texture coordinate runs from baseV1 at the cylinder back to baseV0 at (topRad, top); in Source/FairingBase.cs, lines 505–549: the legacy builder, the same |
| FairingShape.FillBaseCone | Source/ProceduralFairings/FairingBase.cs:482-489 | the loop writes exactly slots vi .. vi+b with the base cone and nothing else |
| FairingShape.FillNose | Source/ProceduralFairings/FairingBase.cs:496-503 | the loop writes exactly slots vi .. vi+n with the nose and nothing else |
| FairingShape.FillTopCone | Source/ProceduralFairings/FairingBase.cs:540-547 | the loop writes exactly slots vi .. vi+b with the top cone and nothing else |
| FairingShape.BuildFairingShape | Source/ProceduralFairings/FairingBase.cs:463-506 | the array has length 1 + (cylStart = 0 ? 0 : b) + 1 + n and every slot holds the outline's point; in Source/FairingBase.cs, lines 460–502: the legacy builder, the same |
| FairingShape.BuildInlineFairingShape | Source/ProceduralFairings/FairingBase.cs:508-551 | the array has the inline length and every slot holds the inline outline's point; in Source/FairingBase.cs, lines 505–549: the legacy builder, the same |
| PayloadJoints.NrOfJointsSmall | Source/FairingBase.cs:196-197 | half the hit count (or the count itself when at most 2) is at most 2 exactly when at most five parts were hit |
| PayloadJoints.JointedExactly | Source/FairingBase.cs:197-220 | a walk with a given stride lists exactly the indices below n that are multiples of the stride and have a rigid body, each once, increasing |
| PayloadJoints.JointSelectionRule | Source/FairingBase.cs:196-220 | a hit part gets a joint iff it has a rigid body and either at most five parts were hit or it sits at an even position |
| PayloadJoints.JointedStepTwo | Source/FairingBase.cs:210-219 | one step of the i += 2 walk adds part i when it has a body, and skips the odd index between |
| PayloadJoints.SelectPayloadJoints | Source/FairingBase.cs:196-220 | the two selection loops produce exactly the joint selection above |
| SideRefresh.CsDivRemainder | Source/ProceduralFairings/FairingBase.cs:1015 | integer division truncates toward zero: the remainder is smaller than the divisor and has the sign of the dividend |
| SideRefresh.NumSegs | Source/ProceduralFairings/FairingBase.cs:1015-1020 | segments per side are the circle segments divided by the side count, raised to at least 2; in Source/FairingBase.cs, lines 815–816: same rule in the older copy |
| SideRefresh.Refreshed | Source/ProceduralFairings/FairingBase.cs:1039-1113 | a pass either leaves the side unchanged or rebuilds its mesh once, and a rebuilt side holds the new geometry and (current code) the new curves or (older copy) its old curves; in Source/FairingBase.cs, lines 825–861: the older copy's pass: copies the eleven geometry fields and rebuilds unless they are all equal |
| SideRefresh.LegacyRefreshApplies | Source/FairingBase.cs:837-861 | an unlocked side with a model holds the new geometry after the older copy's pass, keeps its curves, and is rebuilt exactly when its geometry changed |
| SideRefresh.LegacyRefreshIdempotent | Source/FairingBase.cs:837-861 | a second pass of the older copy with the same values changes nothing |
| SideRefresh.CurrentRebuildsUnchangedSide | Source/ProceduralFairings/FairingBase.cs:1062-1113 | because the curve comparisons are negated, a side already holding every new value is rebuilt anyway |
| SideRefresh.CurrentMissesCurveChange | Source/ProceduralFairings/FairingBase.cs:1062-1087 | a side with unchanged geometry whose every curve field changed is skipped, so it never receives the new curves |
| SideRefresh.CurrentRebuildsAgain | Source/ProceduralFairings/FairingBase.cs:1062-1113 | after a pass that rebuilt a side, a second identical pass rebuilds it again |
| SideRefresh.SidePart.constructor | Source/ProceduralFairings/FairingBase.cs:1032-1042 | a side part starts with its lock flag and fields and no rebuilds |
| SideRefresh.SidePart.Refresh | Source/ProceduralFairings/FairingBase.cs:1039-1113 | one loop body on a side leaves the lock alone and puts the side in the state Refreshed gives; in Source/FairingBase.cs, lines 825–861: the same for the older copy's loop body |
| SideRefresh.RefreshSides | Source/ProceduralFairings/FairingBase.cs:1015-1114 | the loop divides the segments among the node tweaker's node count (in the older copy the number of connect nodes) and leaves every attached side in the state one refresh pass gives it; in Source/FairingBase.cs, lines 638–639 and 815–862: the same for the older copy's loop |
| Geometry.FloorToInt | Source/PayloadScan.cs:86-87 | the row index of a height is the greatest integer not above it |
| Geometry.CeilToInt | Source/ProceduralFairings/FairingBase.cs:800 | the top row of the profile is the least integer not below the scaled height; in Source/FairingBase.cs, line 680: the same in the older copy |
| Geometry.RoundToInt | Source/ProceduralFairings/FairingSide.cs:210 | rounding lands within half a unit of the value, and on the even neighbour on a tie |
| SideMesh.ComputeArea | Source/ProceduralFairings/FairingSide.cs:392-397 | the area loop sums the band (x0 + x1)(y1 - y0)π / numSideParts of every pair of consecutive silhouette points; in Source/FairingSide.cs, lines 215–217: the same loop in the older copy |
| SideMesh.AreaNonNegative | Source/ProceduralFairings/FairingSide.cs:392-403 | a silhouette with non-negative radii that never descends has a non-negative area, so the side's mass is not negative |
| SideMesh.CylinderArea | Source/ProceduralFairings/FairingSide.cs:392-397 | a straight wall of radius r gets 2πrh / numSideParts, the share of the cylinder's lateral area |
| SideMesh.FlatWall | Source/ProceduralFairings/FairingSide.cs:392-397 | a single point (a wall of no height) has no area |
| SideMesh.WallBand | Source/ProceduralFairings/FairingSide.cs:396 | a band between two points at the same radius is the difference of the two walls below them |
| SideMesh.AreaSplits | Source/ProceduralFairings/FairingSide.cs:392-397 | the area is additive over pieces of the silhouette that share a point |
| SideMesh.FairingSide.constructor | Source/ProceduralFairings/FairingSide.cs:24-40 | a side module starts with its configured fields and outline, no mass, and a connect node when the part has one |
| SideMesh.FairingSide.ModifiersGiveTotals | Source/ProceduralFairings/FairingSide.cs:113-121 | whatever the part's defaults, default plus cost modifier is the shell's mass times the price per tonne, and default plus mass modifier is the shell's mass; in Source/FairingSide.cs, lines 61–69: the same modifiers in the older copy |
| SideMesh.FairingSide.UpdateNodeSize | Source/ProceduralFairings/FairingSide.cs:204-219 | a connect node, if any, gets the connect size for the base diameter with 1.25 steps, and nothing else changes; in Source/FairingSide.cs, lines 100–108: the same in the older copy |
| SideMesh.FairingSide.UpdateMass | Source/ProceduralFairings/FairingSide.cs:390-405 | the mass is the shell area times the wall times the density, and the breaking force and torque are that mass times their coefficients; in Source/FairingSide.cs, lines 214–223: the same in the older copy |
| SideMesh.FairingSide.RebuildMesh | Source/ProceduralFairings/FairingSide.cs:278-787 | the connect node is resized as in updateNodeSize; the buffers have the closed-form counts and hold the sweep of the side's own silhouette over its numSegs + 1 directions (the inline form exactly when inlineHeight > 0); the mass is that silhouette's, as above; in Source/FairingSide.cs, lines 131–502: the same in the older copy |
| SideMesh.Silhouette | Source/ProceduralFairings/FairingSide.cs:312-319 | the side's silhouette, the closed outline when inlineHeight ≤ 0 and the inline one otherwise, has at least two points; in Source/FairingSide.cs, lines 148–156: the same in the older copy |
| SideMesh.SweepSpan | Source/ProceduralFairings/FairingSide.cs:325-330 | the numSegs + 1 sweep angles span exactly one side's share of the circle, 2π / numSideParts, symmetrically about 0; in Source/FairingSide.cs, lines 159–164: the same in the older copy |
| SideMesh.Directions | Source/ProceduralFairings/FairingSide.cs:323-330 | there are numSegs + 1 sweep directions |
| SideMesh.BuildDirections | Source/ProceduralFairings/FairingSide.cs:323-330 | the direction loop fills its array with the unit directions at the sweep angles; in Source/FairingSide.cs, lines 159–164: the same in the older copy |
| SideMesh.FairingSide.BuildSilhouette | Source/ProceduralFairings/FairingSide.cs:305-319 | the silhouette is built from the side's own outline fields |
| SideMesh.FairingSide.SweepShell | Source/ProceduralFairings/FairingSide.cs:332-787 | given a silhouette and directions, the buffers have the closed-form counts and hold the swept shell, and the mass is that silhouette's; in Source/FairingSide.cs, lines 166–502: the same in the older copy |
| Sizing.SideNodeSize | Source/ProceduralFairings/ProcAdapter.cs:438-443 | the connect node size is never negative, and it is the stack size less one unless that is negative; in Source/Resizers.cs, line 154: the same rule in the older resizers |
| Sizing.RoundMonotone | Source/ProceduralFairings/ProcAdapter.cs:93 | rounding to the nearest integer keeps order |
| Sizing.SideNodeSizeMonotone | Source/ProceduralFairings/ProcAdapter.cs:438-443 | a wider part never gets a smaller connect node |
| Sizing.NodeSizesOfWholeSteps | Source/Resizers.cs:93-100 | a diameter of k whole steps gets stack size k and connect size k - 1 (0 for k = 0) |
| Sizing.HornerIsCubic | Source/ProceduralFairings/ProcAdapter.cs:403 | the nested mass formula is the cubic a·s³ + b·s² + c·s + d; in Source/Resizers.cs, line 115: the same formula in the older resizer |
| Sizing.HornerMonotone | Source/ProceduralFairings/ProcAdapter.cs:403 | with non-negative a, b, c a larger non-negative scale never weighs less |
| Sizing.Square | Source/ProceduralFairings/ProcAdapter.cs:408-409 | a square is never negative |
| Sizing.StrengthMonotone | Source/ProceduralFairings/ProcAdapter.cs:408-409 | a breaking force with a non-negative coefficient is non-negative and grows with the radius; in Source/Resizers.cs, lines 118–119: the same in the older resizer |
| Sizing.WallThicknessBounds | Source/ProceduralFairings/ProcAdapter.cs:253-256 | the wall is the fraction of the larger end or a quarter of the smaller end, whichever is less, and not negative for non-negative inputs; in Source/Resizers.cs, lines 140–143: the resizer's wall, the case of equal ends; in Source/ProcAdapter.cs, lines 119–124: the older adapter's wall, the same rule |
| Sizing.InnerRadiusBound | Source/ProceduralFairings/ProcAdapter.cs:398-400 | the radius left inside the wall at either end is at least a quarter of the narrower diameter; in Source/Resizers.cs, lines 148–149: the same for the resizer |
| SideVertices.RowVertsIndex | Source/ProceduralFairings/FairingSide.cs:520-559 | vertex j of a row's run is the swept main vertex (i, j) |
| SideVertices.RowsVertsIndex | Source/ProceduralFairings/FairingSide.cs:495-560 | main vertex (i, j) sits at i·(numSegs + 1) + j |
| SideVertices.SurfaceLength | Source/ProceduralFairings/FairingSide.cs:354-367 | a main surface holds numMainVerts vertices: a full row per silhouette point, or all rows but the tip plus one apex; in Source/FairingSide.cs, lines 186–197: the same counts in the older copy |
| SideVertices.SurfaceIndex | Source/ProceduralFairings/FairingSide.cs:572-596 | the index i·(numSegs + 1) + j that the strips read holds main vertex (i, j) |
| SideVertices.SurfaceApex | Source/ProceduralFairings/FairingSide.cs:598-601 | the last vertex of a closed fairing's surface is its apex |
| SideVertices.FillApex | Source/ProceduralFairings/FairingSide.cs:470-485 | a closed fairing's two apex vertices are written at numMainVerts - 1 and 2·numMainVerts - 1, outer raised by the thickness, normals up and down, and nothing else changes; in Source/FairingSide.cs, lines 272–285: the same in the older copy |
| SideVertices.FillRowVerts | Source/ProceduralFairings/FairingSide.cs:520-559 | the inner loop writes row i on both surfaces and leaves every other slot alone |
| SideVertices.FillMainVerts | Source/ProceduralFairings/FairingSide.cs:495-560 | the main loop writes every full row on both surfaces, the inner surface numMainVerts further on; in Source/FairingSide.cs, lines 294–331: the same in the older copy |
| SideVertices.FillSurfaces | Source/ProceduralFairings/FairingSide.cs:470-560 | both main surfaces hold exactly their swept vertices (rows, then the apex of a closed fairing) and the rest of the buffer is untouched |
| SideVertices.FillLowStrip | Source/ProceduralFairings/FairingSide.cs:566-590 | the strip at direction 0 holds a pair per silhouette point repeating column 0 (or the apex), with the cut normal and the outer-to-inner tangent; in Source/FairingSide.cs, lines 335–352: the same in the older copy |
| SideVertices.FillHighStrip | Source/ProceduralFairings/FairingSide.cs:592-618 | the strip at direction numSegs, written downwards, holds a pair per silhouette point repeating the last column (or the apex); in Source/FairingSide.cs, lines 353–369: the same in the older copy |
| SideVertices.FillBaseRing | Source/ProceduralFairings/FairingSide.cs:622-636 | the base ring holds pairs repeating row 0 from direction numSegs down to 0, normals down; in Source/FairingSide.cs, lines 372–384: the same in the older copy |
| SideVertices.FillTopRing | Source/ProceduralFairings/FairingSide.cs:638-657 | an inline fairing's top ring holds pairs repeating the last row upwards, normals up; in Source/FairingSide.cs, lines 385–399: the same in the older copy |
| SideVertices.EdgeLength | Source/ProceduralFairings/FairingSide.cs:357-376 | the strips and rings hold 4·len + 2·(numSegs + 1) vertices, plus 2·(numSegs + 1) for an inline fairing |
| SideVertices.FillEdges | Source/ProceduralFairings/FairingSide.cs:562-657 | after the two surfaces the buffer holds the two strips, the base ring and the top ring of an inline fairing, and the surfaces are untouched |
| SideVertices.FinishTangents | Source/ProceduralFairings/FairingSide.cs:661-664 | the closing loop sets every tangent's w to 1 and changes nothing else; in Source/FairingSide.cs, line 402: the same in the older copy |
| SideVertices.BuildVertices | Source/ProceduralFairings/FairingSide.cs:465-664 | the new buffer has totalVerts entries and holds the whole swept shell with finished tangents; in Source/FairingSide.cs, lines 268–402: the same in the older copy |
| SideVertices.BufferLength | Source/ProceduralFairings/FairingSide.cs:354-376 | totalVerts is twice numMainVerts plus the strip and ring vertices, and numMainVerts is the length of each surface; in Source/FairingSide.cs, lines 186–206: the same counts in the older copy |
| SideVertices.MainTangentOrthogonal | Source/ProceduralFairings/FairingSide.cs:554-558 | every main vertex's tangent is horizontal with w = 0 and orthogonal to its normal |
| SideVertices.ShellOffset | Source/ProceduralFairings/FairingSide.cs:524-558 | the outer vertex is the inner one pushed by the thickness, horizontally at the first and last rows and along the normal elsewhere; the inner normal and tangent are the outer ones reversed |
| SideVertices.InnerOnRevolution | Source/ProceduralFairings/FairingSide.cs:524-536 | for a horizontal unit direction the inner vertex lies on the surface of revolution of the silhouette |
| SideVertices.EdgeSeam | Source/ProceduralFairings/FairingSide.cs:576-655 | every strip and ring pair repeats the positions of one outer and one inner main vertex, so the shell is closed along its edges |
| SideVertices.BufferMain | Source/ProceduralFairings/FairingSide.cs:495-560 | main vertex (i, j) is at i·(numSegs + 1) + j in the buffer and numMainVerts further on for the inner surface |
| SideVertices.BufferApex | Source/ProceduralFairings/FairingSide.cs:470-485 | a closed fairing's apexes sit at numMainVerts - 1 and 2·numMainVerts - 1, on the axis at the tip height (the outer raised by the thickness), facing up and down |
| ShellMesh.CountsNonNegative | Source/ProceduralFairings/FairingSide.cs:354-376 | with at least two silhouette points every vertex and face count is non-negative and the main surface has a vertex |
| ShellMesh.MainRowsLength | Source/ProceduralFairings/FairingSide.cs:682-704 | r rows of ns quads fill 6·ns·r slots |
| ShellMesh.MainBlockLength | Source/ProceduralFairings/FairingSide.cs:355-366 | each main block fills exactly numMainFaces·3 slots, closed or inline |
| ShellMesh.TrianglesTiling | Source/ProceduralFairings/FairingSide.cs:674-779 | the blocks written by the face loops have the sizes the counts give, and together fill the buffer of totalFaces·3 slots exactly; in Source/FairingSide.cs, lines 411–497: the same layout in the older copy |
| ShellMesh.MainVertsRows | Source/ProceduralFairings/FairingSide.cs:682-718 | the rows of quads reach at most the last main vertex, and a closed fairing's tip fan starts just below the apex |
| ShellMesh.TrianglesIn | Source/ProceduralFairings/FairingSide.cs:674-779 | every index the face loops write is a vertex of the buffer, and each main block only uses its own surface's vertices |
| ShellMesh.FlippedCorners | Source/ProceduralFairings/FairingSide.cs:690-702 | turning a triangle list over keeps its length, shifts every corner and swaps the last two corners of each triangle |
| ShellMesh.MainRowFlipped | Source/ProceduralFairings/FairingSide.cs:686-703 | the inner row of quads is the outer row shifted by numMainVerts with its winding reversed |
| ShellMesh.MainRowsFlipped | Source/ProceduralFairings/FairingSide.cs:682-704 | the same for all rows of quads |
| ShellMesh.TipFanFlipped | Source/ProceduralFairings/FairingSide.cs:710-719 | the inner tip fan is the outer one shifted and turned over |
| ShellMesh.StripFlipped | Source/ProceduralFairings/FairingSide.cs:728-745 | the second side strip is the first shifted by numSideVerts and turned over |
| ShellMesh.InnerSurfacesFlipped | Source/ProceduralFairings/FairingSide.cs:676-745 | the inner main surface and the second strip face the opposite way to their outer twins |
| ShellMesh.MainBlockFlipped | Source/ProceduralFairings/FairingSide.cs:676-720 | the inner main block is the outer one shifted by numMainVerts and turned over |
| ShellMesh.FillMainRow | Source/ProceduralFairings/FairingSide.cs:686-703 | the inner face loop writes the ns quads of one row on both surfaces and leaves every other slot alone |
| ShellMesh.FillTipFan | Source/ProceduralFairings/FairingSide.cs:706-720 | the tip loop writes ns triangles fanned into each apex and leaves every other slot alone; in Source/FairingSide.cs, lines 438–448: the same in the older copy |
| ShellMesh.FillSideFaces | Source/ProceduralFairings/FairingSide.cs:722-745 | the strip loop writes len - 1 quads of each side strip, the second turned over, and leaves every other slot alone; in Source/FairingSide.cs, lines 450–470: the same in the older copy |
| ShellMesh.FillRingFaces | Source/ProceduralFairings/FairingSide.cs:747-779 | a ring loop writes ns quads between consecutive vertex pairs of the ring; in Source/FairingSide.cs, lines 472–497: the same in the older copy |
| ShellMesh.FillMainFaces | Source/ProceduralFairings/FairingSide.cs:676-720 | the main-face loops fill both main blocks, each exactly its slots, and leave the rest alone; in Source/FairingSide.cs, lines 413–448: the same in the older copy |
| ShellMesh.FillRows | Source/ProceduralFairings/FairingSide.cs:682-704 | the row loop fills rows of quads on both surfaces, the inner block starting numMainFaces·3 on |
| ShellMesh.BuildTriangles | Source/ProceduralFairings/FairingSide.cs:674-781 | the new index buffer has totalFaces·3 entries and holds the main blocks, both strips, the base ring and (inline) the top ring; in Source/FairingSide.cs, lines 411–499: the same in the older copy |
| ShellMesh.FillOuterFaces | Source/ProceduralFairings/FairingSide.cs:722-779 | the strip and ring loops fill everything after the main faces and keep the main faces |
| ShellMesh.FillRingBlocks | Source/ProceduralFairings/FairingSide.cs:747-779 | the base ring faces, then for an inline fairing the top ring faces two vertices past the base ring |
| Shielding.SelectSide | Source/ProceduralFairings/FairingShielding.cs:88-111 | a side fairing is found iff there is a node and every one of the first numNodes nodes holds a part with a side module, and it is the last node's; in Source/FairingShielding.cs, lines 73–84: the same over every connect node in the older copy |
| Shielding.OffsetPrefix | Source/ProceduralFairings/FairingShielding.cs:136-152 | later passes of the offset loop never revisit a point already moved |
| Shielding.OffsetEnds | Source/ProceduralFairings/FairingShielding.cs:138-141 | the offset keeps the length, and the two end points move outwards by exactly the wall thickness |
| Shielding.OffsetInterior | Source/ProceduralFairings/FairingShielding.cs:142-151 | an interior point moves by the wall along the normal of the chord from its predecessor's already moved position to its successor |
| Shielding.OffsetOfVerticalWall | Source/ProceduralFairings/FairingShielding.cs:136-152 | on a straight vertical wall the middle point's normal is taken from the tilted chord (2, th), not the horizontal one |
| Shielding.OffsetShape | Source/ProceduralFairings/FairingShielding.cs:136-152 | the in-place loop leaves the silhouette offset point by point as above; in Source/FairingShielding.cs, lines 108–119: the same loop in the older copy |
| Shielding.ShapeBounds | Source/ProceduralFairings/FairingShielding.cs:156-178 | the bounds are the least and greatest height and the greatest radius of the silhouette, each attained by a point; in Source/FairingShielding.cs, lines 122–132: the same loop in the older copy |
| Shielding.LookupSphereHoldsCylinder | Source/ProceduralFairings/FairingShielding.cs:184-185 | with an exact square root the lookup sphere contains the whole bounding cylinder |
| Shielding.InsideTest | Source/ProceduralFairings/FairingShielding.cs:313-354 | the accurate centroid check answers true iff some silhouette segment spans the height and reaches out to the radius there; in Source/FairingShielding.cs, lines 192–211: the same check in the older copy |
| Shielding.SpanRadiusBetween | Source/ProceduralFairings/FairingShielding.cs:335-344 | the radius interpolated along a segment lies between the radii of its ends |
| Shielding.InsideWithinBounds | Source/ProceduralFairings/FairingShielding.cs:299-354 | a point the silhouette holds lies within the bounding cylinder, so the cylinder tests only cut work |
| Shielding.IsSideTest | Source/ProceduralFairings/FairingShielding.cs:258-273 | the scan answers true iff the part is attached to some connect node |
| Shielding.CheckCandidate | Source/ProceduralFairings/FairingShielding.cs:293-359 | a part passes iff its centroid lies between the cylinder's heights, within its radius and inside the silhouette; in Source/FairingShielding.cs, lines 178–213: the older copy first rejects a part whose bounds exceed four times the squared lookup radius |
| Shielding.Classify | Source/ProceduralFairings/FairingShielding.cs:247-291 | the base is always taken, a side part never, and any other part is checked for closing the top and for its position |
| Shielding.FilterCandidates | Source/ProceduralFairings/FairingShielding.cs:245-362 | the shielded list holds exactly the admitted candidates in order, and the top counts as closed iff the fairing is inline and some other part of the vessel closes it; in Source/FairingShielding.cs, lines 167–216: the same filter in the older copy, without the top test |
| Shielding.Admitted | Source/ProceduralFairings/FairingShielding.cs:245-362 | the filter never lists more parts than it was given |
| Shielding.BaseAlwaysShielded | Source/ProceduralFairings/FairingShielding.cs:251-256 | the base is shielded whenever it is among the parts in range |
| Shielding.ShieldedAreInside | Source/ProceduralFairings/FairingShielding.cs:258-361 | every shielded part other than the base is not a side part and has its centroid inside the bounding cylinder |
| Shielding.FairingShielding.constructor | Source/ProceduralFairings/FairingShielding.cs:82-121 | a shielding module starts with no side fairing, no shape and nothing shielded |
| Shielding.FairingShielding.DisableShielding | Source/ProceduralFairings/FairingShielding.cs:388-411 | the shielded list is emptied and the displayed count reset; in Source/FairingShielding.cs, lines 224–232: the older copy empties the list and has no count |
| Shielding.FairingShielding.GetFairingParams | Source/ProceduralFairings/FairingShielding.cs:82-188 | the side fairing is the last of the scanned connect nodes when it holds one; without it the shape is dropped and every bound zeroed; with it the stored shape is the silhouette offset by the side's wall, every point lies inside the bounding cylinder, points reach its bottom, top and radius, and the lookup sphere is centred on the cylinder with its half-diagonal as radius; in Source/FairingShielding.cs, lines 70–142: the same in the older copy, over every connect node |
| Shielding.BuildShell | Source/ProceduralFairings/FairingShielding.cs:136-188 | the side's silhouette offset by its wall, with the bounding cylinder every point lies in and whose bottom, top and radius some point reaches, and the lookup sphere around it; in Source/FairingShielding.cs, lines 108–142: the same in the older copy |
| Shielding.FairingShielding.EnableShielding | Source/ProceduralFairings/FairingShielding.cs:190-386 | the shell fields are set as by getFairingParams; the list is empty without a side fairing or when an inline fairing's top is open, and otherwise holds the admitted parts in order; the displayed count follows it; in Source/FairingShielding.cs, lines 145–221: the older copy: the admitted parts in order, no top test, no count |
| NodeNames.Digits | Source/ProceduralFairings/NodeNumberTweaker.cs:183-186 | a number is written with at least one decimal digit |
| NodeNames.DigitsRoundTrip | Source/ProceduralFairings/NodeNumberTweaker.cs:183-186 | reading the written digits back gives the number |
| NodeNames.LeadingZeroIgnored | Source/ProceduralFairings/NodeNumberTweaker.cs:183-186 | the leading zero of the two-digit format does not change the number read back |
| NodeNames.Pad2RoundTrip | Source/ProceduralFairings/NodeNumberTweaker.cs:183-186 | the two-digit format reads back to the number, has at least two digits and exactly two below 100 |
| NodeNames.NumberOfName | Source/ProceduralFairings/NodeNumberTweaker.cs:183-186 | the number read after the prefix of node i's name is i; in Source/NodeNumberTweaker.cs, line 130: the same for the older copy's identical name format |
| NodeNames.NodeNameInjective | Source/ProceduralFairings/NodeNumberTweaker.cs:183-186 | two node numbers never share a name |
| NodeNames.NumberedName | Source/ProceduralFairings/NodeNumberTweaker.cs:183-191 | node i's name belongs to a number range exactly when the range holds i |
| NodeNames.NumberedStep | Source/ProceduralFairings/NodeNumberTweaker.cs:183-191 | raising a range's top by one adds that number's name and no other |
| AttachNodes.IndexOf | Source/ProceduralFairings/NodeNumberTweaker.cs:188-191 | the attach-node search returns -1 or an index whose node has the id |
| AttachNodes.IndexOfFirst | Source/ProceduralFairings/NodeNumberTweaker.cs:188-191 | the index found is the first node with the id, and -1 means no node has it |
| AttachNodes.LookupAt | Source/ProceduralFairings/NodeNumberTweaker.cs:188-191 | with unique ids, searching for a node's own id finds that node |
| AttachNodes.UpdateLookup | Source/ProceduralFairings/NodeNumberTweaker.cs:326-333 | changing one node's fields in place keeps the ids unique and changes only that id's lookup |
| AttachNodes.AppendLookup | Source/ProceduralFairings/NodeNumberTweaker.cs:261-274 | adding a node with a new id keeps the ids unique and changes only that id's lookup |
| AttachNodes.RemoveLookup | Source/ProceduralFairings/NodeNumberTweaker.cs:290-293 | removing a node makes its id unknown and keeps every other lookup |
| AttachNodes.AnyPresentMeans | Source/ProceduralFairings/NodeNumberTweaker.cs:76-97 | the scan over a number range finds something exactly when some number of the range has a node |
| AttachNodes.MapNumberedShape | Source/ProceduralFairings/NodeNumberTweaker.cs:310-345 | a pass over a number range keeps the list's length and ids and edits each existing numbered node once |
| AttachNodes.MapNumberedLookup | Source/ProceduralFairings/NodeNumberTweaker.cs:310-345 | after a pass, a node numbered in the range is its edited old self and every other node is unchanged |
| AttachNodes.PassKeepsPresence | Source/ProceduralFairings/NodeNumberTweaker.cs:335-345 | part way through a pass the next number's node is untouched, so the found flag tracks existence in the old list |
| AttachNodes.RemoveNumberedShape | Source/ProceduralFairings/NodeNumberTweaker.cs:277-294 | removing a number range leaves no node of the range, keeps every other node and keeps the ids unique; in Source/NodeNumberTweaker.cs, lines 79–85: the same for the older copy's editor removal loop |
| AttachNodes.RemoveNumberedLookup | Source/ProceduralFairings/NodeNumberTweaker.cs:277-294 | after removal a numbered id of the range is unknown and every other lookup is as before |
| AttachNodes.RemovalKeepsPresence | Source/NodeNumberTweaker.cs:79-85 | part way through the removal the next number's node is still there exactly when it was at the start |
| AttachNodes.CreateMissingShape | Source/ProceduralFairings/NodeNumberTweaker.cs:252-275 | creation keeps the old nodes in front, in order, and appends exactly the missing numbers; in Source/NodeNumberTweaker.cs, lines 178–194: the same for the older copy's creation loop |
| AttachNodes.CreateMissingLookup | Source/ProceduralFairings/NodeNumberTweaker.cs:252-275 | after creation every number 1..numNodes has a node, the old one or a new one copying the template, and other ids are unchanged |
| AttachNodes.FirstNumberedIsFirst | Source/ProceduralFairings/NodeNumberTweaker.cs:214-250 | the template comes from the least number that has a node, and there is none only when no number has one |
| AttachNodes.EditedAt | Source/ProceduralFairings/NodeNumberTweaker.cs:310-345 | the lookup of any id after a pass over lo..hi |
| AttachNodes.RemovedAt | Source/ProceduralFairings/NodeNumberTweaker.cs:277-294 | the lookup of any id after the removal of lo..hi |
| AttachNodes.CreatedAt | Source/ProceduralFairings/NodeNumberTweaker.cs:252-275 | the lookup of any id after the creation loop over 1..hi |
| NodeTweaker.KeptOrCreated | Source/ProceduralFairings/NodeNumberTweaker.cs:210-302 | after addRemoveNodes node i of 1..numNodes is the old node, or a new one copying the template when it was missing |
| NodeTweaker.HiddenOrRemoved | Source/ProceduralFairings/NodeNumberTweaker.cs:277-294 | after addRemoveNodes a node above numNodes is hidden in the editor and gone in flight; in Source/NodeNumberTweaker.cs, lines 196–203: the same for the older copy, whose hidden node is moved to (10000, 0, 0) |
| NodeTweaker.AddRemovedOutcome | Source/ProceduralFairings/NodeNumberTweaker.cs:210-302 | addRemoveNodes keeps ids unique, creates the missing nodes 1..numNodes, hides or removes the higher numbers and leaves all other nodes untouched |
| NodeTweaker.PlacedFacts | Source/ProceduralFairings/NodeNumberTweaker.cs:310-333 | placement keeps the list's length and unique ids |
| NodeTweaker.PlaceEditPlaces | Source/ProceduralFairings/NodeNumberTweaker.cs:319-330 | one placement step puts the node on the circle at its angle, at its old height, resized when node resizing is on |
| NodeTweaker.PlacedNode | Source/ProceduralFairings/NodeNumberTweaker.cs:304-333 | updateNodePositions moves an existing node i of 1..numNodes onto the circle at angle 2·π·(i − 1)/numNodes |
| NodeTweaker.HiddenNode | Source/ProceduralFairings/NodeNumberTweaker.cs:335-345 | updateNodePositions hides an existing node above numNodes |
| NodeTweaker.PositionedOutcome | Source/ProceduralFairings/NodeNumberTweaker.cs:304-346 | updateNodePositions places every used node on the circle, hides every higher one, and creates or removes none; in Source/NodeNumberTweaker.cs, lines 210–235: the same for the older copy |
| NodeTweaker.HideIdempotent | Source/ProceduralFairings/NodeNumberTweaker.cs:76-97 | hiding the unused nodes a second time, as Update does after updateNodes, changes nothing |
| NodeTweaker.UpdatedNodeOnCircle | Source/ProceduralFairings/NodeNumberTweaker.cs:176-181 | after updateNodes every number 1..numNodes has a node, standing on the circle at its angle |
| NodeTweaker.UpdatedNodeAbove | Source/ProceduralFairings/NodeNumberTweaker.cs:176-181 | after updateNodes no node above numNodes is left in flight, and in the editor each is hidden |
| NodeTweaker.Tweaker.constructor | Source/ProceduralFairings/NodeNumberTweaker.cs:14-34 | the initial field values: two nodes (none in the older copy), radius 1.25, old radius -1000 |
| NodeTweaker.Tweaker.CheckNodeAttachments | Source/ProceduralFairings/NodeNumberTweaker.cs:193-208 | true exactly when a part hangs on some node 1..maxNumber; in Source/NodeNumberTweaker.cs, lines 134–147: the older copy scans only the used nodes 1..numNodes |
| NodeTweaker.Tweaker.FindTemplate | Source/ProceduralFairings/NodeNumberTweaker.cs:214-250 | the template is the first existing numbered node's height, size and direction, else the "bottom" node's height |
| NodeTweaker.Tweaker.CreateMissingNodes | Source/ProceduralFairings/NodeNumberTweaker.cs:252-275 | the nodes become the old list with the missing numbers appended |
| NodeTweaker.Tweaker.HideFrom | Source/ProceduralFairings/NodeNumberTweaker.cs:76-97 | every existing node numbered from..maxNumber is hidden, ids stay unique, and the result tells whether there was any |
| NodeTweaker.Tweaker.RemoveFrom | Source/NodeNumberTweaker.cs:79-85 | every node numbered from..maxNumber is removed, ids stay unique, and the result tells whether there was any |
| NodeTweaker.Tweaker.AddRemoveNodes | Source/ProceduralFairings/NodeNumberTweaker.cs:210-302 | the nodes become the addRemoveNodes result, the stack symmetry is numNodes − 1 and the fairing base is asked to rebuild; in Source/NodeNumberTweaker.cs, lines 150–207: the same for the older copy |
| NodeTweaker.Tweaker.PlaceNodes | Source/ProceduralFairings/NodeNumberTweaker.cs:306-333 | the placement loop is the placement pass over 1..numNodes |
| NodeTweaker.Tweaker.UpdateNodePositions | Source/ProceduralFairings/NodeNumberTweaker.cs:304-346 | the nodes become the placed-and-hidden list and ids stay unique; in Source/NodeNumberTweaker.cs, lines 210–235: the same for the older copy |
| NodeTweaker.Tweaker.UpdateNodes | Source/ProceduralFairings/NodeNumberTweaker.cs:176-181 | addRemoveNodes followed by updateNodePositions |
| NodeTweaker.Tweaker.FixedUpdate | Source/ProceduralFairings/NodeNumberTweaker.cs:47-57 | a changed radius is recorded and moves the nodes; an unchanged one leaves them; in Source/NodeNumberTweaker.cs, lines 64–68: the same for the older copy |
| NodeTweaker.Tweaker.ApplyNodeCount | Source/ProceduralFairings/NodeNumberTweaker.cs:70-107 | the slider's number is applied, the nodes are rebuilt, the unused ones hidden, and the base is asked to rebuild after 0.5 s if any were |
| NodeTweaker.Tweaker.Update | Source/ProceduralFairings/NodeNumberTweaker.cs:59-112 | outside the editor or with an unchanged slider nothing changes; with a part attached the slider snaps back; otherwise the new count is applied and the symmetry follows it; when nodes above the new count existed and were hidden, the base is asked to rebuild after a 0.5 s delay |
| NodeTweaker.Tweaker.LegacyUpdate | Source/NodeNumberTweaker.cs:71-91 | in the editor every node above numNodes is removed and, if any was, the base rebuilds with no delay; outside the editor nothing changes |
| NodeTweaker.Tweaker.IncrementNodes | Source/NodeNumberTweaker.cs:42-50 | one more node unless at the maximum or a part is attached, the count never passing the maximum; when applied the symmetry becomes the new count less one and a shape update is requested from a base |
| NodeTweaker.Tweaker.DecrementNodes | Source/NodeNumberTweaker.cs:54-62 | one node fewer unless at one or a part is attached, the count never dropping below one; when applied the symmetry becomes the new count less one and a shape update is requested from a base |
| NodeTweaker.Tweaker.OnLoad | Source/ProceduralFairings/NodeNumberTweaker.cs:161-174 | the slider follows the stored count, and in the editor or flight the nodes are rebuilt, the symmetry set to the count less one and a shape update requested from a base; in Source/NodeNumberTweaker.cs, lines 114–120: the older copy rebuilds the nodes the same way |
| ProcAdapter.Resized | Source/ProceduralFairings/ProcAdapter.cs:445-461 | every connect node gets the one size, the count and the attachments are kept |
| ProcAdapter.LegacyConversionRecoversRadii | Source/ProceduralFairings/ProcAdapter.cs:714-725 | taking the old wall fraction of the base radius off the converted diameters gives back the saved radii |
| ProcAdapter.Adapter.constructor | Source/ProceduralFairings/ProcAdapter.cs:17-42 | the initial sizes 1.25, height 1, recorded values -1000, changed set, the fairing present, and the "top" node at its configured height |
| ProcAdapter.Adapter.TopRadiusBounds | Source/ProceduralFairings/ProcAdapter.cs:253-264 | the top radius inside the wall is at least a quarter of the top diameter when the top is the narrower end, and is half the diameter less the wall; in Source/ProcAdapter.cs, lines 119–126: the same for the older copy |
| ProcAdapter.Adapter.ModifiersGiveTotals | Source/ProceduralFairings/ProcAdapter.cs:243-251 | the default plus the cost or mass modifier is the adapter's own price per tonne or mass |
| ProcAdapter.Adapter.CheckTweakables | Source/ProceduralFairings/ProcAdapter.cs:46-68 | each of base size, top size and height that differs from its recorded copy is recorded and sets changed, which is never cleared here; at lines 282–292: the extra height is tracked the same way; in Source/ProcAdapter.cs, lines 51–56: the same for the older copy, with extra height at lines 140-144 |
| ProcAdapter.Adapter.SetConnectSizes | Source/ProceduralFairings/ProcAdapter.cs:445-461 | the connect-node loop sets every connect node to the side node size |
| ProcAdapter.Adapter.UpdateStackNodes | Source/ProceduralFairings/ProcAdapter.cs:82-123 | changed is cleared, the bottom and top nodes that exist are sized from the base diameter, the top-stack node from the top diameter and lifted to the height, and no other output changes; in Source/ProcAdapter.cs, lines 67–86: the same for the older copy |
| ProcAdapter.Adapter.UpdateMass | Source/ProceduralFairings/ProcAdapter.cs:398-422 | the mass is the cubic in the inner base diameter, the breaking force and torque scale with the square of the inner base radius, and the current copy sets the rescale factor to the inner diameter; in Source/ProcAdapter.cs, lines 176–183: the same for the older copy, which leaves the rescale factor alone |
| ProcAdapter.Adapter.BaseInterstage | Source/ProceduralFairings/ProcAdapter.cs:125-157 | the interstage pairs are spaced evenly from the "top" node's height (0 without one) to the height (0 without a top-stack node), both nodes of a pair one below the top diameter's node size; it completes exactly when the count is even |
| ProcAdapter.Adapter.PlaceTopNode | Source/ProceduralFairings/ProcAdapter.cs:424-431 | the "top" node's height is its configured height times the inner base diameter; in Source/ProcAdapter.cs, lines 189–191: the same for the older copy |
| ProcAdapter.Adapter.UpdateConnect | Source/ProceduralFairings/ProcAdapter.cs:433-461 | every connect node gets the side node size, one below the inner diameter's node size but not below 0; in Source/ProcAdapter.cs, lines 193–205: the same for the older copy |
| ProcAdapter.Adapter.AdapterInterstage | Source/ProceduralFairings/ProcAdapter.cs:463-499 | the interstage pairs are spaced evenly from the "top" node to the height, the first of a pair sized like the "top" node and the second like a connect node; it completes exactly when the count is even |
| ProcAdapter.Adapter.UpdateLinks | Source/ProceduralFairings/ProcAdapter.cs:501-516 | the tweaker ring gets the outer base radius, and the base gets the inner diameter and the wall and a rebuild request; in Source/ProcAdapter.cs, lines 207–219: the same for the older copy, whose rebuild request zeroes the base's update delay instead |
| ProcAdapter.Adapter.UpdateShape | Source/ProceduralFairings/ProcAdapter.cs:394-519 | changed is cleared and the outputs become ShapeUpdate of the old ones: the steps run in the source's order and stop where the source throws, as the ShapeUpdate lemmas state; in Source/ProcAdapter.cs, lines 172–220: the same for the older copy |
| ProcAdapter.Adapter.RunFromMass | Source/ProceduralFairings/ProcAdapter.cs:398-519 | the part of updateShape after the base class's update gives FromMass of the old outputs |
| ProcAdapter.Adapter.RunFromTopNode | Source/ProceduralFairings/ProcAdapter.cs:424-519 | the part from the "top" node on gives FromTopNode of the old outputs |
| ProcAdapter.Adapter.RunFromConnect | Source/ProceduralFairings/ProcAdapter.cs:433-519 | the part from the connect nodes to the end gives FromConnect of the old outputs |
| ProcAdapter.ShapeUpdatePaths | Source/ProceduralFairings/ProcAdapter.cs:394-519 | updateShape ends in one of four ways: after the base class's interstage loop when it throws, after the mass without a "top" node, after the "top" node without a "bottom" node, or after every step |
| ProcAdapter.ShapeUpdateNodes | Source/ProceduralFairings/ProcAdapter.cs:82-123 | whatever the path, every stack node that exists is resized and the top-stack node lifted to the height; in Source/ProcAdapter.cs, lines 67–86: the same for the older copy |
| ProcAdapter.ShapeUpdateMass | Source/ProceduralFairings/ProcAdapter.cs:398-422 | mass, strength and (current copy) rescale factor are set exactly when the update gets past the base class's interstage loop, that is in the older copy or with an even count |
| ProcAdapter.ShapeUpdateLinks | Source/ProceduralFairings/ProcAdapter.cs:424-516 | the "top" node is scaled when it exists and the mass was set; the connect nodes, tweaker ring and base link change only when the "bottom" node exists too, and then as UpdateConnect and UpdateLinks state; in Source/ProcAdapter.cs, lines 189–219: the same for the older copy |
| ProcAdapter.ShapeUpdateInterstage | Source/ProceduralFairings/ProcAdapter.cs:125-157 | the older copy never moves interstage nodes; the current copy leaves them as its adapter loop places them (lines 463–499) when that loop runs, and otherwise as the base class's loop places them |
| ProcAdapter.AdapterInterstageBetween | Source/ProceduralFairings/ProcAdapter.cs:463-499 | when the adapter's loop runs and the scaled "top" node lies below the top-stack node, every interstage node ends strictly between them |
| ProcAdapter.Adapter.FixedUpdate | Source/ProceduralFairings/ProcAdapter.cs:70-80 | the tweakables are recorded; when one changed or a change was pending the outputs become ShapeUpdate of the old ones, otherwise none changes; afterwards nothing is pending; in Source/ProcAdapter.cs, lines 59–64: the same for the older copy |
| ProcAdapter.Adapter.CheckForFairingPresent | Source/ProceduralFairings/ProcAdapter.cs:671-696 | false once the fairing is known to be gone, otherwise true exactly when some connect node holds a part |
| ProcAdapter.Adapter.LoadLegacyRadii | Source/ProceduralFairings/ProcAdapter.cs:710-726 | with both old radii saved, the diameters are rebuilt with the old wall and the wall fraction scaled by 1.15/1.25; otherwise the sizes are kept; the current copy also marks a change on load (lines 187-193); in Source/ProcAdapter.cs, lines 285–298: the same conversion in the older copy, which does not mark a change on load |
| ProcAdapter.InterstageStrictlyBetween | Source/ProceduralFairings/ProcAdapter.cs:464-499 | with an even count every interstage node lies strictly between the top node and the top-stack node |
| ProcAdapter.InterstageOddLastAtTop | Source/ProceduralFairings/ProcAdapter.cs:471-477 | with an odd count the last node's height is the top-stack node's |
| ProcAdapter.InterstageRising | Source/ProceduralFairings/ProcAdapter.cs:471-477 | a later interstage node never sits lower than an earlier one |
| ProcAdapter.InterstagePair | Source/ProceduralFairings/ProcAdapter.cs:473-477 | the height computed for the pair at i is that of nodes i and i + 1, and a missing partner means an odd count |
| ProcAdapter.PutInterstagePair | Source/ProceduralFairings/ProcAdapter.cs:479-497 | one pass writes node i and, when it exists, node i + 1 with their heights and sizes |
| ProcAdapter.PlaceInterstage | Source/ProceduralFairings/ProcAdapter.cs:464-499 | every interstage node gets its pair's height and the even or odd size, and the loop completes exactly when the count is even; at lines 125–157: the base class's interstage loop, with both sizes one below the top diameter's node size |
| Resizers.Filled | Source/Resizers.cs:157-158 | every connect node gets the one size and the count is kept |
| Resizers.ResizerWallIsAdapterWall | Source/Resizers.cs:140-143 | the base resizer's wall is the adapter's wall rule for equal diameters and at most a quarter of the size |
| Resizers.InnerDiameterBounds | Source/Resizers.cs:148-150 | the inner diameter is the size less twice the wall and at least half the size |
| Resizers.PartResizer.constructor | Source/Resizers.cs:38 | the recorded size starts at -1000, so the first update resizes |
| Resizers.PartResizer.NodeSized | Source/Resizers.cs:97-101 | a missing node stays missing, an existing one gets the stack size of the scale |
| Resizers.PartResizer.ModuleCostIgnoresDefault | Source/Resizers.cs:42-45 | the older resizer's module cost is its mass priced per tonne whatever the default cost, so unlike the side and adapter modules the default is not subtracted and the part's total cost is the default plus that price |
| Resizers.PartResizer.SetConnectSizes | Source/Resizers.cs:157-158 | every connect size becomes the given size, nothing else changes |
| Resizers.PartResizer.ResizeStack | Source/Resizers.cs:111-128 | the size is recorded, the mass is the cubic in the scale, the strength scales with its square, and the top and bottom nodes are sized from it |
| Resizers.PartResizer.ResizePart | Source/Resizers.cs:162-199 | the size is recorded; mass, strength and rescale factor come from the resize scale and the stack nodes are sized from it; the fairing base resizer works from its inner diameter and, when both its "top" and "bottom" nodes exist, sizes the connect nodes one below it, puts the tweaker ring on the outer radius and hands the inner diameter and wall to the base with a rebuild request; without either node it stops after the stack nodes and leaves the connect nodes, ring and base as they were; at lines 206–225: the thrust plate resizes from its size and pulls the tweaker ring inside its radius |
| Resizers.PartResizer.FixedUpdate | Source/Resizers.cs:64-85 | the part is resized exactly when the size differs from the recorded one, leaving every field as resizePart does, including its stop for a fairing base resizer without a "top" or "bottom" node; otherwise nothing changes; the size is then recorded |
| Resizers.PartResizer.FixedUpdateTwice | Source/Resizers.cs:64-85 | two updates in a row resize at most once |
| Resizers.PartResizer.UpdateNodeSize | Source/Resizers.cs:104-108 | the stack nodes are sized from the size and nothing else changes; at lines 146–159: the fairing base resizer sizes its stack nodes from its inner diameter and its connect nodes one below |
| Resizers.ThrustPlateClamp | Source/Resizers.cs:221-222 | the clamped ring radius is inside the plate, and a ring already inside is left alone |

## Left out

- Floating point: every computation is over exact reals. Single-precision rounding, overflow and NaN are not modelled, so `float.Equals` and `!=` behave alike here. Unity's `Vector3 ==` and `Quaternion ==` compare within a tolerance of about 1e-5; the refresh pass's geometry comparisons are modelled as exact equality.
- Square root, sine, cosine, `Atan2` and vector normalisation are function parameters. Where a lemma needs a property of one of them, it takes that property as a precondition.
- The side mesh's `uv` buffer is not modelled. The silhouette's own texture coordinate (its z) is modelled.
- Colliders, the centre-of-mass offset, drag cubes and the model transform scale set in `rebuildMesh` and `updateShape` are not modelled. They are engine objects.
- Engine queries are inputs rather than computations. This covers `Physics.OverlapSphere`, renderer bounds and `MergeBounds`, and `AddShield`/`RemoveShield`. The shielding filter takes candidate centroids, squared sizes and the "closes the top" flag as data.
- The shielding event handlers (vessel modified, pack/unpack, part destroyed) and the base's shielding-enabled and shielding-disabled callbacks are not modelled. They only dispatch to the modelled operations.
- Shielding works from the side's silhouette as given. It does not rebuild that silhouette from the side part's fields, because that rebuild is the shape builders' job and they are modelled separately.
- `Shielding.FairingShielding.GetFairingParams` and `Shielding.FairingShielding.EnableShielding`: in the current copy, the side-selection loop reads the first `numNodes` connect nodes. The model requires `numNodes` to be at most the number of connect nodes; a larger count makes the source fail with an index error.
- Shielding's `dy <= 1e-6` threshold is modelled as the real constant 0.000001.
- Transforms: `PayloadScan` receives vertices already in the base's local frame. The world-to-local matrix and the collider type dispatch are not modelled.
- Joints and physics: ray hits in `createPayloadJoints`, joint and strut creation, `PFKMJoint.cs` and the decoupler code are not modelled. They act on rigid bodies. Only the joint-selection rule is modelled.
- `updateAttachedPartPos` and the `justLoaded` flag are not modelled. They only move parts attached to a node after the node moves.
- Host lifecycle and UI are not modelled. This covers `OnStart` field ranges and increments, `Fields[...]` bindings, editor messages, mass and cost display strings, and the tech-limit setup in the adapter's and resizers' `FixedUpdate`.
- The adapter's engine-fairing removal and its decoupling from the top part are not modelled. They act on other parts' modules and on part parentage.
- Connect node heights set by the adapter (halfway between its "top" and "bottom" nodes) and node positions set by the resizers are not modelled. The model keeps their sizes only. The adapter's "top" node height and its interstage node heights are modelled.
- Exceptions are modelled as early stops. These are the adapter's missing "top" or "bottom" node, an odd interstage node count in the current copy, and the fairing base resizer's missing "top" or "bottom" node (Source/Resizers.cs, line 173). The state the source had reached is kept, and what the engine does with the exception is not modelled.
- The attach node's owner, node type and original position and orientation are not modelled. Only the id, position, orientation, size and attachment flag take part in the tweaker's logic.
- The model assumes attach-node ids are unique within a part. The engine's lookup returns the first match, and the tweaker never creates a duplicate name.
- `NodeTweaker.Tweaker.Update`: the slider value `uiNumNodes` is a float in the source, truncated by `(int)`. The model takes it as a whole number; the slider steps by 1.
- `NodeTweaker.Tweaker.UpdateNodePositions`: requires `radiusStepLarge` to be non-zero, because the node size divides by it.
- Division by zero elsewhere in float code is excluded by preconditions: `verticalStep > 0`, a non-zero `noseHeightRatio`, a non-zero `mappingScaleY`, and at least one side part where the mass or the segment count divides by the side part count.
- Segment counts of at least one, and silhouettes of at least two points, are required of the shape and mesh builders. The shape builders always produce such silhouettes.
- Tech-tree and configuration access (`haveTech`, `GameDatabase`, `float.Parse`) are not modelled. The tech folds take the list of configuration values and a tech predicate as inputs.
- Coroutines (the delayed first change flag, the drag cube update) are not modelled. The delayed first change only sets `changed` later.
- `Properties/AssemblyInfo.cs` and `Misc/*.py` are not modelled. They are assembly metadata and texture tooling.
