# TLab-Spline core, modelled in Dafny

TLab-Spline is a Unity library for cubic Bezier splines. This model covers its core.

**Control-point lists.** A path is a list of control points: anchors at every third index,
with two handles between consecutive anchors. A closed path adds two handles across the
seam. The model covers how the `Spline` component (`Runtime/Spline.cs`) and the older
`Path` class (`Script/Runtime/Path.cs`) edit that list:
- open and close the path;
- add, split and delete segments;
- move a point, with neighbours following an anchor and the opposite handle mirrored;
- place handles automatically.

**Even resampling.** Each segment is walked in `t` and a point is emitted every `spacing`
units of travelled distance.

**Moving frames.** `GetSplinePoints` builds a frame (position, forward, up) at each
resampled point. On a closed path it untwists the frames so that the up vector agrees
across the seam.

**Primitives.** `Runtime/Primitive.cs` gives the control points of a line, a circle and a
polygon.

**Dispatch group count.** The compute-shader thread group count (`Runtime/Util.cs`).

**Meshes.**
- The quad strip laid along the resampled path (`Runtime/SplinePlaneArray.cs`), in its
  `NO_SPACE` and `DEFAULT` layouts.
- The copies of a mesh element bent onto the strip's quads, by `CurveTool`
  (`Script/Runtime/CurveTool.cs`) and `SplineMeshArray` (`Runtime/SplineMeshArray.cs`).

## How the code is modelled

**Numbers.** Floats are reals. Operations whose float behaviour the model does not
interpret are uninterpreted functions gathered in `Geometry.FloatOps`:
`normalized`, `magnitude`, `Bezier.EvaluateCubic`, `SignedAngle`, the quaternion rotation,
`sin`, `cos`, `tan`, and a degenerate reflection that divides by zero. Every property below
holds for any choice of these functions. C# integer `/`, `%` and `(int)` casts truncate
toward zero; `Arith` writes them out.

**Components.** The components whose methods update fields in place are classes:
`Spline.Spline`, `Path.Path` and `CurveTool.CurveTool`. The list they mutate is a `seq`
field. Each method is specified against a pure function on the point list, in
`ControlPolygon`, and the lemmas about that function carry the properties.

**Loops.** The resampling loop, the frame loop and seam correction, the strip builders,
the primitives and the instancing loops are methods with loop invariants. Each is proved
equal to a pure specification function, and the lemmas are stated about that function.

**Exceptions.** A C# exception is a precondition. This covers an out-of-range index,
`Vector3[1 % 0]` on an empty path, and a negative array length.

**Error returns.** The source's own error returns are modelled as results:
- `CalculateEvenlySpacedPoints` returning `false` on an empty list;
- `GetSplinePoints` leaving its output `null`;
- the delete guard that leaves the list unchanged.

## Model

| member | source | states |
|---|---|---|
| ControlPolygon.LoopIndex | Runtime/Spline.cs:226 | wrapping an index in `-n .. 2n` lands in `0 .. n`, one period down or up |
| ControlPolygon.LoopIndexIsRem | Script/Runtime/Path.cs:254-257 | the wrap is the C# remainder `(i + n) % n` |
| ControlPolygon.Anchors | Runtime/Spline.cs:9-11 | the anchors of a control list are exactly the points at indices divisible by three, in order |
| ControlPolygon.SegmentCountByTopology | Runtime/Spline.cs:9-11 | an open list of `3k+1` points has `k` segments and `k+1` anchors; a closed list of `3k` points has `k` segments and `k` anchors |
| ControlPolygon.SegmentPoints | Runtime/Spline.cs:160-169 | segment `s` is points `3s .. 3s+3`, and its last point wraps to point 0 at the end of a closed list |
| ControlPolygon.SegmentJoinsAnchors | Script/Runtime/Path.cs:185-194 | segment `s` runs from anchor `s` to anchor `s+1`, and the last segment of a closed path back to anchor 0 |
| ControlPolygon.AppendSegmentContents | Runtime/Spline.cs:110-126 | adding a segment keeps the old points, reflects the last handle through the last anchor, puts the next handle halfway to the new anchor and ends at the new anchor |
| ControlPolygon.AppendSegmentAnchors | Script/Runtime/Path.cs:123-141 | adding a segment keeps the list well formed and appends exactly the new anchor to the anchors |
| ControlPolygon.InsertSegmentContents | Runtime/Spline.cs:128-136 | splitting inserts zero handle, new anchor, zero handle after point `3s+1` and shifts the rest by three |
| ControlPolygon.SplitSegmentAnchors | Script/Runtime/Path.cs:143-155 | a split keeps the list well formed and inserts the new anchor right after anchor `s` |
| ControlPolygon.SplitThenRemoveRestores | Runtime/Spline.cs:128-158 | deleting the anchor a split just inserted gives back the original list |
| ControlPolygon.SplitKeepsOutside | Runtime/Spline.cs:128-136 | a split leaves the points before and after the new segment untouched, only shifted |
| ControlPolygon.RemoveSegment | Runtime/Spline.cs:138-158 | below the size guard, or at the first anchor of an open list, nothing changes; otherwise three points are removed, chosen by where the anchor sits (first anchor of a closed list, last anchor of an open list, or inside) |
| ControlPolygon.RemoveSegmentAnchors | Script/Runtime/Path.cs:157-183 | deleting anchor `a` keeps the list well formed and removes exactly anchor `a / 3` from the anchors |
| ControlPolygon.RemoveSegmentAnchorAt | Script/Runtime/Path.cs:157-183 | each remaining anchor of a deletion is the corresponding anchor of the list with anchor `a / 3` removed |
| ControlPolygon.RemoveSegmentAt | Runtime/Spline.cs:138-158 | each point after a deletion is the same point as before, or the point three further on |
| ControlPolygon.AppendThenRemoveRestores | Script/Runtime/Path.cs:123-183 | deleting the last anchor of an open list undoes adding a segment |
| ControlPolygon.CloseSeam | Runtime/Spline.cs:39-46 | closing appends two handles, each reflecting the handle next to an end anchor through that anchor |
| ControlPolygon.OpenSeamUndoesCloseSeam | Runtime/Spline.cs:56-60 | opening a path removes exactly the two seam handles that closing added |
| ControlPolygon.SeamKeepsWellFormed | Script/Runtime/Path.cs:40-78 | closing a well formed open list gives a well formed closed list, and opening reverses it |
| ControlPolygon.SeamKeepsAnchors | Runtime/Spline.cs:28-67 | opening and closing never change the anchors |
| ControlPolygon.ClosedPoints | Runtime/Spline.cs:28-67 | setting `close` adds the seam only when the point count is not already a multiple of three (the `Spline` guard), or always (`Path`); without auto mode the result is the seam alone |
| ControlPolygon.OpenedPoints | Script/Runtime/Path.cs:40-78 | clearing `close` drops the two seam handles when the guard allows, and otherwise keeps the list |
| ControlPolygon.CloseThenOpenRestores | Runtime/Spline.cs:28-67 | closing then opening a path that is not in auto mode restores the list |
| ControlPolygon.PlaceControl | Runtime/Spline.cs:378-417 | a handle is written at its wrapped slot when the path reaches that slot |
| ControlPolygon.PlaceControlKeeps | Runtime/Spline.cs:378-417 | placing a handle changes no other slot |
| ControlPolygon.AutoSetAnchorKeeps | Runtime/Spline.cs:378-417 | auto-setting anchor `a` changes only its two neighbouring handle slots |
| ControlPolygon.AutoSetAnchorPlacesHandles | Script/Runtime/Path.cs:328-369 | each handle of the anchor goes along the shared direction, at half the distance to the neighbouring anchor on its side |
| ControlPolygon.HandleSlotsAreNotAnchors | Runtime/Spline.cs:378-417 | on a well formed list the neighbour slots of an anchor are never anchors, even after wrapping |
| ControlPolygon.AutoSetAnchorKeepsAnchors | Runtime/Spline.cs:378-417 | auto-setting one anchor's handles never moves an anchor |
| ControlPolygon.AffectedAllRun | Runtime/Spline.cs:363-370 | the affected-anchor sweep, from three points before the moved anchor to three points after it, can run exactly when every anchor it visits is in range or wraps |
| ControlPolygon.AutoSetAllFromKeepsAnchors | Runtime/Spline.cs:372-376 | auto-setting every anchor keeps all anchors and the list length |
| ControlPolygon.AutoSetStartAndEnd | Runtime/Spline.cs:419-444 | on an open list, the first handle moves to the midpoint of the first two anchors and the last handle to the midpoint of the last two anchors; nothing else changes |
| ControlPolygon.MovedPoints | Runtime/Spline.cs:171-224 | in auto mode a handle does not move; otherwise, with no mirroring, only the moved point changes |
| ControlPolygon.MoveHandleMirrors | Runtime/Spline.cs:195-220 | a mirrored handle move (`Tangent` mode of `Spline`; always in `Path`, Script/Runtime/Path.cs:239-248) puts the handle on the target and, when the opposite handle exists or the list wraps, puts the opposite handle on the ray from the target through the unmoved anchor at its old distance from the anchor, changing nothing else; otherwise only the handle moves |
| ControlPolygon.MoveAnchorShiftsHandles | Runtime/Spline.cs:171-194 | moving an anchor moves its neighbouring handles, wrapping on a closed list, by the same offset and leaves every other point alone |
| ControlPolygon.MoveAnchorRoundTrip | Script/Runtime/Path.cs:196-252 | moving an anchor and moving it back restores the whole list |
| ControlPolygon.AddedPoints | Runtime/Spline.cs:110-126 | adding a segment grows the list by three, and without auto mode it is the plain append |
| ControlPolygon.SplitPoints | Runtime/Spline.cs:128-136 | a split grows the list by three and smooths the new anchor's handles |
| ControlPolygon.DeletedPoints | Runtime/Spline.cs:138-158 | a delete leaves the counted number of points, and without auto mode it is the plain removal |
| Spline.Spline.Init | Runtime/Spline.cs:103-108 | copying another spline copies its points, closed flag and edit mode |
| Spline.Spline.SetClose | Runtime/Spline.cs:28-67 | the closed flag is set, and the points gain or lose the seam as the guarded close and open say, or stay as they were when the flag does not change |
| Spline.Spline.SetEditMode | Runtime/Spline.cs:69-82 | switching into auto mode re-places every handle, and any other change of mode keeps the points |
| Spline.Spline.AddSegment | Runtime/Spline.cs:110-126 | the new points are the added list; the flags do not change |
| Spline.Spline.SplitSegment | Runtime/Spline.cs:128-136 | the new points are the split list; the flags do not change |
| Spline.Spline.DeleteSegment | Runtime/Spline.cs:138-158 | the new points are the guarded removal; the flags do not change |
| Spline.Spline.MovePoint | Runtime/Spline.cs:171-224 | the new points are the moved list, with the opposite handle mirrored only in `Tangent` mode |
| Spline.Spline.CalculateEvenlySpacedPoints | Runtime/Spline.cs:228-276 | on an empty list it reports failure with a one-point zero output; otherwise it returns the even resampling offset by the transform position |
| Spline.Spline.GetSplinePoints | Runtime/Spline.cs:285-361 | on an empty list it reports failure with a null output; otherwise it returns a fresh array of seam-corrected frames over the resampled points |
| Spline.Spline.AutoSetAllAffectedControlPoints | Runtime/Spline.cs:363-370 | the points are the affected-anchor sweep of the list |
| Spline.Spline.AutoSetAllControlPoints | Runtime/Spline.cs:372-376 | the points are every anchor auto-set in turn |
| Spline.Spline.AutoSetAnchorControlPoints | Runtime/Spline.cs:378-417 | the points are the list with one anchor's handles re-placed |
| Spline.Spline.AutoSetStartAndEndControls | Runtime/Spline.cs:419-444 | the points are the list with its end handles re-placed |
| Path.CenterPoints | Script/Runtime/Path.cs:100-109 | a new path is four points, from one unit left of the centre to one unit right |
| Path.CenterPointsSymmetric | Script/Runtime/Path.cs:100-109 | both the anchors and the handles of a new path are symmetric about the centre |
| Path.CenterPointsAnchors | Script/Runtime/Path.cs:100-109 | a new path is a well formed open list of one segment whose anchors are the two end points |
| Path.Path.FromCenter | Script/Runtime/Path.cs:100-109 | a path built at a centre holds those four points, open and without auto mode |
| Path.Path.FromPoints | Script/Runtime/Path.cs:111-114 | a path built from a list holds that list |
| Path.Path.Copy | Script/Runtime/Path.cs:116-121 | a copied path has the same points and flags |
| Path.Path.SetIsClosed | Script/Runtime/Path.cs:40-78 | the closed flag is set and the points gain or lose the seam with no guard |
| Path.Path.SetAutoSetControlPoints | Script/Runtime/Path.cs:80-98 | turning auto mode on re-places every handle, and anything else keeps the points |
| Path.Path.AddSegment | Script/Runtime/Path.cs:123-141 | the new points are the added list |
| Path.Path.SplitSegment | Script/Runtime/Path.cs:143-155 | the new points are the split list |
| Path.Path.DeleteSegment | Script/Runtime/Path.cs:157-183 | the new points are the guarded removal |
| Path.Path.MovePoint | Script/Runtime/Path.cs:196-252 | the new points are the moved list, always mirroring the opposite handle |
| Path.Path.CalculateEvenlySpacedPoints | Script/Runtime/Path.cs:259-307 | on an empty list it reports failure; otherwise it returns the even resampling with no offset, which starts at the first control point |
| Path.Path.AutoSetAllAffectedControlPoints | Script/Runtime/Path.cs:309-318 | the points are the affected-anchor sweep |
| Path.Path.AutoSetAllControlPoints | Script/Runtime/Path.cs:320-326 | the points are every anchor auto-set |
| Path.Path.AutoSetAnchorControlPoints | Script/Runtime/Path.cs:328-369 | the points are the list with one anchor's handles re-placed |
| Path.Path.AutoSetStartAndEndControls | Script/Runtime/Path.cs:371-396 | the points are the list with its end handles re-placed |
| Resampling.EmitEven | Runtime/Spline.cs:260-267 | after emitting, less than one spacing of travelled distance is left over, and with less than one spacing nothing is emitted |
| Resampling.EmitEvenExtends | Runtime/Spline.cs:260-267 | emitting only appends points |
| Resampling.EmitEvenCount | Runtime/Spline.cs:260-267 | the number of points emitted is the floor of the travelled distance over the spacing, and the remainder is what is left |
| Resampling.DrainRemainder | Runtime/Spline.cs:260-267 | the distance left after draining is in `[0, spacing)` and is the start distance minus the spacings emitted |
| Resampling.WalkSegment | Runtime/Spline.cs:252-270 | after walking a segment the previous point is the curve sampled at `t = (d + 1) / d`, one step past the segment's end, because `t` is increased before each sample |
| Resampling.WalkSegmentOvershoots | Runtime/Spline.cs:252-270 | the segment's last sample, from which the next segment measures, is the cubic evaluated at a parameter above 1 |
| Resampling.WalkSegmentExtends | Runtime/Spline.cs:252-270 | walking a segment only appends points |
| Resampling.WalkFromExtends | Runtime/Spline.cs:244-271 | walking the remaining segments only appends points |
| Resampling.EvenlySpaced | Runtime/Spline.cs:239-240 | the resampled list is never empty and starts at the first point, offset by the origin |
| Resampling.NoSegmentNoWalk | Runtime/Spline.cs:244 | a list too short for a segment resamples to its first point alone |
| Resampling.SpacedPoints | Runtime/Spline.cs:239-273 | the resampling loop computes the even resampling |
| Resampling.EmitEvenPoints | Runtime/Spline.cs:260-267 | the inner emit loop computes the emission function |
| Resampling.WalkSegmentPoints | Runtime/Spline.cs:252-270 | the `t` loop with its `t <= 1` test visits exactly `t = 1/d, 2/d, ..., (d+1)/d` in exact arithmetic and computes the segment walk |
| Frames.ChordSum | Runtime/Spline.cs:297-307 | an interior point's forward offset is the chord from its previous to its next neighbour, and a single point has no offset |
| Frames.Reflect | Runtime/Spline.cs:316-321 | a reflection across a non-zero axis negates the component along the axis and keeps the length |
| Frames.ReflectFacts | Runtime/Spline.cs:316-321 | the written-out reflection formula negates the axis component and preserves the squared length |
| Frames.FrameAt | Runtime/Spline.cs:309-332 | each frame sits on its point, faces along its normalised chord, and points up when `zUp` |
| Frames.FramesFromFrame | Runtime/Spline.cs:295-333 | frame `j` of the list has position, forward and, with `zUp`, up as above |
| Frames.RawFrames | Runtime/Spline.cs:292-335 | one frame per resampled point |
| Frames.TwistShare | Runtime/Spline.cs:344 | the share of the seam error applied at a frame is in `[0, 1]` and is all of it at the last frame |
| Frames.Untwisted | Runtime/Spline.cs:345-352 | an untwisted frame keeps its position and forward and rotates its up about the forward by its share of the error |
| Frames.SeamCorrected | Runtime/Spline.cs:337-355 | seam correction keeps the first frame and every position and forward; when the path is open or the error is within 0.1 it changes nothing, and otherwise it rotates every later frame by its share |
| Frames.FrameList | Runtime/Spline.cs:292-333 | the frame loop computes the raw frames |
| Frames.CorrectSeam | Runtime/Spline.cs:337-355 | the in-place loop over the array leaves the seam-corrected frames |
| Frames.SplineFrames | Runtime/Spline.cs:290-357 | the array returned holds the seam-corrected frames |
| Frames.SplineFramesShape | Runtime/Spline.cs:292-355 | the frames match the resampled points one for one in position and forward; with `zUp` and no correction all point up; an open path is never corrected |
| Frames.ZUpFramesStayUp | Runtime/Spline.cs:292-355 | in z-up mode every up vector is world up, open or closed, given a signed angle that is zero between equal vectors: the measured seam twist is then zero and no correction runs |
| Primitive.RotateLeft | Runtime/Primitive.cs:46-47 | moving the queue's head to its tail rotates the list left by one |
| Primitive.Line | Runtime/Primitive.cs:15-27 | a line is two doubled end points `size` apart along x, centred on the centre |
| Primitive.CircleQueueAt | Runtime/Primitive.cs:34-45 | the loop queues, per anchor, the handle before it, the anchor and the handle after it |
| Primitive.Circle | Runtime/Primitive.cs:29-50 | the circle method returns the rotated queue |
| Primitive.CirclePoint | Runtime/Primitive.cs:36-44 | one loop step computes the anchor and the handle offset at angle `theta` |
| Primitive.CircleSegment | Runtime/Primitive.cs:29-50 | after the rotation, segment `i` runs from anchor `i` through its after-handle and the next anchor's before-handle to anchor `i+1`, wrapping: the result is a closed control list |
| Primitive.CircleControlsSymmetric | Runtime/Primitive.cs:40-44 | each anchor is the midpoint of its two handles, so the circle is smooth at every anchor |
| Primitive.PolygonQueueAt | Runtime/Primitive.cs:56-65 | the loop queues each anchor three times |
| Primitive.Polygon | Runtime/Primitive.cs:52-71 | the polygon method returns the rotated queue |
| Primitive.PolygonSegment | Runtime/Primitive.cs:52-71 | after the rotation, segment `i` is a straight edge from anchor `i` to anchor `i+1`, wrapping |
| Primitive.PointsAreFlat | Runtime/Primitive.cs:29-71 | every point of a circle or polygon lies in the horizontal plane of the centre |
| Util.GroupCount | Runtime/Util.cs:58-60 | the group count as written is zero for no work and never negative |
| Util.GetDispatchGroupSize | Runtime/Util.cs:51-61 | each axis's group count uses that axis's thread count alone |
| Util.GroupCountOfMultiple | Runtime/Util.cs:58-60 | when the work is an exact multiple of the group size, the count is the quotient |
| Util.GroupCountCovers | Runtime/Util.cs:58-60 | the count as written always covers the work and never exceeds the work itself |
| Util.GroupCountAtLeastCeil | Runtime/Util.cs:58-60 | the count as written is at least the ceiling, equal on exact multiples, and larger whenever the remainder exceeds one |
| Util.OverDispatchExample | Runtime/Util.cs:58-60 | 7 threads in groups of 4 give 4 groups as written, where 2 suffice |
| Util.CeilGroupCount | Runtime/Util.cs:58-60 | the corrected count is never negative |
| Util.CeilGroupCountIsLeast | Runtime/Util.cs:58-60 | the corrected count is the least number of groups that covers the work |
| PlaneArray.QuadCorner | Runtime/SplinePlaneArray.cs:140-149 | the six triangle corners of a quad name its four vertices |
| PlaneArray.SideOffset | Runtime/SplinePlaneArray.cs:127-131 | the side offset is horizontal when `zUp` |
| PlaneArray.CompletionVBounds | Runtime/SplinePlaneArray.cs:151-154 | the `v` texture coordinate is in `[0, 1]`, symmetric about the middle, 0 at the start and 1 at the middle |
| PlaneArray.SampleOffset | Runtime/SplinePlaneArray.cs:116-131 | one step computes the side offset of sample `i` from its neighbours |
| PlaneArray.GenerateNoSpace | Runtime/SplinePlaneArray.cs:103-160 | the `NO_SPACE` strip has two vertices and two texture coordinates per sample, and one quad of six indices per sample joined to the next |
| PlaneArray.NoSpacePairSymmetric | Runtime/SplinePlaneArray.cs:127-131 | each vertex pair is centred on its sample, at the sample's height when `zUp` |
| PlaneArray.NoSpaceTriInRange | Runtime/SplinePlaneArray.cs:140-149 | every index of the strip names one of its vertices |
| PlaneArray.NoSpaceQuadJoins | Runtime/SplinePlaneArray.cs:140-149 | quad `i` joins the pair of sample `i` to the pair of sample `i+1`, wrapping to sample 0 |
| PlaneArray.NoSpaceUnwrittenSlots | Runtime/SplinePlaneArray.cs:106-149 | on a closed strip the extra triangle slots past the last sample are never written and stay 0 |
| PlaneArray.QuadOffset | Runtime/SplinePlaneArray.cs:173-176 | one step computes the side offset of quad `i` from its own edge |
| PlaneArray.GenerateDefault | Runtime/SplinePlaneArray.cs:161-209 | the `DEFAULT` strip has four vertices, four texture coordinates and six indices per quad, as the layout describes |
| PlaneArray.DefaultQuadShape | Runtime/SplinePlaneArray.cs:178-182 | each quad's front pair is centred on sample `i`, its back pair on sample `i+1`, and both sides run parallel to the chord |
| PlaneArray.DefaultTriLocal | Runtime/SplinePlaneArray.cs:184-193 | a quad's triangles use only its own four vertices |
| PlaneArray.DefaultUvRows | Runtime/SplinePlaneArray.cs:195-203 | each quad's front pair shares one `v`, the last quad's is 0, and its back pair is left at zero |
| PlaneArray.PlaneVerts | Runtime/SplinePlaneArray.cs:99-211 | the strip's vertex count is fixed by the mode and the sample count |
| PlaneArray.NoSpaceVerts | Runtime/SplinePlaneArray.cs:103-160 | any `NO_SPACE` layout's vertices are the strip vertices of that mode |
| PlaneArray.DefaultVerts | Runtime/SplinePlaneArray.cs:161-209 | any `DEFAULT` layout's vertices are the strip vertices of that mode |
| PlaneArray.GeneratePlaneAlongToSpline | Runtime/SplinePlaneArray.cs:99-211 | the generator builds the layout of the selected mode, and its vertices are the strip vertices |
| ArrayMesh.BoundsUvs | Runtime/SplineMeshArray.cs:193-201 | the loop maps every element vertex to its bounds coordinates |
| ArrayMesh.NormaliseAxis | Script/Runtime/CurveTool.cs:609-617 | normalising an axis against its bounds is invertible, sends the bounds to 0 and 1, and keeps inside points in `[0, 1]` |
| ArrayMesh.BoundsUvInverse | Runtime/SplineMeshArray.cs:193-201 | the bounds coordinates scale back to the vertex, the bounds' corners map to 0 and 1, and a vertex inside the bounds maps into the unit square |
| ArrayMesh.PosInPlaneCorners | Script/Runtime/CurveTool.cs:647-651 | the four corners of the unit square land on the quad's four corners |
| ArrayMesh.DeformFlatCorner | Runtime/SplineMeshArray.cs:231-244 | a flat corner vertex with no slide lands exactly on a quad corner |
| ArrayMesh.DeformLift | Runtime/SplineMeshArray.cs:231-244 | raising a vertex's height moves it along the quad normal by the height change times the lift |
| ArrayMesh.DeformNoSlide | Script/Runtime/CurveTool.cs:647-657 | with no slide a vertex is its point in the quad lifted along the normal |
| ArrayMesh.SlideAlongEdges | Runtime/SplineMeshArray.cs:231-244 | at the front and back edges the slide runs along that edge |
| ArrayMesh.CornerIndex | Runtime/SplineMeshArray.cs:226-229 | a corner lookup always lands in the strip and is the plain index when that is in range |
| ArrayMesh.InstanceVerts | Runtime/SplineMeshArray.cs:231-244 | each copy has as many vertices as the element |
| ArrayMesh.CopyTris | Runtime/SplineMeshArray.cs:246-249 | the triangle loop copies the element's indices |
| ArrayMesh.RangeQuads | Runtime/SplineMeshArray.cs:207-213 | a range visits some quad exactly when its start is below its end |
| ArrayMesh.RangeQuadsAt | Script/Runtime/CurveTool.cs:627-629 | the `k`-th quad visited is `start + k * step` and lies in `[start, end)` |
| ArrayMesh.RangeQuadsCover | Script/Runtime/CurveTool.cs:627-629 | the visits stop only once the next step would pass the end |
| ArrayMesh.AllQuadsRun | Runtime/SplineMeshArray.cs:203-213 | when every range can run, every quad visited is placeable |
| ArrayMesh.Instances | Runtime/SplineMeshArray.cs:203-258 | one copy per visited quad |
| ArrayMesh.InstancesSnoc | Runtime/SplineMeshArray.cs:215-258 | placing one more quad appends exactly its copy |
| ArrayMesh.InstancesShape | Script/Runtime/CurveTool.cs:636-667 | every copy keeps the element's vertex count, texture coordinates and triangles |
| CurveTool.CurveTool.constructor | Script/Runtime/CurveTool.cs:38-63 | the component starts with the serialized defaults and no strip |
| CurveTool.CurveTool.UpdateQuadMesh | Script/Runtime/CurveTool.cs:521-586 | the quad buffers become the `NO_SPACE` strip of the path at half the scaled element width; the settings do not change |
| CurveTool.CurveTool.Placement | Script/Runtime/CurveTool.cs:593-617 | the placement is a valid job over the strip with stride two |
| CurveTool.CurveTool.CreateArrayMesh | Script/Runtime/CurveTool.cs:593-673 | the meshes yielded are one bent copy per quad visited, range after range, stepping `1 + skip` |
| CurveTool.CurveTool.PlaceRange | Script/Runtime/CurveTool.cs:627-670 | one range appends the copies for its quads, in order |
| CurveTool.CurveTool.PlaceCopy | Script/Runtime/CurveTool.cs:631-670 | one copy's vertices are the element bent onto its quad and lifted by `scale.y` |
| SplineMeshArray.CornerStride | Runtime/SplineMeshArray.cs:180-191 | the corner stride is two for `NO_SPACE` and four for `DEFAULT` |
| SplineMeshArray.Placement | Runtime/SplineMeshArray.cs:163-201 | the placement is a valid job over the strip of the mode |
| SplineMeshArray.CreateArrayMeshTask | Runtime/SplineMeshArray.cs:163-260 | the meshes are one bent copy per quad visited, range after range, stepping `1 + skip` |
| SplineMeshArray.Prepare | Runtime/SplineMeshArray.cs:165-201 | the strip, stride and bounds coordinates computed are those of the placement |
| SplineMeshArray.PlaceRange | Runtime/SplineMeshArray.cs:207-258 | one range appends the copies for its quads, in order |
| SplineMeshArray.PlaceCopy | Runtime/SplineMeshArray.cs:219-249 | one copy's vertices are the element bent onto its quad, lifted by `size.y` and slid by the slide offset |
| SplineMeshArray.NoSpaceCorners | Runtime/SplineMeshArray.cs:226-229 | on a `NO_SPACE` strip copy `i` spans the vertex pairs of sample `i` and sample `i+1`, wrapping |
| SplineMeshArray.DefaultCorners | Runtime/SplineMeshArray.cs:226-229 | on a `DEFAULT` strip copy `i` uses exactly the four corners of quad `i` |
| SplineMeshArray.NoSlideIsCurveTool | Runtime/SplineMeshArray.cs:231-244 | with no slide, a copy is bent exactly as the older component bends it |
| Geometry.ExtrapolateIsReflection | Runtime/Spline.cs:39-46 | the extrapolated handle is the reflection of the handle through the anchor |
| Arith.QuotRemIdentity | Runtime/Util.cs:58-60 | truncating division and remainder recombine to the dividend, and the remainder is smaller than the divisor |
| Arith.TruncToInt | Script/Runtime/CurveTool.cs:621-622 | the `(int)` cast rounds toward zero |
| Arith.CeilToInt | Runtime/Spline.cs:250 | `CeilToInt` gives the least integer at or above its argument |

## Left out

- Float arithmetic is exact real arithmetic. Rounding, NaN and infinity are not modelled, and neither is the exact IEEE behaviour of the `FloatOps` operations.
- Output arrays such as `Vector3[]` and `int[]` are sequences. A Unity `Mesh` is a value holding vertices, texture coordinates and triangles.
- `Mesh.RecalculateNormals`, bounds recalculation, collider and renderer updates, `GameObject` creation and `Debug.LogError` are not modelled. They do not change the data the core computes.
- Coroutine `yield` points, the task queue, auto-update requests and editor `Undo` calls are not modelled. Each coroutine is one call that returns everything it would yield, in order.
- `transform.position` is the `origin` parameter of `Spline.Spline.CalculateEvenlySpacedPoints` and `Spline.Spline.GetSplinePoints`.
- The mesh element's mesh and bounds are parameters. `MeshElement` is not part of this model.
- `Spline.Init(PrimitiveType…)` is not modelled. It only copies the output of a primitive, which `Primitive` models directly.
- The editors, terrain height fitting, `SplineInstantiate`, the other `CurveTool` routines (terrain fit, collision, GL drawing) and the compute shaders are not part of this model.
- Resampling.WalkSegmentPoints: the float `t` loop is modelled in exact arithmetic, where it runs `d + 1` times. With float accumulation the count can differ by one.
- ArrayMesh.NonFlat: an element whose bounds are flat on some axis divides by zero in the source. The model requires bounds that are not flat instead of modelling the NaN coordinates.
- CurveTool.CurveTool.CreateArrayMesh: the `(int)m_skip` cast of an unsigned skip is required to leave a positive step. A skip of `2^31 - 1` or more wraps the step to zero or below, and the source then loops forever.
- SplineMeshArray.CreateArrayMeshTask: the same skip bound as `CurveTool.CurveTool.CreateArrayMesh`.
- Integer overflow of the index arithmetic (`i * 2 + 3`, `vertIndex + 5`) is not modelled. Indices are unbounded integers, because a mesh large enough to overflow them cannot be allocated.
- Frames.Reflect: when the reflection axis is zero, the source divides by zero. The model leaves that case to the uninterpreted `degenerateReflection` and states nothing about it.
- Resampling.ResampleOk: requires a positive spacing whenever there is a segment, because with a spacing of zero or below the source's inner emit loop never ends. It also requires at least one division per segment: a zero-length segment gives 0 divisions, so `1 / divisions` is infinite and the source emits NaN points, and a negative resolution makes the `t` loop endless. Neither case is modelled.
- CurveTool.CurveTool.constructor: `m_points` and the quad buffers are not serialized and start as `null` in the source (Script/Runtime/CurveTool.cs:61, 511-513), so `CreateArrayMesh` before `UpdateQuadMesh` throws a `NullReferenceException`. The model starts them as empty sequences, and then yields no meshes.
- Path.Path.FromPoints: the source stores the caller's list itself (Script/Runtime/Path.cs:113), so later edits are shared between the path and the caller. The model copies the value, so aliasing is not modelled; the only caller in view passes a fresh list.
- ControlPolygon.AutoSetAnchor: the handle direction and distances go through `normalized` and `magnitude`. The contracts state where each handle goes and what stays put, not the float values.

## Findings

| source | as written | input that shows it | evidently intended | confidence | as-written member | corrected member |
|---|---|---|---|---|---|---|
| Runtime/Util.cs:58-60 | group count is `dispatch / dim + dispatch % dim` | 7 threads with a group size of 4 give 1 + 3 = 4 groups | the ceiling of `dispatch / dim`: 2 groups | not executed | Util.OverDispatchExample | Util.CeilGroupCountIsLeast |
