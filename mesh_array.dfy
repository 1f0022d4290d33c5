/** `SplineMeshArray.CreateArrayMeshTask` (Runtime/SplineMeshArray.cs): the strip of
    `GeneratePlaneAlongToSpline` in the component's array mode, with copies of the mesh
    element bent onto its quads. The component's serialized settings are a value; the
    element's mesh and bounds and the float operations are parameters. */
module SplineMeshArray {
  import opened Geometry
  import opened Arith
  import opened PlaneArray
  import opened ArrayMesh

  /** The settings `CreateArrayMeshTask` reads: the array mode, the `zUp` flag and size
      of the strip, the slide along the quad sides, the skip between copies (an unsigned
      count) and the ranges to fill. */
  datatype Settings = Settings(mode: ArrayMode, zUp: bool, size: Vec3, slideOffset: real,
                               skip: int, range: seq<Vec2>)

  /** The corner stride: a `NO_SPACE` quad starts two vertices after the previous one, a
      `DEFAULT` quad four. */
  function CornerStride(mode: ArrayMode): (stride: int)
    ensures mode == NoSpace ==> stride == 2
    ensures mode == Default ==> stride == 4
  {
    match mode
    case NoSpace => 2
    case Default => 4
  }

  /** What the task places: the strip of the array mode read at the corner stride, the
      element normalised against its bounds, lifted by `size.y` and slid by the slide
      offset. */
  function Placement(s: Settings, points: seq<Vec3>, closed: bool, src: Mesh, lo: Vec3, hi: Vec3, f: FloatOps)
    : (job: Job)
    requires |points| >= 1 || closed
    requires NonFlat(lo, hi) && |src.uvs| >= |src.verts|
    ensures job.Valid()
  {
    Job(PlaneVerts(s.mode, points, closed, s.zUp, s.size.x, f), CornerStride(s.mode),
        BoundsUvsOf(src.verts, lo, hi), src, s.size.y, s.slideOffset, f)
  }

  /** `CreateArrayMeshTask`: one copy of the element per visited quad, range after range.
      An open empty path asks for a negative-length strip, the element's texture
      coordinates are read for every vertex, the skip is cast to a signed step that must
      stay positive, and a range that places anything must start at a non-negative quad
      of a non-empty strip; otherwise the source throws or loops forever. */
  method CreateArrayMeshTask(s: Settings, points: seq<Vec3>, closed: bool, src: Mesh, lo: Vec3, hi: Vec3,
                             f: FloatOps) returns (meshes: seq<Mesh>)
    requires |points| >= 1 || closed
    requires NonFlat(lo, hi) && |src.uvs| >= |src.verts|
    requires 0 <= s.skip < 0x7FFF_FFFF
    requires forall r :: 0 <= r < |s.range| ==>
               RangeRuns(s.range[r], |points|, closed, PlaneLength(s.mode, |points|, closed))
    ensures Placeable(AllQuads(s.range, 0, |points|, closed, 1 + s.skip), PlaneLength(s.mode, |points|, closed))
    ensures meshes == Instances(Placement(s, points, closed, src, lo, hi, f),
                                AllQuads(s.range, 0, |points|, closed, 1 + s.skip))
  {
    var planeVerts, offset, boundsUVs := Prepare(s, points, closed, src, lo, hi, f);
    ghost var job := Job(planeVerts, offset, boundsUVs, src, s.size.y, s.slideOffset, f);
    ghost var planeLength := |planeVerts|;
    var n := |points|;
    var step := 1 + s.skip;
    ghost var all := AllQuads(s.range, 0, n, closed, step);
    AllQuadsRun(s.range, 0, n, closed, step, planeLength);
    ghost var done: seq<int> := [];
    meshes := [];
    var r := 0;
    while r < |s.range|
      invariant 0 <= r <= |s.range|
      invariant done + AllQuads(s.range, r, n, closed, step) == all
      invariant Placeable(done, planeLength)
      invariant meshes == Instances(job, done)
    {
      var start := RangeStart(s.range[r], n);
      var end := RangeLast(s.range[r], n);
      if closed {
        end := end + 1;
      }
      assert RangeRuns(s.range[r], n, closed, planeLength);
      ghost var rest := AllQuads(s.range, r + 1, n, closed, step);
      assert AllQuads(s.range, r, n, closed, step) == RangeQuads(start, end, step) + rest;
      assert Visiting(done, start, end, step, rest, all);
      meshes, done := PlaceRange(planeVerts, offset, src, boundsUVs, s.size.y, s.slideOffset, f,
                                 start, end, step, rest, all, done, meshes);
      r := r + 1;
    }
  }

  /** What the placement loop reads: the strip of the array mode, the stride between
      the first corners of consecutive copies, and the element's vertices normalised
      against its bounds. */
  method Prepare(s: Settings, points: seq<Vec3>, closed: bool, src: Mesh, lo: Vec3, hi: Vec3, f: FloatOps)
    returns (planeVerts: seq<Vec3>, offset: int, boundsUVs: seq<Vec3>)
    requires |points| >= 1 || closed
    requires NonFlat(lo, hi) && |src.uvs| >= |src.verts|
    ensures Job(planeVerts, offset, boundsUVs, src, s.size.y, s.slideOffset, f)
            == Placement(s, points, closed, src, lo, hi, f)
    ensures |planeVerts| == PlaneLength(s.mode, |points|, closed)
    ensures offset >= 0 && |boundsUVs| == |src.verts|
  {
    var planeUVs, planeTris;
    planeVerts, planeUVs, planeTris := GeneratePlaneAlongToSpline(points, closed, s.mode, s.zUp, s.size.x, f);
    match s.mode {
      case NoSpace =>
        offset := 2;
      case Default =>
        offset := 4;
    }
    boundsUVs := BoundsUvs(src.verts, lo, hi);
  }

  /** The placement loop over one range: copies for quads `start`, `start + step`, ...
      below `end`, appended to the copies already made. */
  method PlaceRange(planeVerts: seq<Vec3>, offset: int, src: Mesh, boundsUVs: seq<Vec3>, lift: real, slide: real,
                    f: FloatOps, start: int, end: int, step: int, ghost rest: seq<int>, ghost all: seq<int>,
                    ghost done0: seq<int>, meshes0: seq<Mesh>) returns (meshes: seq<Mesh>, ghost done: seq<int>)
    requires offset >= 0 && |boundsUVs| == |src.verts| <= |src.uvs| && step >= 1
    requires start < end ==> start >= 0 && |planeVerts| >= 1
    requires Visiting(done0, start, end, step, rest, all) && Placeable(done0, |planeVerts|)
    requires meshes0 == Instances(Job(planeVerts, offset, boundsUVs, src, lift, slide, f), done0)
    ensures done + rest == all && Placeable(done, |planeVerts|)
    ensures meshes == Instances(Job(planeVerts, offset, boundsUVs, src, lift, slide, f), done)
  {
    ghost var job := Job(planeVerts, offset, boundsUVs, src, lift, slide, f);
    meshes, done := meshes0, done0;
    var i := start;
    while i < end
      invariant start <= i
      invariant Visiting(done, i, end, step, rest, all)
      invariant Placeable(done, |planeVerts|)
      invariant meshes == Instances(job, done)
      decreases end - i
    {
      var mesh := PlaceCopy(planeVerts, offset, src, boundsUVs, lift, slide, i, f);
      InstancesSnoc(job, done, i);
      AdvanceQuad(done, i, end, step, rest, all);
      meshes := meshes + [mesh];
      done := done + [i];
      i := i + step;
    }
    assert RangeQuads(i, end, step) + rest == rest;
  }

  /** The body of the placement loop for quad `i`: the four corners read by wrapping
      index, each element vertex blended into the quad, lifted along its normal and slid
      along its sides, the texture coordinates and triangles copied. */
  method PlaceCopy(planeVerts: seq<Vec3>, offset: int, src: Mesh, boundsUVs: seq<Vec3>, lift: real, slide: real,
                   i: int, f: FloatOps) returns (mesh: Mesh)
    requires i >= 0 && offset >= 0 && |planeVerts| >= 1 && |boundsUVs| == |src.verts| <= |src.uvs|
    ensures mesh == InstanceMesh(Job(planeVerts, offset, boundsUVs, src, lift, slide, f), i)
  {
    var verts := seq(|src.verts|, _ => Zero);
    var uvs := seq(|verts|, _ => Zero2);
    var lf := planeVerts[Rem(i * offset + 0, |planeVerts|)];
    var rf := planeVerts[Rem(i * offset + 1, |planeVerts|)];
    var lb := planeVerts[Rem(i * offset + 2, |planeVerts|)];
    var rb := planeVerts[Rem(i * offset + 3, |planeVerts|)];
    ghost var q := Corners(lf, rf, lb, rb);
    assert q == InstanceCorners(planeVerts, offset, i);
    var j := 0;
    while j < |src.verts|
      invariant 0 <= j <= |src.verts| && |verts| == |uvs| == |src.verts|
      invariant forall k :: 0 <= k < j ==>
                  verts[k] == Deform(q, boundsUVs[k], src.verts[k].y, lift, slide, f) && uvs[k] == src.uvs[k]
    {
      var u := boundsUVs[j];
      var lerpL := lf.Times(u.z).Plus(lb.Times(1.0 - u.z));
      var lerpR := rf.Times(u.z).Plus(rb.Times(1.0 - u.z));
      var posInPlane := lerpL.Times(u.x).Plus(lerpR.Times(1.0 - u.x));
      var zOffset := f.normalized(Cross(lf.Minus(rb), lb.Minus(rb))).Times(src.verts[j].y);
      var v := posInPlane;
      v := v.Plus(zOffset.Times(lift));
      v := v.Plus(lf.Minus(rf).Times(u.z).Plus(lb.Minus(rb).Times(1.0 - u.z)).Times(slide));
      verts := verts[j := v];
      uvs := uvs[j := src.uvs[j]];
      j := j + 1;
    }
    var tris := CopyTris(src.tris);
    mesh := Mesh(verts, uvs, tris);
    assert verts == InstanceVerts(Job(planeVerts, offset, boundsUVs, src, lift, slide, f), i);
  }

  /** Strip vertex `2 * j + side` of a `NO_SPACE` strip is side `side` of sample `j`. */
  lemma NoSpacePlaneAt(points: seq<Vec3>, closed: bool, zUp: bool, width: real, f: FloatOps, j: int, side: int)
    requires 0 <= j < |points| && 0 <= side < 2
    ensures PlaneVerts(NoSpace, points, closed, zUp, width, f)[2 * j + side]
            == NoSpaceVert(points, closed, zUp, width, f, j, side)
  {
    ModUnique(2 * j + side, 2, j, side);
  }

  /** The back corner `side` of copy `i` on a `NO_SPACE` strip belongs to the next
      sample, wrapping to sample 0 after the last. */
  lemma NoSpaceBackCorner(points: seq<Vec3>, closed: bool, zUp: bool, width: real, f: FloatOps, i: int, side: int)
    requires 0 <= i < |points| && 0 <= side < 2
    ensures var plane := PlaneVerts(NoSpace, points, closed, zUp, width, f);
            plane[CornerIndex(i, 2, 2 + side, |plane|)]
            == NoSpaceVert(points, closed, zUp, width, f, (i + 1) % |points|, side)
  {
    var n := |points|;
    ModSmall(i + 1, n);
    ModSmall(i * 2 + 2 + side, 2 * n);
    if i + 1 < n {
      NoSpacePlaneAt(points, closed, zUp, width, f, i + 1, side);
    } else {
      NoSpacePlaneAt(points, closed, zUp, width, f, 0, side);
    }
  }

  /** On a `NO_SPACE` strip, copy `i` spans sample `i` and the next sample: its front
      corners are the vertex pair of sample `i`, its back corners the pair of sample
      `i + 1`, wrapping to sample 0 after the last. */
  lemma NoSpaceCorners(points: seq<Vec3>, closed: bool, zUp: bool, width: real, f: FloatOps, i: int)
    requires 0 <= i < |points|
    ensures var plane := PlaneVerts(NoSpace, points, closed, zUp, width, f);
            InstanceCorners(plane, 2, i)
            == Corners(NoSpaceVert(points, closed, zUp, width, f, i, 0),
                       NoSpaceVert(points, closed, zUp, width, f, i, 1),
                       NoSpaceVert(points, closed, zUp, width, f, (i + 1) % |points|, 0),
                       NoSpaceVert(points, closed, zUp, width, f, (i + 1) % |points|, 1))
  {
    NoSpacePlaneAt(points, closed, zUp, width, f, i, 0);
    NoSpacePlaneAt(points, closed, zUp, width, f, i, 1);
    NoSpaceBackCorner(points, closed, zUp, width, f, i, 0);
    NoSpaceBackCorner(points, closed, zUp, width, f, i, 1);
  }

  /** Corner `k` of copy `j` on a `DEFAULT` strip is strip vertex `4 * j + k`, corner `k`
      of quad `j`. */
  lemma DefaultPlaneAt(points: seq<Vec3>, closed: bool, zUp: bool, width: real, f: FloatOps, j: int, k: int)
    requires |points| >= 1 || closed
    requires 0 <= j < DefaultQuadCount(|points|, closed) && 0 <= k < 4
    ensures var plane := PlaneVerts(Default, points, closed, zUp, width, f);
            plane[CornerIndex(j, 4, k, |plane|)] == DefaultVert(points, zUp, width, f, j, k)
  {
    var q := DefaultQuadCount(|points|, closed);
    assert j * 4 + k < 4 * q;
    ModUnique(j * 4 + k, 4, j, k);
  }

  /** On a `DEFAULT` strip, copy `i` of the strip's own quads uses exactly the four
      corners of quad `i`. */
  lemma DefaultCorners(points: seq<Vec3>, closed: bool, zUp: bool, width: real, f: FloatOps, i: int)
    requires |points| >= 1 || closed
    requires 0 <= i < DefaultQuadCount(|points|, closed)
    ensures var plane := PlaneVerts(Default, points, closed, zUp, width, f);
            InstanceCorners(plane, 4, i)
            == Corners(DefaultVert(points, zUp, width, f, i, 0), DefaultVert(points, zUp, width, f, i, 1),
                       DefaultVert(points, zUp, width, f, i, 2), DefaultVert(points, zUp, width, f, i, 3))
  {
    DefaultPlaneAt(points, closed, zUp, width, f, i, 0);
    DefaultPlaneAt(points, closed, zUp, width, f, i, 1);
    DefaultPlaneAt(points, closed, zUp, width, f, i, 2);
    DefaultPlaneAt(points, closed, zUp, width, f, i, 3);
  }

  /** With no slide, the copy is bent exactly as `CurveTool.CreateArrayMesh` bends it:
      the point in the quad plus the lift alone. */
  lemma NoSlideIsCurveTool(q: Corners, u: Vec3, y: real, lift: real, f: FloatOps)
    ensures Deform(q, u, y, lift, 0.0, f) == PosInPlane(q, u).Plus(PlaneNormal(q, f).Times(y).Times(lift))
  {
    DeformNoSlide(q, u, y, lift, f);
  }
}
