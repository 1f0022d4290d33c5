/** `CurveTool` (Script/Runtime/CurveTool.cs): the older component that lays a quad strip
    along an evenly resampled path and bends copies of a mesh element onto it. The model
    keeps the fields the two core routines read and write; the mesh element's mesh and
    bounds, and the float operations, are parameters. */
module CurveTool {
  import opened Geometry
  import opened Arith
  import opened PlaneArray
  import opened ArrayMesh

  /** An axis-aligned box given by its corners. */
  datatype Bounds = Bounds(min: Vec3, max: Vec3)

  /** The bounds `CreateArrayMesh` normalises against: the element's bounds with the
      depth axis scaled by the array offset. */
  function ArrayLow(bounds: Bounds, offset: real): Vec3 {
    Vec3(bounds.min.x, bounds.min.y, bounds.min.z * offset)
  }

  function ArrayHigh(bounds: Bounds, offset: real): Vec3 {
    Vec3(bounds.max.x, bounds.max.y, bounds.max.z * offset)
  }

  /** The half-width of the strip: half the element's width, scaled by `scale.x`. */
  function HalfWidth(bounds: Bounds, scale: Vec3): real {
    (bounds.max.x - bounds.min.x) * 0.5 * scale.x
  }

  class CurveTool {
    var points: seq<Vec3>    // m_points, the resampled path
    var zUp: bool            // m_zUp
    var skip: int            // m_skip, an unsigned count of quads skipped between copies
    var offset: real         // m_offset, the depth scale of the element
    var scale: Vec3          // m_scale
    var range: seq<Vec2>     // m_range, fractions of the path to fill
    var quadVerts: seq<Vec3> // m_quadVerts
    var quadUVs: seq<Vec2>   // m_quadUVs
    var quadTris: seq<int>   // m_quadTris

    /** The serialized defaults; the path and the strip are not built yet. */
    constructor ()
      ensures points == [] && zUp && skip == 0 && offset == 1.0 && scale == Vec3(1.0, 1.0, 1.0)
      ensures range == [Zero2] && quadVerts == [] && quadUVs == [] && quadTris == []
    {
      points := [];
      zUp := true;
      skip := 0;
      offset := 1.0;
      scale := Vec3(1.0, 1.0, 1.0);
      range := [Zero2];
      quadVerts := [];
      quadUVs := [];
      quadTris := [];
    }

    /** `UpdateQuadMesh`: the strip is the `NO_SPACE` layout of
        `SplinePlaneArray.GeneratePlaneAlongToSpline` (the same loop, with the offset
        `left * size.x * 0.5 * scale.x`), stored in the three quad fields. An open empty
        path asks for a negative-length triangle array, which throws. */
    method UpdateQuadMesh(path: seq<Vec3>, closed: bool, bounds: Bounds, f: FloatOps)
      requires |path| >= 1 || closed
      modifies this
      ensures points == old(points) && zUp == old(zUp) && skip == old(skip) && offset == old(offset)
      ensures scale == old(scale) && range == old(range)
      ensures NoSpaceLayout(path, closed, zUp, HalfWidth(bounds, scale), f, quadVerts, quadUVs, quadTris)
      ensures quadVerts == PlaneVerts(NoSpace, path, closed, zUp, HalfWidth(bounds, scale), f)
    {
      var boundsSize := bounds.max.Minus(bounds.min);
      var width := boundsSize.x * 0.5 * scale.x;
      assert width == HalfWidth(bounds, scale);
      var verts, uvs, tris := GenerateNoSpace(path, closed, zUp, width, f);
      NoSpaceVerts(path, closed, zUp, width, f, verts, uvs, tris);
      quadVerts, quadUVs, quadTris := verts, uvs, tris;
    }

    /** What `CreateArrayMesh` places: the strip read in steps of two vertices, the
        element normalised against its depth-scaled bounds, lifted by `scale.y`, with no
        slide. */
    function Placement(src: Mesh, bounds: Bounds, f: FloatOps): (job: Job)
      reads this
      requires NonFlat(ArrayLow(bounds, offset), ArrayHigh(bounds, offset)) && |src.uvs| >= |src.verts|
      ensures job.Valid()
    {
      Job(quadVerts, 2, BoundsUvsOf(src.verts, ArrayLow(bounds, offset), ArrayHigh(bounds, offset)),
          src, scale.y, 0.0, f)
    }

    /** `CreateArrayMesh`: one copy of the element per visited quad, range after range.
        The element's texture coordinates are read for every vertex, the skip is cast to
        a signed step that must stay positive, and a range that places anything must
        start at a non-negative quad of a non-empty strip; otherwise the source throws
        or loops forever. */
    method CreateArrayMesh(closed: bool, src: Mesh, bounds: Bounds, f: FloatOps) returns (meshes: seq<Mesh>)
      requires NonFlat(ArrayLow(bounds, offset), ArrayHigh(bounds, offset))
      requires |src.uvs| >= |src.verts|
      requires 0 <= skip < 0x7FFF_FFFF
      requires forall r :: 0 <= r < |range| ==> RangeRuns(range[r], |points|, closed, |quadVerts|)
      ensures Placeable(AllQuads(range, 0, |points|, closed, 1 + skip), |quadVerts|)
      ensures meshes == Instances(Placement(src, bounds, f), AllQuads(range, 0, |points|, closed, 1 + skip))
    {
      var lo := ArrayLow(bounds, offset);
      var hi := ArrayHigh(bounds, offset);
      var boundsUVs := BoundsUvs(src.verts, lo, hi);
      ghost var job := Job(quadVerts, 2, boundsUVs, src, scale.y, 0.0, f);
      assert job == Placement(src, bounds, f);
      ghost var planeLength := |quadVerts|;
      var n := |points|;
      var step := 1 + skip;
      ghost var all := AllQuads(range, 0, n, closed, step);
      AllQuadsRun(range, 0, n, closed, step, planeLength);
      ghost var done: seq<int> := [];
      meshes := [];
      var r := 0;
      while r < |range|
        invariant 0 <= r <= |range|
        invariant done + AllQuads(range, r, n, closed, step) == all
        invariant Placeable(done, planeLength)
        invariant meshes == Instances(job, done)
      {
        var start := RangeStart(range[r], n);
        var end := RangeLast(range[r], n);
        if closed {
          end := end + 1;
        }
        assert RangeRuns(range[r], n, closed, planeLength);
        ghost var rest := AllQuads(range, r + 1, n, closed, step);
        assert AllQuads(range, r, n, closed, step) == RangeQuads(start, end, step) + rest;
        assert Visiting(done, start, end, step, rest, all);
        meshes, done := PlaceRange(src, boundsUVs, f, start, end, step, rest, all, done, meshes);
        r := r + 1;
      }
    }

    /** The placement loop over one range: copies for quads `start`, `start + step`, ...
        below `end`, appended to the copies already made. */
    method PlaceRange(src: Mesh, boundsUVs: seq<Vec3>, f: FloatOps, start: int, end: int, step: int,
                      ghost rest: seq<int>, ghost all: seq<int>, ghost done0: seq<int>, meshes0: seq<Mesh>)
      returns (meshes: seq<Mesh>, ghost done: seq<int>)
      requires |boundsUVs| == |src.verts| <= |src.uvs| && step >= 1
      requires start < end ==> start >= 0 && |quadVerts| >= 1
      requires Visiting(done0, start, end, step, rest, all) && Placeable(done0, |quadVerts|)
      requires meshes0 == Instances(Job(quadVerts, 2, boundsUVs, src, scale.y, 0.0, f), done0)
      ensures done + rest == all && Placeable(done, |quadVerts|)
      ensures meshes == Instances(Job(quadVerts, 2, boundsUVs, src, scale.y, 0.0, f), done)
    {
      ghost var job := Job(quadVerts, 2, boundsUVs, src, scale.y, 0.0, f);
      meshes, done := meshes0, done0;
      var i := start;
      while i < end
        invariant start <= i
        invariant Visiting(done, i, end, step, rest, all)
        invariant Placeable(done, |quadVerts|)
        invariant meshes == Instances(job, done)
        decreases end - i
      {
        var mesh := PlaceCopy(src, boundsUVs, i, f);
        InstancesSnoc(job, done, i);
        AdvanceQuad(done, i, end, step, rest, all);
        meshes := meshes + [mesh];
        done := done + [i];
        i := i + step;
      }
      assert RangeQuads(i, end, step) + rest == rest;
    }

    /** The body of the placement loop for quad `i`: the four corners read by wrapping
        index, each element vertex blended into the quad and lifted along its normal,
        the texture coordinates and triangles copied. */
    method PlaceCopy(src: Mesh, boundsUVs: seq<Vec3>, i: int, f: FloatOps) returns (mesh: Mesh)
      requires i >= 0 && |quadVerts| >= 1 && |boundsUVs| == |src.verts| <= |src.uvs|
      ensures mesh == InstanceMesh(Job(quadVerts, 2, boundsUVs, src, scale.y, 0.0, f), i)
    {
      var verts := seq(|src.verts|, _ => Zero);
      var uvs := seq(|verts|, _ => Zero2);
      var lf := quadVerts[Rem(i * 2 + 0, |quadVerts|)];
      var rf := quadVerts[Rem(i * 2 + 1, |quadVerts|)];
      var lb := quadVerts[Rem(i * 2 + 2, |quadVerts|)];
      var rb := quadVerts[Rem(i * 2 + 3, |quadVerts|)];
      ghost var q := Corners(lf, rf, lb, rb);
      assert q == InstanceCorners(quadVerts, 2, i);
      var j := 0;
      while j < |src.verts|
        invariant 0 <= j <= |src.verts| && |verts| == |uvs| == |src.verts|
        invariant forall k :: 0 <= k < j ==>
                    verts[k] == Deform(q, boundsUVs[k], src.verts[k].y, scale.y, 0.0, f) && uvs[k] == src.uvs[k]
      {
        var u := boundsUVs[j];
        var lerpL := lf.Times(u.z).Plus(lb.Times(1.0 - u.z));
        var lerpR := rf.Times(u.z).Plus(rb.Times(1.0 - u.z));
        var posInPlane := lerpL.Times(u.x).Plus(lerpR.Times(1.0 - u.x));
        var zOffset := f.normalized(Cross(lf.Minus(rb), lb.Minus(rb))).Times(src.verts[j].y);
        DeformNoSlide(q, u, src.verts[j].y, scale.y, f);
        verts := verts[j := posInPlane.Plus(zOffset.Times(scale.y))];
        uvs := uvs[j := src.uvs[j]];
        j := j + 1;
      }
      var tris := CopyTris(src.tris);
      mesh := Mesh(verts, uvs, tris);
      assert verts == InstanceVerts(Job(quadVerts, 2, boundsUVs, src, scale.y, 0.0, f), i);
    }
  }
}
