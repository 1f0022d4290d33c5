/** The array-mesh placement shared by `CurveTool.CreateArrayMesh`
    (Script/Runtime/CurveTool.cs) and `SplineMeshArray.CreateArrayMeshTask`
    (Runtime/SplineMeshArray.cs): copies of a source mesh are bent onto consecutive quads
    of a plane strip. Every source vertex is first normalised against the mesh bounds;
    instance `i` then reads four corners of the strip by wrapping index, blends them
    bilinearly by the normalised `x` and `z`, lifts the result along the quad's normal by
    the vertex height, and may slide it along the quad's side edges. The instances are
    emitted range by range, every `1 + skip` quads. */
module ArrayMesh {
  import opened Geometry
  import opened Arith

  /** A mesh as its vertex, texture-coordinate and triangle-index arrays. */
  datatype Mesh = Mesh(verts: seq<Vec3>, uvs: seq<Vec2>, tris: seq<int>)

  /** The four plane corners an instance is bent onto: left and right at the front
      (`z == 1`) and at the back (`z == 0`). */
  datatype Corners = Corners(lf: Vec3, rf: Vec3, lb: Vec3, rb: Vec3)

  // ------------------------------------------------------------- bounds normalisation

  /** The bounds span every axis; a flat axis would divide by zero. */
  predicate NonFlat(lo: Vec3, hi: Vec3) {
    hi.x != lo.x && hi.y != lo.y && hi.z != lo.z
  }

  /** The bounds coordinates of `v`: each axis mapped affinely so that `lo` goes to 0 and
      `hi` to 1. */
  function BoundsUv(v: Vec3, lo: Vec3, hi: Vec3): Vec3
    requires NonFlat(lo, hi)
  {
    Vec3((v.x - lo.x) / (hi.x - lo.x), (v.y - lo.y) / (hi.y - lo.y), (v.z - lo.z) / (hi.z - lo.z))
  }

  /** The bounds coordinates of every source vertex. */
  function BoundsUvsOf(verts: seq<Vec3>, lo: Vec3, hi: Vec3): (u: seq<Vec3>)
    requires NonFlat(lo, hi)
    ensures |u| == |verts|
  {
    seq(|verts|, i requires 0 <= i < |verts| => BoundsUv(verts[i], lo, hi))
  }

  /** The loop that fills `boundsUVs`. */
  method BoundsUvs(verts: seq<Vec3>, lo: Vec3, hi: Vec3) returns (u: seq<Vec3>)
    requires NonFlat(lo, hi)
    ensures u == BoundsUvsOf(verts, lo, hi)
  {
    u := seq(|verts|, _ => Zero);
    var i := 0;
    while i < |verts|
      invariant 0 <= i <= |verts| && |u| == |verts|
      invariant forall k :: 0 <= k < i ==> u[k] == BoundsUv(verts[k], lo, hi)
    {
      var v := verts[i];
      var x := (v.x - lo.x) / (hi.x - lo.x);
      var y := (v.y - lo.y) / (hi.y - lo.y);
      var z := (v.z - lo.z) / (hi.z - lo.z);
      u := u[i := Vec3(x, y, z)];
      i := i + 1;
    }
  }

  /** One axis of the normalisation is undone by scaling back and adding the minimum,
      sends the minimum to 0 and the maximum to 1, and sends `[lo, hi]` into `[0, 1]`. */
  lemma NormaliseAxis(v: real, lo: real, hi: real)
    requires lo < hi
    ensures (v - lo) / (hi - lo) * (hi - lo) + lo == v
    ensures (lo - lo) / (hi - lo) == 0.0 && (hi - lo) / (hi - lo) == 1.0
    ensures lo <= v <= hi ==> 0.0 <= (v - lo) / (hi - lo) <= 1.0
  {
    var d := hi - lo;
    var u := (v - lo) / d;
    DivScaleBack(v - lo, d);
    DivScaleBack(d, d);
    if lo <= v <= hi {
      UnitFactor(u, d, v - lo);
    }
  }

  /** Dividing by `d` and scaling back by `d` gives the value again. */
  lemma DivScaleBack(a: real, d: real)
    requires d != 0.0
    ensures a / d * d == a && (a == d ==> a / d == 1.0)
  {
  }

  /** A factor that scales a positive `d` to a value in `[0, d]` lies in `[0, 1]`. */
  lemma UnitFactor(u: real, d: real, a: real)
    requires d > 0.0 && u * d == a && 0.0 <= a <= d
    ensures 0.0 <= u <= 1.0
  {
    assert (1.0 - u) * d == d - a;
  }

  /** The bounds coordinates determine the vertex again, the bounds' corners go to 0 and
      1, and a vertex inside the bounds gets coordinates in `[0, 1]`. */
  lemma BoundsUvInverse(v: Vec3, lo: Vec3, hi: Vec3)
    requires lo.x < hi.x && lo.y < hi.y && lo.z < hi.z
    ensures var u := BoundsUv(v, lo, hi);
            Vec3(u.x * (hi.x - lo.x) + lo.x, u.y * (hi.y - lo.y) + lo.y, u.z * (hi.z - lo.z) + lo.z) == v
    ensures BoundsUv(lo, lo, hi) == Zero && BoundsUv(hi, lo, hi) == Vec3(1.0, 1.0, 1.0)
    ensures lo.x <= v.x <= hi.x && lo.z <= v.z <= hi.z ==>
              0.0 <= BoundsUv(v, lo, hi).x <= 1.0 && 0.0 <= BoundsUv(v, lo, hi).z <= 1.0
  {
    NormaliseAxis(v.x, lo.x, hi.x);
    NormaliseAxis(v.y, lo.y, hi.y);
    NormaliseAxis(v.z, lo.z, hi.z);
    assert BoundsUv(hi, lo, hi) == Vec3(1.0, 1.0, 1.0) by {
      NormaliseAxis(hi.x, lo.x, hi.x);
      NormaliseAxis(hi.y, lo.y, hi.y);
      NormaliseAxis(hi.z, lo.z, hi.z);
    }
  }

  // ------------------------------------------------------------- deformation

  /** The point of the quad at bounds coordinates `u`: the left edge and the right edge
      blended by `u.z` (front weight), then the two blended by `u.x` (left weight). */
  function PosInPlane(q: Corners, u: Vec3): Vec3 {
    var lerpL := q.lf.Times(u.z).Plus(q.lb.Times(1.0 - u.z));
    var lerpR := q.rf.Times(u.z).Plus(q.rb.Times(1.0 - u.z));
    lerpL.Times(u.x).Plus(lerpR.Times(1.0 - u.x))
  }

  /** The unit normal of the quad, from the two edges that meet at the right-back corner. */
  function PlaneNormal(q: Corners, f: FloatOps): Vec3 {
    f.normalized(Cross(q.lf.Minus(q.rb), q.lb.Minus(q.rb)))
  }

  /** The side edge of the quad at depth `u.z`, from right to left, blended between the
      front edge and the back edge. */
  function Lateral(q: Corners, u: Vec3): Vec3 {
    q.lf.Minus(q.rf).Times(u.z).Plus(q.lb.Minus(q.rb).Times(1.0 - u.z))
  }

  /** A deformed vertex: its place in the quad, lifted along the normal by its height `y`
      times `lift`, and moved along the side edge by `slide`. */
  function Deform(q: Corners, u: Vec3, y: real, lift: real, slide: real, f: FloatOps): Vec3 {
    PosInPlane(q, u).Plus(PlaneNormal(q, f).Times(y).Times(lift)).Plus(Lateral(q, u).Times(slide))
  }

  /** The four corners of the bounds coordinates land on the four corners of the quad. */
  lemma PosInPlaneCorners(q: Corners, y: real)
    ensures PosInPlane(q, Vec3(1.0, y, 1.0)) == q.lf
    ensures PosInPlane(q, Vec3(0.0, y, 1.0)) == q.rf
    ensures PosInPlane(q, Vec3(1.0, y, 0.0)) == q.lb
    ensures PosInPlane(q, Vec3(0.0, y, 0.0)) == q.rb
  {
  }

  /** A vertex at height 0 with no slide stays on the quad, so a bounds corner lands on the
      matching quad corner. */
  lemma DeformFlatCorner(q: Corners, y: real, lift: real, f: FloatOps)
    ensures Deform(q, Vec3(1.0, y, 1.0), 0.0, lift, 0.0, f) == q.lf
    ensures Deform(q, Vec3(0.0, y, 0.0), 0.0, lift, 0.0, f) == q.rb
  {
    PosInPlaneCorners(q, y);
  }

  /** Raising a vertex by `dy` moves its image along the normal by `dy * lift` and nothing
      else. */
  lemma DeformLift(q: Corners, u: Vec3, y: real, dy: real, lift: real, slide: real, f: FloatOps)
    ensures Deform(q, u, y + dy, lift, slide, f).Minus(Deform(q, u, y, lift, slide, f))
            == PlaneNormal(q, f).Times(dy * lift)
  {
    var n := PlaneNormal(q, f);
    LiftDiff(n.x, y, dy, lift);
    LiftDiff(n.y, y, dy, lift);
    LiftDiff(n.z, y, dy, lift);
  }

  /** One coordinate of `DeformLift`. */
  lemma LiftDiff(a: real, y: real, dy: real, lift: real)
    ensures a * (y + dy) * lift - a * y * lift == a * (dy * lift)
  {
  }

  /** With no slide the deformed vertex is the point in the quad plus the lift alone. */
  lemma DeformNoSlide(q: Corners, u: Vec3, y: real, lift: real, f: FloatOps)
    ensures Deform(q, u, y, lift, 0.0, f) == PosInPlane(q, u).Plus(PlaneNormal(q, f).Times(y).Times(lift))
  {
  }

  /** At the front of the quad the slide runs along the front edge, at the back along
      the back edge. */
  lemma SlideAlongEdges(q: Corners, x: real, y: real)
    ensures Lateral(q, Vec3(x, y, 1.0)) == q.lf.Minus(q.rf)
    ensures Lateral(q, Vec3(x, y, 0.0)) == q.lb.Minus(q.rb)
  {
  }

  // ------------------------------------------------------------- corner lookup

  /** `(i * stride + k) % length`, C#'s remainder. */
  function CornerIndex(i: int, stride: int, k: int, length: int): (c: int)
    requires i >= 0 && stride >= 0 && 0 <= k < 4 && length >= 1
    ensures 0 <= c < length
    ensures i * stride + k < length ==> c == i * stride + k
  {
    ModSmall(i * stride + k, length);
    Rem(i * stride + k, length)
  }

  /** The corners of instance `i`: the strip vertices `i * stride + 0 .. 3`, wrapped. */
  function InstanceCorners(plane: seq<Vec3>, stride: int, i: int): Corners
    requires i >= 0 && stride >= 0 && |plane| >= 1
  {
    Corners(plane[CornerIndex(i, stride, 0, |plane|)], plane[CornerIndex(i, stride, 1, |plane|)],
            plane[CornerIndex(i, stride, 2, |plane|)], plane[CornerIndex(i, stride, 3, |plane|)])
  }

  // ------------------------------------------------------------- instances

  /** Everything one placement run shares: the strip vertices, the corner stride, the
      normalised source vertices, the source mesh, the lift factor, the slide and the
      float operations. */
  datatype Job = Job(plane: seq<Vec3>, stride: int, boundsUvs: seq<Vec3>, src: Mesh,
                     lift: real, slide: real, f: FloatOps)
  {
    /** The source has a texture coordinate for every vertex, and the strip is read with
        a non-negative stride. */
    predicate Valid() {
      stride >= 0 && |boundsUvs| == |src.verts| && |src.uvs| >= |src.verts|
    }
  }

  /** The vertices of instance `i`. */
  function InstanceVerts(job: Job, i: int): (v: seq<Vec3>)
    requires job.Valid() && i >= 0 && |job.plane| >= 1
    ensures |v| == |job.src.verts|
  {
    var q := InstanceCorners(job.plane, job.stride, i);
    seq(|job.src.verts|, j requires 0 <= j < |job.src.verts| =>
      Deform(q, job.boundsUvs[j], job.src.verts[j].y, job.lift, job.slide, job.f))
  }

  /** Instance `i`: the deformed vertices, with the source's texture coordinates and
      triangles copied unchanged. */
  function InstanceMesh(job: Job, i: int): Mesh
    requires job.Valid() && i >= 0 && |job.plane| >= 1
  {
    Mesh(InstanceVerts(job, i), job.src.uvs[..|job.src.verts|], job.src.tris)
  }

  /** The loop that copies the source triangles. */
  method CopyTris(src: seq<int>) returns (tris: seq<int>)
    ensures tris == src
  {
    tris := seq(|src|, _ => 0);
    var j := 0;
    while j < |src|
      invariant 0 <= j <= |src| && |tris| == |src|
      invariant forall k :: 0 <= k < j ==> tris[k] == src[k]
    {
      tris := tris[j := src[j]];
      j := j + 1;
    }
  }

  // ------------------------------------------------------------- ranges

  /** The first quad of a range: `(int)(range.x * (n - 1))`. */
  function RangeStart(range: Vec2, n: int): int {
    TruncToInt(range.x * ((n - 1) as real))
  }

  /** The last quad of a range as written: `(int)(range.y * (n - 1))`. */
  function RangeLast(range: Vec2, n: int): int {
    TruncToInt(range.y * ((n - 1) as real))
  }

  /** The end of a range: one past its last quad on a closed path. */
  function RangeEnd(range: Vec2, n: int, closed: bool): int {
    RangeLast(range, n) + (if closed then 1 else 0)
  }

  /** A range the source can run: when it places anything it starts at a non-negative
      quad and the strip has vertices; otherwise the corner lookup throws. */
  predicate RangeRuns(range: Vec2, n: int, closed: bool, planeLength: int) {
    RangeStart(range, n) < RangeEnd(range, n, closed) ==> RangeStart(range, n) >= 0 && planeLength >= 1
  }

  /** The quads a range visits: `i, i + step, ...` while below `end`. */
  function RangeQuads(i: int, end: int, step: int): (r: seq<int>)
    requires step >= 1
    ensures i < end <==> |r| > 0
    decreases end - i
  {
    if i < end then [i] + RangeQuads(i + step, end, step) else []
  }

  /** Visit `k` of a range is the quad `i + k * step`, and it lies in `[i, end)`. */
  lemma {:induction false} RangeQuadsAt(i: int, end: int, step: int, k: int)
    requires step >= 1 && 0 <= k < |RangeQuads(i, end, step)|
    ensures RangeQuads(i, end, step)[k] == i + k * step
    ensures i <= i + k * step < end
    decreases k
  {
    if k > 0 {
      RangeQuadsAt(i + step, end, step, k - 1);
      assert (i + step) + (k - 1) * step == i + k * step;
    }
  }

  /** A range stops only once the next quad would reach its end: no quad below the end
      on the stride is left out. */
  lemma {:induction false} RangeQuadsCover(i: int, end: int, step: int)
    requires step >= 1
    ensures i < end ==> i + |RangeQuads(i, end, step)| * step >= end
    decreases end - i
  {
    if i < end {
      RangeQuadsCover(i + step, end, step);
      var rest := RangeQuads(i + step, end, step);
      assert i + (1 + |rest|) * step == (i + step) + |rest| * step;
    }
  }

  /** The quads of ranges `r ..`, range after range. */
  function AllQuads(ranges: seq<Vec2>, r: int, n: int, closed: bool, step: int): seq<int>
    requires step >= 1 && 0 <= r <= |ranges|
    decreases |ranges| - r
  {
    if r == |ranges| then []
    else RangeQuads(RangeStart(ranges[r], n), RangeEnd(ranges[r], n, closed), step)
         + AllQuads(ranges, r + 1, n, closed, step)
  }

  /** Part way through a range: the quads done, then the rest of the range from `i`,
      then the later ranges, make up every quad of the run. */
  ghost predicate Visiting(done: seq<int>, i: int, end: int, step: int, rest: seq<int>, all: seq<int>)
    requires step >= 1
  {
    done + (RangeQuads(i, end, step) + rest) == all
  }

  /** Emitting quad `i` moves it from the quads still to visit to the quads done. */
  lemma AdvanceQuad(done: seq<int>, i: int, end: int, step: int, rest: seq<int>, all: seq<int>)
    requires step >= 1 && i < end
    requires Visiting(done, i, end, step, rest, all)
    ensures Visiting(done + [i], i + step, end, step, rest, all)
  {
    var later := RangeQuads(i + step, end, step);
    assert RangeQuads(i, end, step) == [i] + later;
    MoveHead(done, i, later, rest);
  }

  /** Moving the head of the middle part onto the end of the first part. */
  lemma MoveHead(done: seq<int>, i: int, later: seq<int>, rest: seq<int>)
    ensures done + (([i] + later) + rest) == (done + [i]) + (later + rest)
  {
    assert ([i] + later) + rest == [i] + (later + rest);
  }

  /** Every quad of a range lies at or after its start. */
  lemma {:induction false} RangeQuadsFrom(i: int, end: int, step: int)
    requires step >= 1
    ensures forall q :: q in RangeQuads(i, end, step) ==> q >= i
    decreases end - i
  {
    if i < end {
      RangeQuadsFrom(i + step, end, step);
    }
  }

  /** When every range runs, every visited quad is a valid instance index. */
  lemma {:induction false} AllQuadsRun(ranges: seq<Vec2>, r: int, n: int, closed: bool, step: int, planeLength: int)
    requires step >= 1 && 0 <= r <= |ranges|
    requires forall k :: r <= k < |ranges| ==> RangeRuns(ranges[k], n, closed, planeLength)
    ensures Placeable(AllQuads(ranges, r, n, closed, step), planeLength)
    decreases |ranges| - r
  {
    if r < |ranges| {
      assert RangeRuns(ranges[r], n, closed, planeLength);
      RangeQuadsFrom(RangeStart(ranges[r], n), RangeEnd(ranges[r], n, closed), step);
      AllQuadsRun(ranges, r + 1, n, closed, step, planeLength);
      var all := AllQuads(ranges, r, n, closed, step);
      forall k | 0 <= k < |all|
        ensures all[k] >= 0 && planeLength >= 1
      {
        assert all[k] in all;
      }
    }
  }

  /** Quads that the strip can serve. */
  predicate Placeable(quads: seq<int>, planeLength: int) {
    forall k :: 0 <= k < |quads| ==> quads[k] >= 0 && planeLength >= 1
  }

  /** The instances placed on `quads`, in order. */
  function Instances(job: Job, quads: seq<int>): (r: seq<Mesh>)
    requires job.Valid() && Placeable(quads, |job.plane|)
    ensures |r| == |quads|
  {
    seq(|quads|, k requires 0 <= k < |quads| => InstanceMesh(job, quads[k]))
  }

  /** Emitting one more instance extends the list by that instance. */
  lemma InstancesSnoc(job: Job, quads: seq<int>, i: int)
    requires job.Valid() && Placeable(quads, |job.plane|) && i >= 0 && |job.plane| >= 1
    ensures Placeable(quads + [i], |job.plane|)
    ensures Instances(job, quads + [i]) == Instances(job, quads) + [InstanceMesh(job, i)]
  {
    assert Placeable(quads + [i], |job.plane|);
    var a, b := Instances(job, quads + [i]), Instances(job, quads) + [InstanceMesh(job, i)];
    assert forall k :: 0 <= k < |a| ==> a[k] == b[k];
  }

  /** Every emitted instance has exactly the source's vertex count, and the source's
      texture coordinates and triangles. */
  predicate ShapedLike(m: Mesh, src: Mesh) {
    |m.verts| == |src.verts| <= |src.uvs| && m.uvs == src.uvs[..|src.verts|] && m.tris == src.tris
  }

  lemma InstancesShape(job: Job, quads: seq<int>)
    requires job.Valid() && Placeable(quads, |job.plane|)
    ensures forall k :: 0 <= k < |quads| ==> ShapedLike(Instances(job, quads)[k], job.src)
  {
  }
}
