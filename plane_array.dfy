/** `SplinePlaneArray.GeneratePlaneAlongToSpline` (Runtime/SplinePlaneArray.cs): a flat
    strip of quads along a list of sampled curve points, as vertex, texture-coordinate and
    triangle-index arrays. `NO_SPACE` shares the two vertices of each sample between
    neighbouring quads; `DEFAULT` gives every quad its own four vertices. The component's
    `zUp` flag and the half-width (`size.x`) are parameters. */
module PlaneArray {
  import opened Geometry
  import opened Arith

  datatype ArrayMode = Default | NoSpace

  /** Element `k` of block `i` of a flat array of blocks of `stride` elements. */
  function Slot(stride: int, i: int, k: int): int {
    stride * i + k
  }

  /** The vertex offsets of a quad's two triangles: `(0, 2, 1)` and `(1, 2, 3)`. */
  function QuadCorner(j: int): (c: int)
    requires 0 <= j < 6
    ensures 0 <= c < 4
  {
    if j == 0 then 0 else if j == 1 || j == 4 then 2 else if j == 5 then 3 else 1
  }

  /** The sideways offset of a vertex pair: the forward direction turned a quarter turn
      about the vertical axis (`(-z, y, x)`, with `y` dropped when `zUp`), scaled by
      the half-width. */
  function SideOffset(forward: Vec3, zUp: bool, width: real): (o: Vec3)
    ensures zUp ==> o.y == 0.0
  {
    Vec3(-forward.z, if zUp then 0.0 else forward.y, forward.x).Times(width)
  }

  /** The texture `v` of sample `i` of `n`: `1 - |2 * i / n - 1|`, a tent that is 0 at both
      ends and 1 in the middle. */
  function CompletionV(n: int, i: int): real
    requires n >= 1
  {
    1.0 - Abs(2.0 * ((i as real) / (n as real)) - 1.0)
  }

  lemma CompletionVBounds(n: int, i: int)
    requires n >= 1 && 0 <= i <= n
    ensures 0.0 <= CompletionV(n, i) <= 1.0
    ensures CompletionV(n, i) == CompletionV(n, n - i)
    ensures CompletionV(n, 0) == 0.0
    ensures 2 * i == n ==> CompletionV(n, i) == 1.0
  {
    RatioInUnit(n, i);
    RatioComplement(n, i);
    if 2 * i == n {
      RatioHalf(n, i);
    }
  }

  /** A sample index over the sample count lies in `[0, 1]`. */
  lemma RatioInUnit(n: int, i: int)
    requires n >= 1 && 0 <= i <= n
    ensures 0.0 <= (i as real) / (n as real) <= 1.0
  {
  }

  /** Counting from the other end mirrors the ratio: `(n - i) / n == 1 - i / n`. */
  lemma RatioComplement(n: int, i: int)
    requires n >= 1
    ensures ((n - i) as real) / (n as real) == 1.0 - (i as real) / (n as real)
  {
    var c, p := n as real, (i as real) / (n as real);
    assert p * c == i as real;
    DivideOut((n - i) as real, 1.0 - p, c);
  }

  lemma DivideOut(x: real, y: real, c: real)
    requires c != 0.0 && x == y * c
    ensures x / c == y
  {
  }

  /** The middle sample sits at ratio one half. */
  lemma RatioHalf(n: int, i: int)
    requires n >= 1 && 2 * i == n
    ensures (i as real) / (n as real) == 0.5
  {
    assert (i as real) == 0.5 * (n as real);
  }

  // ------------------------------------------------------------- NO_SPACE

  /** The number of quads `NO_SPACE` allocates index room for: one per gap, plus two on a
      closed path. */
  function NoSpaceQuadSlots(n: int, closed: bool): int {
    (n - 1) + (if closed then 2 else 0)
  }

  /** Sample `i` writes a quad towards the next sample when there is one. */
  predicate HasQuad(n: int, closed: bool, i: int) {
    i < n - 1 || closed
  }

  /** The direction of sample `i`: the sum of the chord to the next sample and the chord
      from the previous one, each where it exists, normalised. */
  function SampleForward(points: seq<Vec3>, closed: bool, i: int, f: FloatOps): Vec3
    requires 0 <= i < |points|
  {
    var n := |points|;
    var ahead := if HasQuad(n, closed, i) then Zero.Plus(points[(i + 1) % n].Minus(points[i])) else Zero;
    var both := if i > 0 || closed then ahead.Plus(points[i].Minus(points[(i - 1 + n) % n])) else ahead;
    f.normalized(both)
  }

  /** Vertex `2i + side` of `NO_SPACE`: sample `i` pushed to its left (`side == 0`) or
      right. */
  function NoSpaceVert(points: seq<Vec3>, closed: bool, zUp: bool, width: real, f: FloatOps, i: int, side: int): Vec3
    requires 0 <= i < |points|
  {
    var off := SideOffset(SampleForward(points, closed, i, f), zUp, width);
    if side == 0 then points[i].Plus(off) else points[i].Minus(off)
  }

  /** Triangle index `6i + j` of `NO_SPACE`: the slots of a sample with a quad point at its
      own pair and the next pair, wrapping on the vertex count; the rest stay 0. */
  function NoSpaceTri(n: int, closed: bool, i: int, j: int): int
    requires n >= 0 && 0 <= i && 0 <= j < 6
  {
    if i < n && HasQuad(n, closed, i) then (2 * i + QuadCorner(j)) % (2 * n) else 0
  }

  /** Texture coordinate `2i + side` of `NO_SPACE`. */
  function NoSpaceUv(n: int, i: int, side: int): Vec2
    requires n >= 1
  {
    Vec2(if side == 0 then 0.0 else 1.0, CompletionV(n, i))
  }

  /** The sideways offset of sample `i`: the chords to its neighbours summed,
      normalised, turned left and scaled by the half-width. */
  method SampleOffset(points: seq<Vec3>, closed: bool, zUp: bool, width: real, f: FloatOps, i: int)
    returns (offset: Vec3)
    requires 0 <= i < |points|
    ensures offset == SideOffset(SampleForward(points, closed, i, f), zUp, width)
  {
    var n := |points|;
    var forward := Zero;
    if i < n - 1 || closed {
      forward := forward.Plus(points[(i + 1) % n].Minus(points[i]));
    }
    if i > 0 || closed {
      forward := forward.Plus(points[i].Minus(points[(i - 1 + n) % n]));
    }
    forward := f.normalized(forward);
    var left := Vec3(-forward.z, if zUp then 0.0 else forward.y, forward.x);
    offset := left.Times(width);
  }

  /** The arrays `NO_SPACE` produces: a vertex pair and a texture pair per sample, and
      six triangle slots per quad slot. */
  predicate NoSpaceLayout(points: seq<Vec3>, closed: bool, zUp: bool, width: real, f: FloatOps,
                          verts: seq<Vec3>, uvs: seq<Vec2>, tris: seq<int>)
    requires |points| >= 1 || closed
  {
    && |verts| == 2 * |points| && |uvs| == 2 * |points|
    && |tris| == 6 * NoSpaceQuadSlots(|points|, closed)
    && (forall i, side :: 0 <= i < |points| && 0 <= side < 2 ==>
          verts[Slot(2, i, side)] == NoSpaceVert(points, closed, zUp, width, f, i, side)
          && uvs[Slot(2, i, side)] == NoSpaceUv(|points|, i, side))
    && (forall i, j :: 0 <= i < NoSpaceQuadSlots(|points|, closed) && 0 <= j < 6 ==>
          tris[Slot(6, i, j)] == NoSpaceTri(|points|, closed, i, j))
  }

  /** The `NO_SPACE` branch. An open empty path asks for an array of negative length,
      which throws, so a path is either non-empty or closed. */
  method GenerateNoSpace(points: seq<Vec3>, closed: bool, zUp: bool, width: real, f: FloatOps)
    returns (verts: seq<Vec3>, uvs: seq<Vec2>, tris: seq<int>)
    requires |points| >= 1 || closed
    ensures |verts| == 2 * |points| && |uvs| == 2 * |points|
    ensures |tris| == 6 * NoSpaceQuadSlots(|points|, closed)
    ensures forall i, side :: 0 <= i < |points| && 0 <= side < 2 ==>
              verts[Slot(2, i, side)] == NoSpaceVert(points, closed, zUp, width, f, i, side)
              && uvs[Slot(2, i, side)] == NoSpaceUv(|points|, i, side)
    ensures forall i, j :: 0 <= i < NoSpaceQuadSlots(|points|, closed) && 0 <= j < 6 ==>
              tris[Slot(6, i, j)] == NoSpaceTri(|points|, closed, i, j)
  {
    var n := |points|;
    verts := seq(2 * n, _ => Zero);
    uvs := seq(|verts|, _ => Zero2);
    var numTris := (n - 1) + (if closed then 2 else 0);
    tris := seq(2 * numTris * 3, _ => 0);
    var vertIndex := 0;
    var triIndex := 0;
    var i := 0;
    while i < n
      invariant 0 <= i <= n && vertIndex == 2 * i && triIndex == 6 * i
      invariant |verts| == |uvs| == 2 * n && |tris| == 6 * numTris
      invariant forall i', side :: 0 <= i' < i && 0 <= side < 2 ==>
                  verts[Slot(2, i', side)] == NoSpaceVert(points, closed, zUp, width, f, i', side)
                  && uvs[Slot(2, i', side)] == NoSpaceUv(n, i', side)
      invariant forall i', j :: 0 <= i' < numTris && 0 <= j < 6 ==>
                  tris[Slot(6, i', j)] == if i' < i then NoSpaceTri(n, closed, i', j) else 0
    {
      ghost var verts0, uvs0, tris0 := verts, uvs, tris;
      var offset := SampleOffset(points, closed, zUp, width, f, i);
      verts := verts[vertIndex + 0 := points[i].Plus(offset)];
      verts := verts[vertIndex + 1 := points[i].Minus(offset)];
      if i < n - 1 || closed {
        tris := tris[triIndex + 0 := (vertIndex + 0) % |verts|];
        tris := tris[triIndex + 1 := (vertIndex + 2) % |verts|];
        tris := tris[triIndex + 2 := (vertIndex + 1) % |verts|];
        tris := tris[triIndex + 3 := (vertIndex + 1) % |verts|];
        tris := tris[triIndex + 4 := (vertIndex + 2) % |verts|];
        tris := tris[triIndex + 5 := (vertIndex + 3) % |verts|];
      }
      var v := 1.0 - Abs(2.0 * ((i as real) / (n as real)) - 1.0);
      uvs := uvs[vertIndex + 0 := Vec2(0.0, v)];
      uvs := uvs[vertIndex + 1 := Vec2(1.0, v)];
      NoSpacePairStep(points, closed, zUp, width, f, i, vertIndex, verts0, verts, uvs0, uvs);
      NoSpaceTrisStep(n, closed, i, vertIndex, triIndex, |verts|, tris0, tris);
      vertIndex := vertIndex + 2;
      triIndex := triIndex + 6;
      i := i + 1;
    }
  }

  /** One sample of `NO_SPACE` fills its own vertex pair and texture pair and leaves the
      pairs before it as they were. */
  lemma NoSpacePairStep(points: seq<Vec3>, closed: bool, zUp: bool, width: real, f: FloatOps, i: int,
                        vertIndex: int, verts0: seq<Vec3>, verts: seq<Vec3>, uvs0: seq<Vec2>, uvs: seq<Vec2>)
    requires 0 <= i < |points| && vertIndex == 2 * i && |verts0| == |uvs0| == 2 * |points|
    requires forall i', side :: 0 <= i' < i && 0 <= side < 2 ==>
               verts0[Slot(2, i', side)] == NoSpaceVert(points, closed, zUp, width, f, i', side)
               && uvs0[Slot(2, i', side)] == NoSpaceUv(|points|, i', side)
    requires verts == verts0[vertIndex + 0 := NoSpaceVert(points, closed, zUp, width, f, i, 0)]
                            [vertIndex + 1 := NoSpaceVert(points, closed, zUp, width, f, i, 1)]
    requires uvs == uvs0[vertIndex + 0 := NoSpaceUv(|points|, i, 0)][vertIndex + 1 := NoSpaceUv(|points|, i, 1)]
    ensures |verts| == |uvs| == 2 * |points|
    ensures forall i', side :: 0 <= i' < i + 1 && 0 <= side < 2 ==>
              verts[Slot(2, i', side)] == NoSpaceVert(points, closed, zUp, width, f, i', side)
              && uvs[Slot(2, i', side)] == NoSpaceUv(|points|, i', side)
  {
  }

  /** One sample of `NO_SPACE` fills its six triangle slots when it has a quad, and the
      slots after it stay 0. */
  lemma NoSpaceTrisStep(n: int, closed: bool, i: int, vertIndex: int, triIndex: int, count: int,
                        tris0: seq<int>, tris: seq<int>)
    requires 0 <= i < n && vertIndex == 2 * i && triIndex == 6 * i && count == 2 * n
    requires |tris0| == 6 * NoSpaceQuadSlots(n, closed)
    requires forall i', j :: 0 <= i' < NoSpaceQuadSlots(n, closed) && 0 <= j < 6 ==>
               tris0[Slot(6, i', j)] == if i' < i then NoSpaceTri(n, closed, i', j) else 0
    requires tris == if HasQuad(n, closed, i) then
                       tris0[triIndex + 0 := (vertIndex + 0) % count][triIndex + 1 := (vertIndex + 2) % count]
                            [triIndex + 2 := (vertIndex + 1) % count][triIndex + 3 := (vertIndex + 1) % count]
                            [triIndex + 4 := (vertIndex + 2) % count][triIndex + 5 := (vertIndex + 3) % count]
                     else tris0
    ensures |tris| == |tris0|
    ensures forall i', j :: 0 <= i' < NoSpaceQuadSlots(n, closed) && 0 <= j < 6 ==>
              tris[Slot(6, i', j)] == if i' < i + 1 then NoSpaceTri(n, closed, i', j) else 0
  {
  }


  /** The two vertices of a sample lie symmetrically about it, level with it when `zUp`. */
  lemma NoSpacePairSymmetric(points: seq<Vec3>, closed: bool, zUp: bool, width: real, f: FloatOps, i: int)
    requires 0 <= i < |points|
    ensures Midpoint(NoSpaceVert(points, closed, zUp, width, f, i, 0),
                     NoSpaceVert(points, closed, zUp, width, f, i, 1)) == points[i]
    ensures zUp ==> (NoSpaceVert(points, closed, zUp, width, f, i, 0).y == points[i].y
                     && NoSpaceVert(points, closed, zUp, width, f, i, 1).y == points[i].y)
  {
  }

  /** Every triangle index names a vertex. */
  lemma NoSpaceTriInRange(n: int, closed: bool, i: int, j: int)
    requires n >= 1 && 0 <= i && 0 <= j < 6
    ensures 0 <= NoSpaceTri(n, closed, i, j) < 2 * n
  {
  }

  /** Quad `i` joins the vertex pair of sample `i` to the pair of the next sample, the
      first one again after the last on a closed path. */
  lemma NoSpaceQuadJoins(n: int, closed: bool, i: int, j: int)
    requires n >= 1 && 0 <= i < n && HasQuad(n, closed, i) && 0 <= j < 6
    ensures var c := QuadCorner(j);
            NoSpaceTri(n, closed, i, j) == if c < 2 then 2 * i + c else 2 * ((i + 1) % n) + (c - 2)
  {
    var c := QuadCorner(j);
    ModSmall(2 * i + c, 2 * n);
    ModSmall(i + 1, n);
  }

  /** An open path writes a quad after every sample but the last and so fills all of its
      index slots; a closed path writes one quad per sample, and its last slot is never
      written, so it stays the degenerate pair of triangles `(0, 0, 0)`. */
  lemma NoSpaceUnwrittenSlots(n: int, closed: bool, i: int, j: int)
    requires n >= 1 && 0 <= i < NoSpaceQuadSlots(n, closed) && 0 <= j < 6
    ensures i < n && HasQuad(n, closed, i) <==> !closed || i < n
    ensures closed && i == n ==> NoSpaceTri(n, closed, i, j) == 0
  {
  }

  // --------------------------------------------------------------- DEFAULT

  /** The number of quads `DEFAULT` draws: one per gap, and one more across the seam of a
      closed path. */
  function DefaultQuadCount(n: int, closed: bool): int {
    n + (if closed then 0 else -1)
  }

  /** The direction of quad `i`: its chord, normalised. */
  function QuadForward(points: seq<Vec3>, i: int, f: FloatOps): Vec3
    requires 0 <= i < |points|
  {
    f.normalized(points[(i + 1) % |points|].Minus(points[i]))
  }

  /** Vertex `4i + c` of `DEFAULT`: corner `c` of quad `i`, its near pair (`c < 2`)
      around the quad's sample and its far pair around the next one, both offset along
      the quad's own direction. */
  function DefaultVert(points: seq<Vec3>, zUp: bool, width: real, f: FloatOps, i: int, c: int): Vec3
    requires 0 <= i < |points|
  {
    var base := if c < 2 then points[i] else points[(i + 1) % |points|];
    var off := SideOffset(QuadForward(points, i, f), zUp, width);
    if c % 2 == 0 then base.Plus(off) else base.Minus(off)
  }

  /** Triangle index `6i + j` of `DEFAULT`. */
  function DefaultTri(quads: int, i: int, j: int): int
    requires quads >= 1 && 0 <= j < 6
  {
    (4 * i + QuadCorner(j)) % (4 * quads)
  }

  /** The texture coordinates `DEFAULT` leaves behind: the near pair of quad `i` keeps
      only its second assignment, made with sample `(i + 1) % quads`; the far pair is
      never assigned. */
  function DefaultUv(n: int, quads: int, i: int, c: int): Vec2
    requires n >= 1 && quads >= 1
  {
    if c < 2 then Vec2(if c == 0 then 0.0 else 1.0, CompletionV(n, (i + 1) % quads))
    else Zero2
  }

  /** The sideways offset of quad `i`: its own chord, normalised, turned left and
      scaled by the half-width. */
  method QuadOffset(points: seq<Vec3>, zUp: bool, width: real, f: FloatOps, i: int) returns (offset: Vec3)
    requires 0 <= i < |points|
    ensures offset == SideOffset(QuadForward(points, i, f), zUp, width)
  {
    var n := |points|;
    var forward := points[(i + 1) % n].Minus(points[i]);
    forward := f.normalized(forward);
    var left := Vec3(-forward.z, if zUp then 0.0 else forward.y, forward.x);
    offset := left.Times(width);
  }

  /** The arrays `DEFAULT` produces: four vertices, four texture coordinates and six
      triangle indices per quad. */
  predicate DefaultLayout(points: seq<Vec3>, closed: bool, zUp: bool, width: real, f: FloatOps,
                          verts: seq<Vec3>, uvs: seq<Vec2>, tris: seq<int>)
    requires |points| >= 1 || closed
  {
    && |verts| == 4 * DefaultQuadCount(|points|, closed) && |uvs| == |verts|
    && |tris| == 6 * DefaultQuadCount(|points|, closed)
    && (forall i, c :: 0 <= i < DefaultQuadCount(|points|, closed) && 0 <= c < 4 ==>
          verts[Slot(4, i, c)] == DefaultVert(points, zUp, width, f, i, c)
          && uvs[Slot(4, i, c)] == DefaultUv(|points|, DefaultQuadCount(|points|, closed), i, c))
    && (forall i, j :: 0 <= i < DefaultQuadCount(|points|, closed) && 0 <= j < 6 ==>
          tris[Slot(6, i, j)] == DefaultTri(DefaultQuadCount(|points|, closed), i, j))
  }

  /** The `DEFAULT` branch. */
  method GenerateDefault(points: seq<Vec3>, closed: bool, zUp: bool, width: real, f: FloatOps)
    returns (verts: seq<Vec3>, uvs: seq<Vec2>, tris: seq<int>)
    requires |points| >= 1 || closed
    ensures DefaultLayout(points, closed, zUp, width, f, verts, uvs, tris)
  {
    var n := |points|;
    var numArray := n + (if closed then 0 else -1);
    verts := seq(numArray * 4, _ => Zero);
    uvs := seq(|verts|, _ => Zero2);
    tris := seq(2 * numArray * 3, _ => 0);
    var vertIndex := 0;
    var triIndex := 0;
    var i := 0;
    while i < numArray
      invariant 0 <= i <= numArray && vertIndex == 4 * i && triIndex == 6 * i
      invariant |verts| == |uvs| == 4 * numArray && |tris| == 6 * numArray
      invariant forall i', c :: 0 <= i' < i && 0 <= c < 4 ==>
                  verts[Slot(4, i', c)] == DefaultVert(points, zUp, width, f, i', c)
      invariant forall i', c :: 0 <= i' < i && 0 <= c < 4 ==> uvs[Slot(4, i', c)] == DefaultUv(n, numArray, i', c)
      invariant forall k :: vertIndex <= k < |uvs| ==> uvs[k] == Zero2
      invariant forall i', j :: 0 <= i' < i && 0 <= j < 6 ==> tris[Slot(6, i', j)] == DefaultTri(numArray, i', j)
    {
      ghost var verts0, uvs0, tris0 := verts, uvs, tris;
      var offset := QuadOffset(points, zUp, width, f, i);
      verts := verts[vertIndex + 0 := points[i].Plus(offset)];
      verts := verts[vertIndex + 1 := points[i].Minus(offset)];
      verts := verts[vertIndex + 2 := points[(i + 1) % n].Plus(offset)];
      verts := verts[vertIndex + 3 := points[(i + 1) % n].Minus(offset)];
      if i < n - 1 || closed {
        tris := tris[triIndex + 0 := (vertIndex + 0) % |verts|];
        tris := tris[triIndex + 1 := (vertIndex + 2) % |verts|];
        tris := tris[triIndex + 2 := (vertIndex + 1) % |verts|];
        tris := tris[triIndex + 3 := (vertIndex + 1) % |verts|];
        tris := tris[triIndex + 4 := (vertIndex + 2) % |verts|];
        tris := tris[triIndex + 5 := (vertIndex + 3) % |verts|];
      } else {
        assert false;
      }
      var v := 1.0 - Abs(2.0 * ((i as real) / (n as real)) - 1.0);
      ghost var first0, first1 := Vec2(0.0, v), Vec2(1.0, v);
      uvs := uvs[vertIndex + 0 := Vec2(0.0, v)];
      uvs := uvs[vertIndex + 1 := Vec2(1.0, v)];
      v := 1.0 - Abs(2.0 * ((((i + 1) % numArray) as real) / (n as real)) - 1.0);
      assert v == CompletionV(n, (i + 1) % numArray);
      uvs := uvs[vertIndex + 0 := Vec2(0.0, v)];
      uvs := uvs[vertIndex + 1 := Vec2(1.0, v)];
      DefaultVertsStep(points, zUp, width, f, numArray, i, vertIndex, verts0, verts);
      DefaultUvsStep(n, numArray, i, vertIndex, first0, first1, uvs0, uvs);
      DefaultTrisStep(numArray, i, vertIndex, triIndex, |verts|, tris0, tris);
      vertIndex := vertIndex + 4;
      triIndex := triIndex + 6;
      i := i + 1;
    }
  }

  /** One quad of `DEFAULT` fills its own four vertices and leaves the quads before it
      as they were. */
  lemma DefaultVertsStep(points: seq<Vec3>, zUp: bool, width: real, f: FloatOps, quads: int, i: int,
                         vertIndex: int, verts0: seq<Vec3>, verts: seq<Vec3>)
    requires 0 <= i < quads && quads <= |points| && vertIndex == 4 * i && |verts0| == 4 * quads
    requires forall i', c :: 0 <= i' < i && 0 <= c < 4 ==>
               verts0[Slot(4, i', c)] == DefaultVert(points, zUp, width, f, i', c)
    requires verts == verts0[vertIndex + 0 := DefaultVert(points, zUp, width, f, i, 0)]
                            [vertIndex + 1 := DefaultVert(points, zUp, width, f, i, 1)]
                            [vertIndex + 2 := DefaultVert(points, zUp, width, f, i, 2)]
                            [vertIndex + 3 := DefaultVert(points, zUp, width, f, i, 3)]
    ensures |verts| == 4 * quads
    ensures forall i', c :: 0 <= i' < i + 1 && 0 <= c < 4 ==>
              verts[Slot(4, i', c)] == DefaultVert(points, zUp, width, f, i', c)
  {
  }

  /** One quad of `DEFAULT` overwrites its near texture pair and leaves its far pair,
      like every later slot, at zero. */
  lemma DefaultUvsStep(n: int, quads: int, i: int, vertIndex: int, first0: Vec2, first1: Vec2,
                       uvs0: seq<Vec2>, uvs: seq<Vec2>)
    requires n >= 1 && 0 <= i < quads && vertIndex == 4 * i && |uvs0| == 4 * quads
    requires forall i', c :: 0 <= i' < i && 0 <= c < 4 ==> uvs0[Slot(4, i', c)] == DefaultUv(n, quads, i', c)
    requires forall k :: vertIndex <= k < |uvs0| ==> uvs0[k] == Zero2
    requires uvs == uvs0[vertIndex + 0 := first0][vertIndex + 1 := first1]
                        [vertIndex + 0 := DefaultUv(n, quads, i, 0)][vertIndex + 1 := DefaultUv(n, quads, i, 1)]
    ensures |uvs| == 4 * quads
    ensures forall i', c :: 0 <= i' < i + 1 && 0 <= c < 4 ==> uvs[Slot(4, i', c)] == DefaultUv(n, quads, i', c)
    ensures forall k :: vertIndex + 4 <= k < |uvs| ==> uvs[k] == Zero2
  {
  }

  /** One quad of `DEFAULT` fills its six triangle slots. */
  lemma DefaultTrisStep(quads: int, i: int, vertIndex: int, triIndex: int, count: int,
                        tris0: seq<int>, tris: seq<int>)
    requires 0 <= i < quads && vertIndex == 4 * i && triIndex == 6 * i && count == 4 * quads
    requires |tris0| == 6 * quads
    requires forall i', j :: 0 <= i' < i && 0 <= j < 6 ==> tris0[Slot(6, i', j)] == DefaultTri(quads, i', j)
    requires tris == tris0[triIndex + 0 := (vertIndex + 0) % count][triIndex + 1 := (vertIndex + 2) % count]
                          [triIndex + 2 := (vertIndex + 1) % count][triIndex + 3 := (vertIndex + 1) % count]
                          [triIndex + 4 := (vertIndex + 2) % count][triIndex + 5 := (vertIndex + 3) % count]
    ensures |tris| == 6 * quads
    ensures forall i', j :: 0 <= i' < i + 1 && 0 <= j < 6 ==> tris[Slot(6, i', j)] == DefaultTri(quads, i', j)
  {
  }


  /** Each pair of a quad lies symmetrically about its sample, and the quad is a
      parallelogram: both long edges run parallel to the chord between the samples. */
  lemma DefaultQuadShape(points: seq<Vec3>, zUp: bool, width: real, f: FloatOps, i: int)
    requires 0 <= i < |points|
    ensures Midpoint(DefaultVert(points, zUp, width, f, i, 0),
                     DefaultVert(points, zUp, width, f, i, 1)) == points[i]
    ensures Midpoint(DefaultVert(points, zUp, width, f, i, 2),
                     DefaultVert(points, zUp, width, f, i, 3)) == points[(i + 1) % |points|]
    ensures DefaultVert(points, zUp, width, f, i, 2).Minus(DefaultVert(points, zUp, width, f, i, 0))
            == points[(i + 1) % |points|].Minus(points[i])
    ensures DefaultVert(points, zUp, width, f, i, 3).Minus(DefaultVert(points, zUp, width, f, i, 1))
            == points[(i + 1) % |points|].Minus(points[i])
  {
  }

  /** Quad `i`'s triangles use only its own four vertices, so no vertex is shared between
      quads. */
  lemma DefaultTriLocal(quads: int, i: int, j: int)
    requires 0 <= i < quads && 0 <= j < 6
    ensures 4 * i <= DefaultTri(quads, i, j) < 4 * i + 4
  {
    ModSmall(4 * i + QuadCorner(j), 4 * quads);
  }

  /** The first quad's near edge carries the texture row of sample 1, not sample 0, and the
      last quad of a closed path wraps to row 0; the far edges are left at the origin. */
  lemma DefaultUvRows(n: int, quads: int, i: int)
    requires n >= 1 && quads >= 1 && 0 <= i < quads
    ensures DefaultUv(n, quads, i, 0).y == DefaultUv(n, quads, i, 1).y == CompletionV(n, (i + 1) % quads)
    ensures i == quads - 1 ==> DefaultUv(n, quads, i, 0).y == 0.0
    ensures DefaultUv(n, quads, i, 2) == Zero2 && DefaultUv(n, quads, i, 3) == Zero2
  {
    ModSmall(i + 1, quads);
  }

  // ------------------------------------------------------------ dispatch

  /** The strip vertices of either layout as one sequence: vertex `k` is slot `k % 2`
      of sample `k / 2` (`NO_SPACE`) or corner `k % 4` of quad `k / 4` (`DEFAULT`). */
  function PlaneVerts(mode: ArrayMode, points: seq<Vec3>, closed: bool, zUp: bool, width: real, f: FloatOps)
    : (v: seq<Vec3>)
    requires |points| >= 1 || closed
    ensures |v| == PlaneLength(mode, |points|, closed)
  {
    match mode
    case NoSpace =>
      seq(2 * |points|, k requires 0 <= k < 2 * |points| =>
        NoSpaceVert(points, closed, zUp, width, f, k / 2, k % 2))
    case Default =>
      seq(4 * DefaultQuadCount(|points|, closed), k requires 0 <= k < 4 * DefaultQuadCount(|points|, closed) =>
        DefaultVert(points, zUp, width, f, k / 4, k % 4))
  }

  /** The number of strip vertices a layout has. */
  function PlaneLength(mode: ArrayMode, n: int, closed: bool): int {
    if mode == NoSpace then 2 * n else 4 * DefaultQuadCount(n, closed)
  }

  /** The slot-by-slot `NO_SPACE` layout determines the whole vertex array. */
  lemma NoSpaceVerts(points: seq<Vec3>, closed: bool, zUp: bool, width: real, f: FloatOps,
                     verts: seq<Vec3>, uvs: seq<Vec2>, tris: seq<int>)
    requires |points| >= 1 || closed
    requires NoSpaceLayout(points, closed, zUp, width, f, verts, uvs, tris)
    ensures verts == PlaneVerts(NoSpace, points, closed, zUp, width, f)
  {
    var v := PlaneVerts(NoSpace, points, closed, zUp, width, f);
    forall k | 0 <= k < |verts|
      ensures verts[k] == v[k]
    {
      assert k == Slot(2, k / 2, k % 2);
      assert verts[Slot(2, k / 2, k % 2)] == NoSpaceVert(points, closed, zUp, width, f, k / 2, k % 2);
    }
  }

  /** The slot-by-slot `DEFAULT` layout determines the whole vertex array. */
  lemma DefaultVerts(points: seq<Vec3>, closed: bool, zUp: bool, width: real, f: FloatOps,
                     verts: seq<Vec3>, uvs: seq<Vec2>, tris: seq<int>)
    requires |points| >= 1 || closed
    requires DefaultLayout(points, closed, zUp, width, f, verts, uvs, tris)
    ensures verts == PlaneVerts(Default, points, closed, zUp, width, f)
  {
    var v := PlaneVerts(Default, points, closed, zUp, width, f);
    forall k | 0 <= k < |verts|
      ensures verts[k] == v[k]
    {
      assert k == Slot(4, k / 4, k % 4);
      assert verts[Slot(4, k / 4, k % 4)] == DefaultVert(points, zUp, width, f, k / 4, k % 4);
    }
  }

  /** `GeneratePlaneAlongToSpline`: the layout the array mode selects. */
  method GeneratePlaneAlongToSpline(points: seq<Vec3>, closed: bool, mode: ArrayMode, zUp: bool, width: real, f: FloatOps)
    returns (verts: seq<Vec3>, uvs: seq<Vec2>, tris: seq<int>)
    requires |points| >= 1 || closed
    ensures mode == NoSpace ==> NoSpaceLayout(points, closed, zUp, width, f, verts, uvs, tris)
    ensures mode == Default ==> DefaultLayout(points, closed, zUp, width, f, verts, uvs, tris)
    ensures verts == PlaneVerts(mode, points, closed, zUp, width, f)
  {
    match mode {
      case NoSpace =>
        verts, uvs, tris := GenerateNoSpace(points, closed, zUp, width, f);
        NoSpaceVerts(points, closed, zUp, width, f, verts, uvs, tris);
      case Default =>
        verts, uvs, tris := GenerateDefault(points, closed, zUp, width, f);
        DefaultVerts(points, closed, zUp, width, f, verts, uvs, tris);
    }
  }
}
