/** The control polygon of a piecewise cubic Bezier spline: a list of points in which
    every index `i` with `i % 3 == 0` is an on-curve anchor and the others are the
    handles between anchors. The functions here are the list surgery that both
    `Spline` (Runtime/Spline.cs) and its earlier revision `Path`
    (Script/Runtime/Path.cs) perform in place; the classes in those modules are
    proved to leave their point list equal to these functions of the old list. */
module ControlPolygon {
  import opened Geometry
  import Arith

  // ---------------------------------------------------------------------------
  // Shape of the list

  /** `LoopIndex(i) => (i + Count) % Count` for `i + Count >= 0`, where C#'s remainder
      is an index into the list; written by repeated subtraction so that the solver does
      not meet a remainder by a variable (`LoopIndexIsRem` ties it to the remainder). */
  function LoopIndex(n: int, i: int): (r: int)
    requires n > 0 && i + n >= 0
    ensures 0 <= r < n
    ensures -n <= i < 0 ==> r == i + n
    ensures 0 <= i < n ==> r == i
    ensures n <= i < 2 * n ==> r == i - n
    decreases i + n
  {
    if i < 0 then i + n else if i < n then i else LoopIndex(n, i - n)
  }

  /** `LoopIndex` is C#'s `(i + n) % n`. */
  lemma {:induction false} LoopIndexIsRem(n: int, i: int)
    requires n > 0 && i + n >= 0
    ensures LoopIndex(n, i) == Arith.Rem(i + n, n)
    decreases i + n
  {
    if i >= n {
      LoopIndexIsRem(n, i - n);
      Arith.ModAddDivisor(i, n);
    } else {
      Arith.ModSmall(i + n, n);
    }
  }

  /** The shape a list keeps between edits: `3k` points when closed (the last two are
      the handles of the wrap-around segment) and `3k + 1` when open. */
  predicate WellFormed(pts: seq<Vec3>, closed: bool) {
    if closed then |pts| % 3 == 0 else |pts| % 3 == 1
  }

  /** `numSegments => m_points.Count / 3`. */
  function SegmentCount(pts: seq<Vec3>): nat { |pts| / 3 }

  /** The on-curve points, in order: every third point from index 0. */
  function Anchors(pts: seq<Vec3>): (r: seq<Vec3>)
    ensures |r| == (|pts| + 2) / 3
    ensures forall j :: 0 <= j < |r| ==> 3 * j < |pts| && r[j] == pts[3 * j]
  {
    seq((|pts| + 2) / 3, j requires 0 <= j < (|pts| + 2) / 3 => pts[3 * j])
  }

  /** On a well-formed list the integer-division segment count agrees with the
      topology: `points/3` segments when closed, `(points-1)/3` when open, one
      segment per anchor of a closed loop and one fewer than the anchors of an open
      one. */
  lemma SegmentCountByTopology(pts: seq<Vec3>, closed: bool)
    requires WellFormed(pts, closed)
    ensures SegmentCount(pts) == if closed then |pts| / 3 else (|pts| - 1) / 3
    ensures |Anchors(pts)| == if closed then SegmentCount(pts) else SegmentCount(pts) + 1
  {
  }

  /** `GetPointInSegment(i)`: the four control points of segment `i`. */
  function SegmentPoints(pts: seq<Vec3>, s: int): (r: seq<Vec3>)
    requires 0 <= s && 3 * s + 2 < |pts|
    ensures |r| == 4
    ensures r[0] == pts[3 * s] && r[1] == pts[3 * s + 1] && r[2] == pts[3 * s + 2]
    ensures 3 * s + 3 < |pts| ==> r[3] == pts[3 * s + 3]
    ensures 3 * s + 3 == |pts| ==> r[3] == pts[0]
  {
    [pts[3 * s], pts[3 * s + 1], pts[3 * s + 2], pts[LoopIndex(|pts|, 3 * s + 3)]]
  }

  /** Segment `s` runs from anchor `s` to anchor `s + 1`; the last segment of a closed
      list runs back to anchor 0. */
  lemma {:induction false} SegmentJoinsAnchors(pts: seq<Vec3>, closed: bool, s: int)
    requires WellFormed(pts, closed) && 0 <= s < SegmentCount(pts)
    ensures |Anchors(pts)| > 0
    ensures SegmentPoints(pts, s)[0] == Anchors(pts)[s]
    ensures SegmentPoints(pts, s)[3] == Anchors(pts)[(s + 1) % |Anchors(pts)|]
  {
    var n := |pts|;
    var k := |Anchors(pts)|;
    assert n == 3 * (n / 3) + n % 3;
    if closed {
      assert k == n / 3;
    } else {
      assert k == n / 3 + 1;
    }
    Arith.ModSmall(s + 1, k);
    if s + 1 < k {
      assert Anchors(pts)[s + 1] == pts[3 * (s + 1)];
    }
  }

  // ---------------------------------------------------------------------------
  // Adding, splitting and deleting segments

  /** `AddSegment(anchorPos)` before any auto-smoothing: the handle that continues the
      last tangent, the midpoint of that handle and the new anchor, then the anchor. */
  function AppendSegment(pts: seq<Vec3>, anchor: Vec3): (r: seq<Vec3>)
    requires |pts| >= 2
    ensures |r| == |pts| + 3
  {
    var p1 := pts + [Extrapolate(pts[|pts| - 1], pts[|pts| - 2])];
    var p2 := p1 + [Midpoint(p1[|p1| - 1], anchor)];
    p2 + [anchor]
  }

  /** The appended segment: the old points unchanged, then the handle continuing the last
      tangent, the midpoint of that handle and the new anchor, then the anchor. */
  lemma AppendSegmentContents(pts: seq<Vec3>, anchor: Vec3)
    requires |pts| >= 2
    ensures AppendSegment(pts, anchor)[..|pts|] == pts
    ensures AppendSegment(pts, anchor)[|pts|] == Extrapolate(pts[|pts| - 1], pts[|pts| - 2])
    ensures AppendSegment(pts, anchor)[|pts| + 1] == Midpoint(AppendSegment(pts, anchor)[|pts|], anchor)
    ensures AppendSegment(pts, anchor)[|pts| + 2] == anchor
  {
  }

  /** `InsertRange(segmentIndex * 3 + 2, { zero, anchorPos, zero })`. */
  function InsertSegment(pts: seq<Vec3>, anchor: Vec3, s: int): (r: seq<Vec3>)
    requires 0 <= 3 * s + 2 <= |pts|
    ensures |r| == |pts| + 3
  {
    pts[..3 * s + 2] + [Zero, anchor, Zero] + pts[3 * s + 2..]
  }

  /** The inserted segment: the points before slot `3s + 2` unchanged, then a zero handle,
      the anchor and a zero handle, then the rest of the old points. */
  lemma InsertSegmentContents(pts: seq<Vec3>, anchor: Vec3, s: int)
    requires 0 <= 3 * s + 2 <= |pts|
    ensures InsertSegment(pts, anchor, s)[..3 * s + 2] == pts[..3 * s + 2]
    ensures InsertSegment(pts, anchor, s)[3 * s + 2] == Zero
    ensures InsertSegment(pts, anchor, s)[3 * s + 3] == anchor
    ensures InsertSegment(pts, anchor, s)[3 * s + 4] == Zero
    ensures InsertSegment(pts, anchor, s)[3 * s + 5..] == pts[3 * s + 2..]
  {
  }

  /** The minimum-size guard of `DeleteSegment`: more than two segments, or an open
      list with more than one. */
  predicate DeleteGuard(n: int, closed: bool) {
    n / 3 > 2 || (!closed && n / 3 > 1)
  }

  /** When the guard passes, `RemoveRange` is given an index inside the list. */
  predicate DeleteOk(n: int, closed: bool, a: int) {
    DeleteGuard(n, closed) ==> a == 0 || (a == n - 1 && !closed) || 1 <= a <= n - 2
  }

  /** `DeleteSegment(anchorIndex)` before any auto-smoothing. */
  function RemoveSegment(pts: seq<Vec3>, closed: bool, a: int): (r: seq<Vec3>)
    requires DeleteOk(|pts|, closed, a)
    ensures !DeleteGuard(|pts|, closed) ==> r == pts
    ensures DeleteGuard(|pts|, closed) && a == 0 && !closed ==> r == pts
    ensures DeleteGuard(|pts|, closed) && a == 0 && closed ==>
      |r| == |pts| - 3 && r[..|pts| - 4] == pts[3..|pts| - 1] && r[|pts| - 4] == pts[2]
    ensures DeleteGuard(|pts|, closed) && a != 0 && a == |pts| - 1 && !closed ==>
      r == pts[..|pts| - 3]
    ensures DeleteGuard(|pts|, closed) && a != 0 && !(a == |pts| - 1 && !closed) ==>
      |r| == |pts| - 3 && r[..a - 1] == pts[..a - 1] && r[a - 1..] == pts[a + 2..]
  {
    var n := |pts|;
    if !DeleteGuard(n, closed) then pts
    else if a == 0 then
      if closed then pts[n - 1 := pts[2]][3..] else pts
    else if a == n - 1 && !closed then pts[..a - 2] + pts[a + 1..]
    else pts[..a - 1] + pts[a + 2..]
  }

  // ---------------------------------------------------------------------------
  // Opening and closing

  /** Closing an open list: the handle continuing the end, then the handle
      continuing the start backwards. */
  function CloseSeam(pts: seq<Vec3>): (r: seq<Vec3>)
    requires |pts| >= 2
    ensures |r| == |pts| + 2 && r[..|pts|] == pts
    ensures r[|pts|] == Extrapolate(pts[|pts| - 1], pts[|pts| - 2])
    ensures r[|pts| + 1] == Extrapolate(pts[0], pts[1])
  {
    var p1 := pts + [Extrapolate(pts[|pts| - 1], pts[|pts| - 2])];
    p1 + [Extrapolate(p1[0], p1[1])]
  }

  /** Opening a closed list: `RemoveRange(Count - 2, 2)`. */
  function OpenSeam(pts: seq<Vec3>): (r: seq<Vec3>)
    requires |pts| >= 2
    ensures |r| == |pts| - 2 && r == pts[..|pts| - 2]
  {
    pts[..|pts| - 2]
  }

  /** Opening undoes closing. */
  lemma {:induction false} OpenSeamUndoesCloseSeam(pts: seq<Vec3>)
    requires |pts| >= 2
    ensures OpenSeam(CloseSeam(pts)) == pts
  {
    var c := CloseSeam(pts);
    assert c[..|c| - 2] == c[..|pts|];
  }

  /** Closing and opening keep the triple grouping: an open `3k + 1` list closes to a
      `3k + 3` list and a closed `3k` list (k >= 1) opens to a `3k - 2` one. */
  lemma SeamKeepsWellFormed(pts: seq<Vec3>)
    requires |pts| >= 2
    ensures WellFormed(pts, false) ==> WellFormed(CloseSeam(pts), true)
    ensures WellFormed(pts, true) ==> WellFormed(OpenSeam(pts), false)
  {
  }

  // ---------------------------------------------------------------------------
  // Automatic placement of handles

  /** `AutoSetAnchorControlPoints(a)` reads and writes only indices inside the list. */
  predicate AnchorOk(n: int, closed: bool, a: int) {
    0 <= a < n && (closed ==> a + n >= 3)
  }

  /** Whether a neighbouring index is used: it lies in the list, or the list wraps. */
  predicate Reaches(n: int, closed: bool, i: int) {
    (i > -1 && i < n) || closed
  }

  /** The slot a handle write at list index `c` lands in, or -1 when it is skipped. */
  function ControlSlot(n: int, closed: bool, c: int): int
    requires n > 0 && c + n >= 0
  {
    if Reaches(n, closed, c) then LoopIndex(n, c) else -1
  }

  /** The unit-ish direction shared by both handles of anchor `a`: the normalised
      difference of the directions to the previous and to the next anchor. */
  function ControlDirection(pts: seq<Vec3>, closed: bool, a: int, f: FloatOps): Vec3
    requires AnchorOk(|pts|, closed, a)
  {
    var n := |pts|;
    var anchorPos := pts[a];
    var dir0 := if a - 3 > -1 || closed
      then Zero.Plus(f.normalized(pts[LoopIndex(n, a - 3)].Minus(anchorPos))) else Zero;
    var dir1 := if a + 3 < n || closed
      then dir0.Minus(f.normalized(pts[LoopIndex(n, a + 3)].Minus(anchorPos))) else dir0;
    f.normalized(dir1)
  }

  /** `neighbourDistance[0]`: the distance to the previous anchor, or 0 when there is none. */
  function PrevDistance(pts: seq<Vec3>, closed: bool, a: int, f: FloatOps): real
    requires AnchorOk(|pts|, closed, a)
  {
    if a - 3 > -1 || closed then f.magnitude(pts[LoopIndex(|pts|, a - 3)].Minus(pts[a])) else 0.0
  }

  /** `neighbourDistance[1]`: minus the distance to the next anchor, or 0. */
  function NextDistance(pts: seq<Vec3>, closed: bool, a: int, f: FloatOps): real
    requires AnchorOk(|pts|, closed, a)
  {
    if a + 3 < |pts| || closed then -f.magnitude(pts[LoopIndex(|pts|, a + 3)].Minus(pts[a])) else 0.0
  }

  /** One handle write of the `for (i < 2)` loop. */
  function PlaceControl(pts: seq<Vec3>, closed: bool, c: int, v: Vec3): (r: seq<Vec3>)
    requires |pts| > 0 && c + |pts| >= 0
    ensures |r| == |pts|
    ensures Reaches(|pts|, closed, c) ==> r[LoopIndex(|pts|, c)] == v
  {
    if Reaches(|pts|, closed, c) then pts[LoopIndex(|pts|, c) := v] else pts
  }

  /** A handle write leaves every other slot alone. */
  lemma PlaceControlKeeps(pts: seq<Vec3>, closed: bool, c: int, v: Vec3, j: int)
    requires |pts| > 0 && c + |pts| >= 0
    requires 0 <= j < |pts| && j != ControlSlot(|pts|, closed, c)
    ensures PlaceControl(pts, closed, c, v)[j] == pts[j]
  {
  }

  /** `AutoSetAnchorControlPoints(a)`: both handles of anchor `a` are put on one line
      through the anchor, each at half the distance to its neighbouring anchor. */
  function AutoSetAnchor(pts: seq<Vec3>, closed: bool, a: int, f: FloatOps): (r: seq<Vec3>)
    requires AnchorOk(|pts|, closed, a)
    ensures |r| == |pts|
  {
    var anchorPos := pts[a];
    var dir := ControlDirection(pts, closed, a, f);
    var r0 := PlaceControl(pts, closed, a - 1, anchorPos.Plus(dir.Times(PrevDistance(pts, closed, a, f)).Times(0.5)));
    PlaceControl(r0, closed, a + 1, anchorPos.Plus(dir.Times(NextDistance(pts, closed, a, f)).Times(0.5)))
  }

  /** Smoothing anchor `a` writes its two handle slots and no other. */
  lemma {:induction false} AutoSetAnchorKeeps(pts: seq<Vec3>, closed: bool, a: int, f: FloatOps, j: int)
    requires AnchorOk(|pts|, closed, a)
    requires 0 <= j < |pts| && j != ControlSlot(|pts|, closed, a - 1) && j != ControlSlot(|pts|, closed, a + 1)
    ensures AutoSetAnchor(pts, closed, a, f)[j] == pts[j]
  {
    var anchorPos := pts[a];
    var dir := ControlDirection(pts, closed, a, f);
    var v0 := anchorPos.Plus(dir.Times(PrevDistance(pts, closed, a, f)).Times(0.5));
    var r0 := PlaceControl(pts, closed, a - 1, v0);
    PlaceControlKeeps(pts, closed, a - 1, v0, j);
    PlaceControlKeeps(r0, closed, a + 1, anchorPos.Plus(dir.Times(NextDistance(pts, closed, a, f)).Times(0.5)), j);
  }

  /** The handles set by `AutoSetAnchor` are `anchor + dir * d / 2` for one shared
      direction `dir`: half the distance to the previous anchor on one side and minus
      half the distance to the next anchor on the other, so both lie on one line
      through the anchor, which does not move. */
  lemma {:induction false} AutoSetAnchorPlacesHandles(pts: seq<Vec3>, closed: bool, a: int, f: FloatOps)
    requires AnchorOk(|pts|, closed, a) && |pts| >= 3
    ensures var r := AutoSetAnchor(pts, closed, a, f);
      var dir := ControlDirection(pts, closed, a, f);
      && r[a] == pts[a]
      && (Reaches(|pts|, closed, a + 1) ==>
            r[LoopIndex(|pts|, a + 1)] == pts[a].Plus(dir.Times(NextDistance(pts, closed, a, f)).Times(0.5)))
      && (Reaches(|pts|, closed, a - 1) && LoopIndex(|pts|, a - 1) != LoopIndex(|pts|, a + 1) ==>
            r[LoopIndex(|pts|, a - 1)] == pts[a].Plus(dir.Times(PrevDistance(pts, closed, a, f)).Times(0.5)))
  {
    var n := |pts|;
    assert ControlSlot(n, closed, a - 1) != a;
    assert ControlSlot(n, closed, a + 1) != a;
    AutoSetAnchorKeeps(pts, closed, a, f, a);
    if Reaches(n, closed, a - 1) && LoopIndex(n, a - 1) != LoopIndex(n, a + 1) {
      var dir := ControlDirection(pts, closed, a, f);
      var v0 := pts[a].Plus(dir.Times(PrevDistance(pts, closed, a, f)).Times(0.5));
      var v1 := pts[a].Plus(dir.Times(NextDistance(pts, closed, a, f)).Times(0.5));
      PlaceControlKeeps(PlaceControl(pts, closed, a - 1, v0), closed, a + 1, v1, LoopIndex(n, a - 1));
    }
  }

  /** On a well-formed list the two handle slots of an anchor are never anchors. */
  lemma {:induction false} HandleSlotsAreNotAnchors(n: int, closed: bool, a: int, c: int)
    requires n > 0 && (if closed then n % 3 == 0 else n % 3 == 1)
    requires 0 <= a < n && a % 3 == 0 && (c == a - 1 || c == a + 1)
    ensures ControlSlot(n, closed, c) == -1 || ControlSlot(n, closed, c) % 3 != 0
  {
    if Reaches(n, closed, c) {
      var s := LoopIndex(n, c);
      if c == -1 {
        assert closed;
        assert s == n - 1;
      } else {
        assert s == c;
      }
    }
  }

  /** Auto-placing the handles of an anchor never moves an anchor. */
  lemma {:induction false} AutoSetAnchorKeepsAnchors(pts: seq<Vec3>, closed: bool, a: int, f: FloatOps)
    requires WellFormed(pts, closed) && AnchorOk(|pts|, closed, a) && a % 3 == 0
    ensures |AutoSetAnchor(pts, closed, a, f)| == |pts|
    ensures Anchors(AutoSetAnchor(pts, closed, a, f)) == Anchors(pts)
  {
    var r := AutoSetAnchor(pts, closed, a, f);
    var n := |pts|;
    HandleSlotsAreNotAnchors(n, closed, a, a - 1);
    HandleSlotsAreNotAnchors(n, closed, a, a + 1);
    forall j | 0 <= j < |Anchors(pts)|
      ensures Anchors(r)[j] == Anchors(pts)[j]
    {
      assert (3 * j) % 3 == 0;
      AutoSetAnchorKeeps(pts, closed, a, f, 3 * j);
    }
  }

  /** `AutoSetAllAffectedControlPoints(u)` can run: each visited index is either skipped or
      wraps to a valid anchor position. */
  predicate AffectedOk(n: int, closed: bool, i: int) {
    Reaches(n, closed, i) ==> n > 0 && i + n >= 0 && AnchorOk(n, closed, LoopIndex(n, i))
  }

  predicate AffectedAllOk(n: int, closed: bool, u: int) {
    AffectedOk(n, closed, u - 3) && AffectedOk(n, closed, u) && AffectedOk(n, closed, u + 3)
  }

  /** The indices `i, i + 3, ...` below `end` can all be visited. */
  predicate AffectedRun(n: int, closed: bool, i: int, end: int)
    decreases end - i
  {
    i < end ==> AffectedOk(n, closed, i) && AffectedRun(n, closed, i + 3, end)
  }

  /** The `for (i = u - 3; i < u + 4; i += 3)` loop of `AutoSetAllAffectedControlPoints`
      from index `i` on. */
  function AutoSetAffectedFrom(pts: seq<Vec3>, closed: bool, i: int, end: int, f: FloatOps): (r: seq<Vec3>)
    requires AffectedRun(|pts|, closed, i, end)
    ensures |r| == |pts|
    decreases end - i
  {
    if i >= end then pts
    else
      var p := if Reaches(|pts|, closed, i) then AutoSetAnchor(pts, closed, LoopIndex(|pts|, i), f) else pts;
      AutoSetAffectedFrom(p, closed, i + 3, end, f)
  }

  /** The loop of `AutoSetAllAffectedControlPoints(u)` visits exactly `u - 3`, `u` and `u + 3`. */
  lemma AffectedAllRun(n: int, closed: bool, u: int)
    ensures AffectedAllOk(n, closed, u) <==> AffectedRun(n, closed, u - 3, u + 4)
  {
    assert AffectedRun(n, closed, u + 6, u + 4);
    assert AffectedRun(n, closed, u + 3, u + 4) <==> AffectedOk(n, closed, u + 3);
  }

  /** `AutoSetAllAffectedControlPoints(u)`: re-smooths the anchors at `u - 3`, `u` and `u + 3`. */
  function AutoSetAffected(pts: seq<Vec3>, closed: bool, u: int, f: FloatOps): (r: seq<Vec3>)
    requires AffectedAllOk(|pts|, closed, u)
    ensures |r| == |pts|
  {
    AffectedAllRun(|pts|, closed, u);
    AutoSetAffectedFrom(pts, closed, u - 3, u + 4, f)
  }

  /** Every anchor index of a list of length `n` can be smoothed. */
  predicate AllAnchorsOk(n: int, closed: bool) {
    closed && n > 0 ==> n >= 3
  }

  /** The `for (i = 0; i < Count; i += 3)` loop of `AutoSetAllControlPoints` from `i` on. */
  function AutoSetAllFrom(pts: seq<Vec3>, closed: bool, i: nat, f: FloatOps): (r: seq<Vec3>)
    requires AllAnchorsOk(|pts|, closed)
    ensures |r| == |pts|
    decreases |pts| - i
  {
    if i >= |pts| then pts else AutoSetAllFrom(AutoSetAnchor(pts, closed, i, f), closed, i + 3, f)
  }

  /** `AutoSetAllControlPoints()`. */
  function AutoSetAll(pts: seq<Vec3>, closed: bool, f: FloatOps): (r: seq<Vec3>)
    requires AllAnchorsOk(|pts|, closed)
    ensures |r| == |pts|
  {
    AutoSetAllFrom(pts, closed, 0, f)
  }

  /** Smoothing every anchor moves handles only: the anchors stay where they are. */
  lemma {:induction false} AutoSetAllFromKeepsAnchors(pts: seq<Vec3>, closed: bool, i: nat, f: FloatOps)
    requires WellFormed(pts, closed) && AllAnchorsOk(|pts|, closed) && i % 3 == 0
    ensures Anchors(AutoSetAllFrom(pts, closed, i, f)) == Anchors(pts)
    decreases |pts| - i
  {
    if i < |pts| {
      var p := AutoSetAnchor(pts, closed, i, f);
      AutoSetAnchorKeepsAnchors(pts, closed, i, f);
      assert |p| == |pts|;
      assert (i + 3) % 3 == 0;
      AutoSetAllFromKeepsAnchors(p, closed, i + 3, f);
      assert AutoSetAllFrom(pts, closed, i, f) == AutoSetAllFrom(p, closed, i + 3, f);
    }
  }

  /** `AutoSetStartAndEndControls()`: on an open list the first handle becomes the midpoint
      of the first two anchors and the last handle the midpoint of the last two anchors. */
  function AutoSetStartAndEnd(pts: seq<Vec3>): (r: seq<Vec3>)
    requires |pts| >= 4
    ensures |r| == |pts|
    ensures forall j :: 0 <= j < |pts| && j != 1 && j != |pts| - 2 ==> r[j] == pts[j]
    ensures r[1] == Midpoint(pts[0], pts[3])
    ensures r[|pts| - 2] == Midpoint(pts[|pts| - 1], r[|pts| - 4])
  {
    var p1 := pts[1 := Midpoint(pts[0], pts[3])];
    p1[|p1| - 2 := Midpoint(p1[|p1| - 1], p1[|p1| - 4])]
  }

  // ---------------------------------------------------------------------------
  // Moving a point

  /** In Default mode, moving anchor `i` by `delta` moves its two handles by `delta`
      too, where they exist or the list wraps. */
  function ShiftNeighbours(pts: seq<Vec3>, closed: bool, i: int, delta: Vec3): (r: seq<Vec3>)
    requires 0 <= i < |pts|
    ensures |r| == |pts|
  {
    var n := |pts|;
    var p1 := if i + 1 < n || closed
      then pts[LoopIndex(n, i + 1) := pts[LoopIndex(n, i + 1)].Plus(delta)] else pts;
    if i - 1 > -1 || closed
      then p1[LoopIndex(n, i - 1) := p1[LoopIndex(n, i - 1)].Plus(delta)] else p1
  }

  /** The handle on the other side of the anchor next to handle `i`. */
  function OppositeHandle(i: int): int {
    if (i + 1) % 3 == 0 then i + 2 else i - 2
  }

  /** The anchor that handle `i` belongs to. */
  function OwningAnchor(i: int): int {
    if (i + 1) % 3 == 0 then i + 1 else i - 1
  }

  /** Tangent mode: after handle `i` moved to `pos`, the opposite handle is put on the
      ray from `pos` through the anchor, at its old distance from the anchor. */
  function MirrorOpposite(pts: seq<Vec3>, closed: bool, i: int, pos: Vec3, f: FloatOps): (r: seq<Vec3>)
    requires 0 < i < |pts| && i % 3 != 0
    ensures |r| == |pts|
  {
    var n := |pts|;
    var opposite := OppositeHandle(i);
    if (opposite > -1 && opposite < n) || closed then
      var anchorPos := pts[LoopIndex(n, OwningAnchor(i))];
      var dst := f.magnitude(anchorPos.Minus(pts[LoopIndex(n, opposite)]));
      var dir := f.normalized(anchorPos.Minus(pos));
      pts[LoopIndex(n, opposite) := anchorPos.Plus(dir.Times(dst))]
    else pts
  }

  /** `MovePoint(i, pos)` reads and writes inside the list. */
  predicate MoveOk(n: int, closed: bool, i: int, auto: bool) {
    (i % 3 == 0 || !auto) ==> 0 <= i < n && (auto ==> AffectedAllOk(n, closed, i))
  }

  /** `MovePoint(i, pos)`. `auto` is the auto-smoothing mode; `mirror` says whether a
      moved handle drags the opposite one (Tangent mode of `Spline`, always in `Path`). */
  function MovedPoints(pts: seq<Vec3>, closed: bool, i: int, pos: Vec3, auto: bool, mirror: bool, f: FloatOps): (r: seq<Vec3>)
    requires MoveOk(|pts|, closed, i, auto)
    ensures |r| == |pts|
    ensures auto && i % 3 != 0 ==> r == pts
    ensures !auto && i % 3 != 0 && !mirror ==> r == pts[i := pos]
  {
    if i % 3 == 0 || !auto then
      var delta := pos.Minus(pts[i]);
      var p1 := pts[i := pos];
      if auto then AutoSetAffected(p1, closed, i, f)
      else if i % 3 == 0 then ShiftNeighbours(p1, closed, i, delta)
      else if mirror then MirrorOpposite(p1, closed, i, pos, f)
      else p1
    else pts
  }

  /** Moving an anchor outside auto mode on a list of at least three points: the anchor
      lands on `pos`, each existing neighbour moves by the same offset, and nothing
      else changes. */
  lemma {:induction false} MoveAnchorShiftsHandles(pts: seq<Vec3>, closed: bool, i: int, pos: Vec3, mirror: bool, f: FloatOps)
    requires 0 <= i < |pts| && i % 3 == 0 && |pts| >= 3
    ensures var r := MovedPoints(pts, closed, i, pos, false, mirror, f);
      var delta := pos.Minus(pts[i]);
      && r[i] == pos
      && (i + 1 < |pts| ==> r[i + 1] == pts[i + 1].Plus(delta))
      && (i + 1 == |pts| && closed ==> r[0] == pts[0].Plus(delta))
      && (i > 0 ==> r[i - 1] == pts[i - 1].Plus(delta))
      && (i == 0 && closed ==> r[|pts| - 1] == pts[|pts| - 1].Plus(delta))
      && (forall j :: (0 <= j < |pts| && j != i && j != LoopIndex(|pts|, i + 1)
            && j != LoopIndex(|pts|, i - 1)) ==> r[j] == pts[j])
  {
    var n := |pts|;
    assert LoopIndex(n, i + 1) != LoopIndex(n, i - 1);
  }

  /** Moving an anchor and moving it back outside auto mode restores the list. */
  lemma {:induction false} MoveAnchorRoundTrip(pts: seq<Vec3>, closed: bool, i: int, pos: Vec3, mirror: bool, f: FloatOps)
    requires 0 <= i < |pts| && i % 3 == 0 && |pts| >= 3
    ensures MovedPoints(MovedPoints(pts, closed, i, pos, false, mirror, f), closed, i, pts[i], false, mirror, f) == pts
  {
    var n := |pts|;
    var r1 := MovedPoints(pts, closed, i, pos, false, mirror, f);
    var r2 := MovedPoints(r1, closed, i, pts[i], false, mirror, f);
    MoveAnchorShiftsHandles(pts, closed, i, pos, mirror, f);
    MoveAnchorShiftsHandles(r1, closed, i, pts[i], mirror, f);
    forall j | 0 <= j < n ensures r2[j] == pts[j] {
    }
  }

  /** Moving handle `i` with mirroring on a well formed list (Tangent mode of `Spline`,
      always in `Path`): the handle lands on `pos`; when the opposite handle exists or the
      list wraps, it is put on the ray from `pos` through the unmoved anchor, at its old
      distance from the anchor, and nothing else changes; otherwise only the handle moves. */
  lemma {:induction false} MoveHandleMirrors(pts: seq<Vec3>, closed: bool, i: int, pos: Vec3, f: FloatOps)
    requires WellFormed(pts, closed) && 0 <= i < |pts| && i % 3 != 0
    ensures (OppositeHandle(i) > -1 && OppositeHandle(i) < |pts|) || closed ==>
      && MovedPoints(pts, closed, i, pos, false, true, f)[i] == pos
      && MovedPoints(pts, closed, i, pos, false, true, f)[LoopIndex(|pts|, OwningAnchor(i))]
         == pts[LoopIndex(|pts|, OwningAnchor(i))]
      && MovedPoints(pts, closed, i, pos, false, true, f)[LoopIndex(|pts|, OppositeHandle(i))]
         == pts[LoopIndex(|pts|, OwningAnchor(i))].Plus(
              f.normalized(pts[LoopIndex(|pts|, OwningAnchor(i))].Minus(pos)).Times(
                f.magnitude(pts[LoopIndex(|pts|, OwningAnchor(i))].Minus(pts[LoopIndex(|pts|, OppositeHandle(i))]))))
      && (forall j :: 0 <= j < |pts| && j != i && j != LoopIndex(|pts|, OppositeHandle(i)) ==>
            MovedPoints(pts, closed, i, pos, false, true, f)[j] == pts[j])
    ensures !((OppositeHandle(i) > -1 && OppositeHandle(i) < |pts|) || closed) ==>
      MovedPoints(pts, closed, i, pos, false, true, f) == pts[i := pos]
  {
  }

  // ---------------------------------------------------------------------------
  // Whole edits, auto-smoothing included

  /** `AddSegment(anchorPos)` can run: two points to extrapolate from, and in auto mode
      anchors the smoothing pass can reach. */
  predicate AddOk(n: int, closed: bool, auto: bool) {
    n >= 2 && (auto ==> AffectedAllOk(n + 3, closed, n + 2))
  }

  /** `AddSegment(anchorPos)`. */
  function AddedPoints(pts: seq<Vec3>, closed: bool, anchor: Vec3, auto: bool, f: FloatOps): (r: seq<Vec3>)
    requires AddOk(|pts|, closed, auto)
    ensures |r| == |pts| + 3
    ensures !auto ==> r == AppendSegment(pts, anchor)
  {
    var p := AppendSegment(pts, anchor);
    if auto then AutoSetAffected(p, closed, |p| - 1, f) else p
  }

  /** `SplitSegment(anchorPos, s)` can run. */
  predicate SplitOk(n: int, closed: bool, s: int, auto: bool) {
    0 <= 3 * s + 2 <= n && (auto ==> AffectedAllOk(n + 3, closed, 3 * s + 3))
  }

  /** `SplitSegment(anchorPos, s)`: the inserted anchor is always smoothed, and in auto
      mode its two neighbouring anchors are too. */
  function SplitPoints(pts: seq<Vec3>, closed: bool, anchor: Vec3, s: int, auto: bool, f: FloatOps): (r: seq<Vec3>)
    requires SplitOk(|pts|, closed, s, auto)
    ensures |r| == |pts| + 3
    ensures !auto ==> r == AutoSetAnchor(InsertSegment(pts, anchor, s), closed, 3 * s + 3, f)
  {
    var p := InsertSegment(pts, anchor, s);
    if auto then AutoSetAffected(p, closed, 3 * s + 3, f) else AutoSetAnchor(p, closed, 3 * s + 3, f)
  }

  /** The length of the list after `RemoveSegment`. */
  function RemainingCount(n: int, closed: bool, a: int): int {
    if DeleteGuard(n, closed) && !(a == 0 && !closed) then n - 3 else n
  }

  /** `DeleteSegment(a)` can run. */
  predicate DeleteAllOk(n: int, closed: bool, a: int, auto: bool) {
    DeleteOk(n, closed, a) && (auto ==> AffectedAllOk(RemainingCount(n, closed, a), closed, a))
  }

  /** `DeleteSegment(a)`. */
  function DeletedPoints(pts: seq<Vec3>, closed: bool, a: int, auto: bool, f: FloatOps): (r: seq<Vec3>)
    requires DeleteAllOk(|pts|, closed, a, auto)
    ensures |r| == RemainingCount(|pts|, closed, a)
    ensures !auto ==> r == RemoveSegment(pts, closed, a)
  {
    var p := RemoveSegment(pts, closed, a);
    if auto then AutoSetAffected(p, closed, a, f) else p
  }

  /** The `close` setter of `Spline` adds the seam only to a list whose length is not a
      multiple of 3 (`guarded`); the `IsClosed` setter of `Path` always adds it. */
  function SeamAdded(n: int, guarded: bool): bool { !guarded || n % 3 != 0 }

  function SeamRemoved(n: int, guarded: bool): bool { !guarded || n % 3 == 0 }

  /** Closing can run: two points to extrapolate from, and three points to smooth. */
  predicate CloseOk(n: int, guarded: bool, auto: bool) {
    (SeamAdded(n, guarded) ==> n >= 2)
    && (auto ==> (if SeamAdded(n, guarded) then n + 2 else n) >= 3)
  }

  /** Setting the closed flag to true on an open list. */
  function ClosedPoints(pts: seq<Vec3>, guarded: bool, auto: bool, f: FloatOps): (r: seq<Vec3>)
    requires CloseOk(|pts|, guarded, auto)
    ensures |r| == if SeamAdded(|pts|, guarded) then |pts| + 2 else |pts|
    ensures !auto && SeamAdded(|pts|, guarded) ==> r == CloseSeam(pts)
    ensures !auto && !SeamAdded(|pts|, guarded) ==> r == pts
  {
    var p := if SeamAdded(|pts|, guarded) then CloseSeam(pts) else pts;
    if auto then
      var p1 := AutoSetAnchor(p, true, 0, f);
      AutoSetAnchor(p1, true, |p1| - 3, f)
    else p
  }

  /** Opening can run: two points to drop, and four points for the end handles. */
  predicate OpenOk(n: int, guarded: bool, auto: bool) {
    (SeamRemoved(n, guarded) ==> n >= 2)
    && (auto ==> (if SeamRemoved(n, guarded) then n - 2 else n) >= 4)
  }

  /** Setting the closed flag to false on a closed list. */
  function OpenedPoints(pts: seq<Vec3>, guarded: bool, auto: bool): (r: seq<Vec3>)
    requires OpenOk(|pts|, guarded, auto)
    ensures |r| == if SeamRemoved(|pts|, guarded) then |pts| - 2 else |pts|
    ensures !auto && SeamRemoved(|pts|, guarded) ==> r == OpenSeam(pts)
    ensures !auto && !SeamRemoved(|pts|, guarded) ==> r == pts
  {
    var p := if SeamRemoved(|pts|, guarded) then OpenSeam(pts) else pts;
    if auto then AutoSetStartAndEnd(p) else p
  }

  /** Outside auto mode, closing and then opening restores the list: always for `Path`,
      and for `Spline` on a `3k + 1` list. */
  lemma {:induction false} CloseThenOpenRestores(pts: seq<Vec3>, guarded: bool, f: FloatOps)
    requires |pts| >= 2 && (guarded ==> |pts| % 3 == 1)
    ensures CloseOk(|pts|, guarded, false)
    ensures OpenOk(|ClosedPoints(pts, guarded, false, f)|, guarded, false)
    ensures OpenedPoints(ClosedPoints(pts, guarded, false, f), guarded, false) == pts
  {
    var c := ClosedPoints(pts, guarded, false, f);
    assert c == CloseSeam(pts);
    assert SeamRemoved(|c|, guarded);
    OpenSeamUndoesCloseSeam(pts);
  }

  /** Closing and opening keep the anchors: closing only appends two handles, opening
      only drops the two seam handles. */
  lemma {:induction false} SeamKeepsAnchors(pts: seq<Vec3>)
    requires |pts| >= 2
    ensures WellFormed(pts, false) ==> Anchors(CloseSeam(pts)) == Anchors(pts)
    ensures WellFormed(pts, true) ==> Anchors(OpenSeam(pts)) == Anchors(pts)
  {
    if WellFormed(pts, false) {
      var c := CloseSeam(pts);
      assert |Anchors(c)| == |Anchors(pts)|;
      forall j | 0 <= j < |Anchors(pts)| ensures Anchors(c)[j] == Anchors(pts)[j] {
      }
    }
    if WellFormed(pts, true) {
      var o := OpenSeam(pts);
      assert |Anchors(o)| == |Anchors(pts)|;
      forall j | 0 <= j < |Anchors(pts)| ensures Anchors(o)[j] == Anchors(pts)[j] {
      }
    }
  }

  /** Appending a segment to an open list adds one anchor at the end and keeps the
      triple grouping. */
  lemma {:induction false} AppendSegmentAnchors(pts: seq<Vec3>, anchor: Vec3)
    requires WellFormed(pts, false) && |pts| >= 2
    ensures WellFormed(AppendSegment(pts, anchor), false)
    ensures Anchors(AppendSegment(pts, anchor)) == Anchors(pts) + [anchor]
  {
    var r := AppendSegment(pts, anchor);
    var A := Anchors(pts);
    assert |Anchors(r)| == |A| + 1;
    forall j | 0 <= j < |A| + 1 ensures Anchors(r)[j] == (A + [anchor])[j] {
      if j < |A| {
        assert r[3 * j] == r[..|pts|][3 * j];
      }
    }
  }

  /** Outside auto mode, deleting the segment just appended to an open list restores it. */
  lemma {:induction false} AppendThenRemoveRestores(pts: seq<Vec3>, anchor: Vec3)
    requires |pts| >= 3
    ensures DeleteOk(|pts| + 3, false, |pts| + 2)
    ensures RemoveSegment(AppendSegment(pts, anchor), false, |pts| + 2) == pts
  {
    var r := AppendSegment(pts, anchor);
    assert DeleteGuard(|r|, false);
    assert RemoveSegment(r, false, |pts| + 2) == r[..|pts|];
  }

  /** Inserting a segment after anchor `s` inserts exactly one anchor there. */
  lemma {:induction false} InsertSegmentAnchors(pts: seq<Vec3>, anchor: Vec3, s: int)
    requires 0 <= 3 * s + 2 <= |pts|
    ensures s + 1 <= |Anchors(pts)|
    ensures Anchors(InsertSegment(pts, anchor, s)) == Anchors(pts)[..s + 1] + [anchor] + Anchors(pts)[s + 1..]
  {
    var A := Anchors(pts);
    var p := InsertSegment(pts, anchor, s);
    var B := A[..s + 1] + [anchor] + A[s + 1..];
    assert |Anchors(p)| == |B|;
    forall j | 0 <= j < |B| ensures Anchors(p)[j] == B[j] {
      if j <= s {
        assert p[3 * j] == p[..3 * s + 2][3 * j];
      } else if j > s + 1 {
        assert B[j] == A[j - 1];
        assert p[3 * j] == p[3 * s + 5..][3 * j - 3 * s - 5];
        assert pts[3 * (j - 1)] == pts[3 * s + 2..][3 * j - 3 * s - 5];
      }
    }
  }

  /** Splitting segment `s` outside auto mode inserts one anchor after anchor `s` and
      keeps the triple grouping. */
  lemma {:induction false} SplitSegmentAnchors(pts: seq<Vec3>, closed: bool, anchor: Vec3, s: int, f: FloatOps)
    requires WellFormed(pts, closed) && SplitOk(|pts|, closed, s, false)
    ensures s + 1 <= |Anchors(pts)|
    ensures WellFormed(SplitPoints(pts, closed, anchor, s, false, f), closed)
    ensures Anchors(SplitPoints(pts, closed, anchor, s, false, f))
      == Anchors(pts)[..s + 1] + [anchor] + Anchors(pts)[s + 1..]
  {
    var p := InsertSegment(pts, anchor, s);
    AutoSetAnchorKeepsAnchors(p, closed, 3 * s + 3, f);
    InsertSegmentAnchors(pts, anchor, s);
  }

  /** Outside auto mode, deleting the anchor a split inserted restores the list, whenever
      the minimum-size guard lets the deletion through. */
  lemma {:induction false} SplitThenRemoveRestores(pts: seq<Vec3>, closed: bool, anchor: Vec3, s: int, f: FloatOps)
    requires SplitOk(|pts|, closed, s, false) && DeleteGuard(|pts| + 3, closed)
    ensures DeleteOk(|pts| + 3, closed, 3 * s + 3)
    ensures RemoveSegment(SplitPoints(pts, closed, anchor, s, false, f), closed, 3 * s + 3) == pts
  {
    var n := |pts|;
    var r := SplitPoints(pts, closed, anchor, s, false, f);
    var a := 3 * s + 3;
    assert ControlSlot(n + 3, closed, a - 1) == a - 1;
    assert ControlSlot(n + 3, closed, a + 1) == a + 1;
    assert RemoveSegment(r, closed, a) == r[..a - 1] + r[a + 2..];
    SplitKeepsOutside(pts, closed, anchor, s, f);
    assert pts[..a - 1] + pts[a - 1..] == pts;
  }

  /** Outside auto mode a split changes nothing before the new handle-anchor-handle triple
      and shifts everything after it by three. */
  lemma SplitKeepsOutside(pts: seq<Vec3>, closed: bool, anchor: Vec3, s: int, f: FloatOps)
    requires SplitOk(|pts|, closed, s, false)
    ensures var r := SplitPoints(pts, closed, anchor, s, false, f);
            r[..3 * s + 2] == pts[..3 * s + 2] && r[3 * s + 5..] == pts[3 * s + 2..]
  {
    SplitKeepsBefore(pts, closed, anchor, s, f);
    SplitKeepsAfter(pts, closed, anchor, s, f);
  }

  /** The part of `SplitKeepsOutside` before the new triple. */
  lemma SplitKeepsBefore(pts: seq<Vec3>, closed: bool, anchor: Vec3, s: int, f: FloatOps)
    requires SplitOk(|pts|, closed, s, false)
    ensures SplitPoints(pts, closed, anchor, s, false, f)[..3 * s + 2] == pts[..3 * s + 2]
  {
    var p := InsertSegment(pts, anchor, s);
    var r := SplitPoints(pts, closed, anchor, s, false, f);
    var a := 3 * s + 3;
    forall j | 0 <= j < a - 1 ensures r[j] == pts[j] {
      AutoSetAnchorKeeps(p, closed, a, f, j);
      assert r[j] == p[j] == p[..a - 1][j];
    }
  }

  /** The part of `SplitKeepsOutside` after the new triple. */
  lemma SplitKeepsAfter(pts: seq<Vec3>, closed: bool, anchor: Vec3, s: int, f: FloatOps)
    requires SplitOk(|pts|, closed, s, false)
    ensures SplitPoints(pts, closed, anchor, s, false, f)[3 * s + 5..] == pts[3 * s + 2..]
  {
    var p := InsertSegment(pts, anchor, s);
    var r := SplitPoints(pts, closed, anchor, s, false, f);
    var a := 3 * s + 3;
    var tailR, tailP := r[a + 2..], pts[a - 1..];
    forall j | 0 <= j < |tailP| ensures tailR[j] == tailP[j] {
      AutoSetAnchorKeeps(p, closed, a, f, a + 2 + j);
      assert r[a + 2 + j] == p[a + 2 + j] == p[3 * s + 5..][j];
    }
  }

  /** Deleting an anchor (other than anchor 0 of an open list) past the guard removes
      exactly that anchor and keeps the triple grouping. */
  lemma {:induction false} RemoveSegmentAnchors(pts: seq<Vec3>, closed: bool, a: int)
    requires WellFormed(pts, closed) && DeleteGuard(|pts|, closed)
    requires 0 <= a < |pts| && a % 3 == 0 && !(a == 0 && !closed)
    ensures DeleteOk(|pts|, closed, a)
    ensures WellFormed(RemoveSegment(pts, closed, a), closed)
    ensures Anchors(RemoveSegment(pts, closed, a)) == Anchors(pts)[..a / 3] + Anchors(pts)[a / 3 + 1..]
  {
    var A := Anchors(pts);
    var r := RemoveSegment(pts, closed, a);
    var B := A[..a / 3] + A[a / 3 + 1..];
    assert |r| == |pts| - 3;
    assert |Anchors(r)| == |B|;
    forall j | 0 <= j < |B| ensures Anchors(r)[j] == B[j] {
      RemoveSegmentAnchorAt(pts, closed, a, j);
    }
  }

  lemma {:induction false} RemoveSegmentAnchorAt(pts: seq<Vec3>, closed: bool, a: int, j: int)
    requires WellFormed(pts, closed) && DeleteGuard(|pts|, closed)
    requires 0 <= a < |pts| && a % 3 == 0 && !(a == 0 && !closed)
    requires 0 <= j < |Anchors(pts)| - 1
    ensures DeleteOk(|pts|, closed, a)
    ensures j < |Anchors(RemoveSegment(pts, closed, a))|
    ensures Anchors(RemoveSegment(pts, closed, a))[j] == (Anchors(pts)[..a / 3] + Anchors(pts)[a / 3 + 1..])[j]
  {
    var A := Anchors(pts);
    RemoveSegmentAt(pts, closed, a, 3 * j);
    if j >= a / 3 && !(a == |pts| - 1 && !closed) {
      assert (A[..a / 3] + A[a / 3 + 1..])[j] == A[j + 1];
    }
  }

  /** Where each kept point lands after a deletion past the guard. */
  lemma RemoveSegmentAt(pts: seq<Vec3>, closed: bool, a: int, j: int)
    requires WellFormed(pts, closed) && DeleteGuard(|pts|, closed)
    requires 0 <= a < |pts| && a % 3 == 0 && !(a == 0 && !closed)
    requires 0 <= j < |pts| - 3 && (a == 0 ==> j < |pts| - 4)
    ensures DeleteOk(|pts|, closed, a)
    ensures a == |pts| - 1 && !closed ==> RemoveSegment(pts, closed, a)[j] == pts[j]
    ensures !(a == |pts| - 1 && !closed) && a != 0 && j < a - 1 ==> RemoveSegment(pts, closed, a)[j] == pts[j]
    ensures !(a == |pts| - 1 && !closed) && (a == 0 || j >= a - 1) ==> RemoveSegment(pts, closed, a)[j] == pts[j + 3]
  {
    var r := RemoveSegment(pts, closed, a);
    if a == 0 {
    } else if a == |pts| - 1 && !closed {
    } else if j < a - 1 {
      assert r[j] == r[..a - 1][j];
    } else {
      assert r[j] == r[a - 1..][j - a + 1];
    }
  }
}
