/** The moving frames of `GetSplinePoints` (Runtime/Spline.cs): a forward direction from
    the central chord at every spaced point, an up vector carried from point to point by
    double reflection (or world up in z-up mode), and, on a closed spline, a seam pass
    that spreads the up-vector twist across the join over all frames but the first. */
module Frames {
  import opened Geometry
  import Arith

  /** `Spline.Point`. */
  datatype Frame = Frame(forward: Vec3, up: Vec3, position: Vec3)

  /** The unnormalised forward direction at sample `i`: the chord to the next sample
      (when there is one or the path wraps) plus the chord from the previous one (same
      condition). The strip generators compute the same sum. */
  function ChordSum(s: seq<Vec3>, closed: bool, i: int): (r: Vec3)
    requires 0 <= i < |s|
    ensures 0 < i < |s| - 1 ==> r == s[i + 1].Minus(s[i - 1])
    ensures |s| == 1 ==> r == Zero
  {
    var n := |s|;
    Arith.ModSmall(i + 1, n);
    Arith.ModSmall(i - 1 + n, n);
    var pos0 := s[(i - 1 + n) % n];
    var pos1 := s[i];
    var pos2 := s[(i + 1) % n];
    var forward := if i < n - 1 || closed then Zero.Plus(pos2.Minus(pos1)) else Zero;
    if i > 0 || closed then forward.Plus(pos1.Minus(pos0)) else forward
  }

  /** `v - axis * 2 / axis.sqrMagnitude * Dot(axis, v)`: the mirror image of `v` in the
      plane orthogonal to `axis`. A zero axis divides 0 by 0, which the float semantics
      turn into `degenerateReflection`. */
  function Reflect(v: Vec3, axis: Vec3, f: FloatOps): (r: Vec3)
    ensures SqrMagnitude(axis) != 0.0 ==> Dot(r, axis) == -Dot(v, axis)
    ensures SqrMagnitude(axis) != 0.0 ==> SqrMagnitude(r) == SqrMagnitude(v)
  {
    var sq := SqrMagnitude(axis);
    if sq != 0.0 then
      var r := v.Minus(axis.Times(2.0).DividedBy(sq).Times(Dot(axis, v)));
      ReflectFacts(v, axis, r);
      r
    else f.degenerateReflection(v, axis)
  }

  lemma ReflectFacts(v: Vec3, axis: Vec3, r: Vec3)
    requires SqrMagnitude(axis) != 0.0
    requires r == v.Minus(axis.Times(2.0).DividedBy(SqrMagnitude(axis)).Times(Dot(axis, v)))
    ensures Dot(r, axis) == -Dot(v, axis)
    ensures SqrMagnitude(r) == SqrMagnitude(v)
  {
    var sq := SqrMagnitude(axis);
    var d := Dot(axis, v);
    var k := 2.0 * d / sq;
    ScaledAxis(axis, sq, d);
    ScaleThenDivide(sq, sq, d);
    ReflectionExpansion(v, axis, k);
    assert k * (k * sq) == k * (2.0 * d);
  }

  lemma ScaledAxis(axis: Vec3, sq: real, d: real)
    requires sq != 0.0
    ensures axis.Times(2.0).DividedBy(sq).Times(d) == axis.Times(2.0 * d / sq)
  {
    ScaleThenDivide(axis.x, sq, d);
    ScaleThenDivide(axis.y, sq, d);
    ScaleThenDivide(axis.z, sq, d);
  }

  lemma ScaleThenDivide(a: real, sq: real, d: real)
    requires sq != 0.0
    ensures a * 2.0 / sq * d == a * (2.0 * d / sq)
  {
  }

  /** The polynomial identities behind a reflection along `axis` with factor `k`. */
  lemma ReflectionExpansion(v: Vec3, axis: Vec3, k: real)
    ensures Dot(v.Minus(axis.Times(k)), axis) == Dot(v, axis) - k * SqrMagnitude(axis)
    ensures SqrMagnitude(v.Minus(axis.Times(k)))
      == SqrMagnitude(v) - 2.0 * k * Dot(axis, v) + k * (k * SqrMagnitude(axis))
  {
  }

  /** The double-reflection step: reflect the previous frame in the chord, then reflect
      the reflected up vector in the difference between the new forward and the
      reflected previous forward. */
  function DoubleReflectUp(offset: Vec3, prevForward: Vec3, prevUp: Vec3, f: FloatOps): Vec3 {
    var rot := Reflect(prevUp, offset, f);
    var tan := Reflect(prevForward, offset, f);
    var v2 := f.normalized(offset).Minus(tan);
    Reflect(rot, v2, f)
  }

  /** One pass of the frame loop: the frame at sample `i`, given the forward and up
      vectors of the frame before it. */
  function FrameAt(s: seq<Vec3>, closed: bool, zUp: bool, i: nat, prevForward: Vec3, prevUp: Vec3, f: FloatOps): (r: Frame)
    requires i < |s|
    ensures r.position == s[i] && r.forward == f.normalized(ChordSum(s, closed, i))
    ensures zUp ==> r.up == Up
  {
    var offset := ChordSum(s, closed, i);
    var localForward := f.normalized(offset);
    var localUp := if zUp then Up else DoubleReflectUp(offset, prevForward, prevUp, f);
    Frame(localForward, localUp, s[i])
  }

  /** The frame loop from sample `i` on, with the forward and up vectors carried from the
      previous sample. */
  function FramesFrom(s: seq<Vec3>, closed: bool, zUp: bool, i: nat, prevForward: Vec3, prevUp: Vec3, f: FloatOps): (r: seq<Frame>)
    requires i <= |s|
    ensures |r| == |s| - i
    decreases |s| - i
  {
    if i == |s| then []
    else
      var frame := FrameAt(s, closed, zUp, i, prevForward, prevUp, f);
      [frame] + FramesFrom(s, closed, zUp, i + 1, frame.forward, frame.up, f)
  }

  /** Frame `j` of the loop from sample `i` on is the frame of sample `i + j`: it sits at
      that sample, faces along its normalised chord sum, and in z-up mode has world up
      as its up vector. */
  lemma {:induction false} FramesFromFrame(s: seq<Vec3>, closed: bool, zUp: bool, i: nat, prevForward: Vec3, prevUp: Vec3, f: FloatOps, j: nat)
    requires i + j < |s|
    ensures FramesFrom(s, closed, zUp, i, prevForward, prevUp, f)[j].position == s[i + j]
    ensures FramesFrom(s, closed, zUp, i, prevForward, prevUp, f)[j].forward == f.normalized(ChordSum(s, closed, i + j))
    ensures zUp ==> FramesFrom(s, closed, zUp, i, prevForward, prevUp, f)[j].up == Up
    decreases j
  {
    var frame := FrameAt(s, closed, zUp, i, prevForward, prevUp, f);
    if j > 0 {
      FramesFromFrame(s, closed, zUp, i + 1, frame.forward, frame.up, f, j - 1);
      assert FramesFrom(s, closed, zUp, i, prevForward, prevUp, f)[j] == FramesFrom(s, closed, zUp, i + 1, frame.forward, frame.up, f)[j - 1];
    }
  }

  /** The forward vector the loop starts from: the normalised chord from sample 0 to
      sample 1 (sample 0 itself when there is only one). */
  function InitialForward(s: seq<Vec3>, f: FloatOps): Vec3
    requires |s| > 0
  {
    f.normalized(s[1 % |s|].Minus(s[0]))
  }

  /** One frame per spaced point, before the seam pass. */
  function RawFrames(s: seq<Vec3>, closed: bool, zUp: bool, f: FloatOps): (r: seq<Frame>)
    requires |s| > 0
    ensures |r| == |s|
  {
    FramesFrom(s, closed, zUp, 0, InitialForward(s, f), Up, f)
  }

  /** `upAngleErrorAcrossjoin`: the signed angle from the last up vector to the first,
      about the first forward vector. */
  function SeamError(frames: seq<Frame>, f: FloatOps): real
    requires |frames| > 0
  {
    f.signedAngle(frames[|frames| - 1].up, frames[0].up, frames[0].forward)
  }

  /** Whether the seam pass runs: closed, and the twist exceeds 0.1 degrees. */
  predicate SeamApplies(frames: seq<Frame>, closed: bool, f: FloatOps)
    requires |frames| > 0
  {
    closed && Abs(SeamError(frames, f)) > 0.1
  }

  /** Frame `i >= 1` after the seam pass: its up vector turned about its forward vector by
      the share `i / (n - 1)` of the twist. */
  function Untwisted(frames: seq<Frame>, i: int, err: real, f: FloatOps): (r: Frame)
    requires 1 <= i < |frames|
    ensures r.forward == frames[i].forward && r.position == frames[i].position
    ensures r.up == f.rotate(err * TwistShare(i, |frames|), frames[i].forward, frames[i].up)
  {
    Frame(frames[i].forward, f.rotate(err * TwistShare(i, |frames|), frames[i].forward, frames[i].up), frames[i].position)
  }

  /** `t = i / (n - 1f)`: the share of the twist frame `i` of `n` takes back, from 0 at
      the first frame to 1 at the last. */
  function TwistShare(i: int, n: int): (t: real)
    requires n >= 2
    ensures 0 <= i <= n - 1 ==> 0.0 <= t <= 1.0
    ensures i == n - 1 ==> t == 1.0
  {
    var t := i as real / (n as real - 1.0);
    ShareBounds(i, n, t);
    t
  }

  lemma ShareBounds(i: int, n: int, t: real)
    requires n >= 2 && t == i as real / (n as real - 1.0)
    ensures 0 <= i <= n - 1 ==> 0.0 <= t <= 1.0
    ensures i == n - 1 ==> t == 1.0
  {
    var d := n as real - 1.0;
    assert t * d == i as real;
    if t < 0.0 {
      assert t * d < 0.0;
    }
    if t > 1.0 {
      assert t * d > 1.0 * d;
    }
  }

  /** The frames `GetSplinePoints` returns. */
  function SeamCorrected(frames: seq<Frame>, closed: bool, f: FloatOps): (r: seq<Frame>)
    requires |frames| > 0
    ensures |r| == |frames| && r[0] == frames[0]
    ensures forall j :: 0 <= j < |r| ==> r[j].forward == frames[j].forward && r[j].position == frames[j].position
    ensures !SeamApplies(frames, closed, f) ==> r == frames
    ensures SeamApplies(frames, closed, f) ==>
      forall j :: 1 <= j < |r| ==> r[j] == Untwisted(frames, j, SeamError(frames, f), f)
  {
    if SeamApplies(frames, closed, f) then
      var err := SeamError(frames, f);
      var r := seq(|frames|, j requires 0 <= j < |frames| => if j == 0 then frames[0] else Untwisted(frames, j, err, f));
      assert forall j {:trigger r[j]} :: 1 <= j < |r| ==> r[j] == Untwisted(frames, j, err, f);
      r
    else frames
  }

  /** The frame loop of `GetSplinePoints`: one frame per spaced point, the forward vector
      along the chord sum, the up vector carried over by double reflection. */
  method FrameList(spacedPoints: seq<Vec3>, closed: bool, zUp: bool, f: FloatOps) returns (splinePointList: seq<Frame>)
    requires |spacedPoints| > 0
    ensures splinePointList == RawFrames(spacedPoints, closed, zUp, f)
  {
    var prevLocalForward := InitialForward(spacedPoints, f);
    var prevLocalUp := Up;
    splinePointList := [];
    for i := 0 to |spacedPoints|
      invariant splinePointList + FramesFrom(spacedPoints, closed, zUp, i, prevLocalForward, prevLocalUp, f)
        == RawFrames(spacedPoints, closed, zUp, f)
    {
      var frame := FrameAt(spacedPoints, closed, zUp, i, prevLocalForward, prevLocalUp, f);
      assert FramesFrom(spacedPoints, closed, zUp, i, prevLocalForward, prevLocalUp, f)
        == [frame] + FramesFrom(spacedPoints, closed, zUp, i + 1, frame.forward, frame.up, f);
      splinePointList := splinePointList + [frame];
      prevLocalForward := frame.forward;
      prevLocalUp := frame.up;
    }
  }

  /** `List.ToArray()`. */
  method ToArray(list: seq<Frame>) returns (a: array<Frame>)
    ensures fresh(a) && a[..] == list
  {
    a := new Frame[|list|](j requires 0 <= j < |list| => list[j]);
  }

  /** The seam pass of `GetSplinePoints`, in place on the array made from the frame list. */
  method CorrectSeam(splinePoints: array<Frame>, splinePointList: seq<Frame>, closed: bool, f: FloatOps)
    requires splinePoints.Length > 0 && splinePoints[..] == splinePointList
    modifies splinePoints
    ensures splinePoints[..] == SeamCorrected(splinePointList, closed, f)
  {
    var n := splinePoints.Length;
    if closed {
      var upAngleErrorAcrossjoin := f.signedAngle(splinePoints[n - 1].up, splinePoints[0].up, splinePoints[0].forward);
      assert upAngleErrorAcrossjoin == SeamError(splinePointList, f);
      if Abs(upAngleErrorAcrossjoin) > 0.1 {
        assert SeamApplies(splinePointList, closed, f);
        ghost var r := SeamCorrected(splinePointList, closed, f);
        for i := 1 to n
          invariant forall j :: 0 <= j < i ==> splinePoints[j] == r[j]
          invariant forall j :: i <= j < n ==> splinePoints[j] == splinePointList[j]
        {
          var untwisted := Untwisted(splinePointList, i, upAngleErrorAcrossjoin, f);
          splinePoints[i] := untwisted;
          assert splinePoints[i] == r[i];
        }
        assert splinePoints[..] == r;
      }
    }
  }

  /** The frame part of `GetSplinePoints`: the frame loop over the spaced points, the
      list copied into an array, and the seam pass on that array. */
  method SplineFrames(spacedPoints: seq<Vec3>, closed: bool, zUp: bool, f: FloatOps) returns (splinePoints: array<Frame>)
    requires |spacedPoints| > 0
    ensures fresh(splinePoints)
    ensures splinePoints[..] == SeamCorrected(RawFrames(spacedPoints, closed, zUp, f), closed, f)
  {
    var splinePointList := FrameList(spacedPoints, closed, zUp, f);
    splinePoints := ToArray(splinePointList);
    CorrectSeam(splinePoints, splinePointList, closed, f);
  }

  /** The `GetSplinePoints` result for a list of spaced points: one frame per point at that
      point, world up everywhere in z-up mode, and a seam pass that leaves frame 0, every
      forward vector and every position alone. */
  lemma {:induction false} SplineFramesShape(s: seq<Vec3>, closed: bool, zUp: bool, f: FloatOps)
    requires |s| > 0
    ensures |SeamCorrected(RawFrames(s, closed, zUp, f), closed, f)| == |s|
    ensures forall j :: 0 <= j < |s| ==> SeamCorrected(RawFrames(s, closed, zUp, f), closed, f)[j].position == s[j]
    ensures forall j :: 0 <= j < |s| ==>
      SeamCorrected(RawFrames(s, closed, zUp, f), closed, f)[j].forward == f.normalized(ChordSum(s, closed, j))
    ensures zUp && !SeamApplies(RawFrames(s, closed, zUp, f), closed, f) ==>
      forall j :: 0 <= j < |s| ==> SeamCorrected(RawFrames(s, closed, zUp, f), closed, f)[j].up == Up
    ensures !closed ==> SeamCorrected(RawFrames(s, closed, zUp, f), closed, f) == RawFrames(s, closed, zUp, f)
  {
    var raw := RawFrames(s, closed, zUp, f);
    var r := SeamCorrected(raw, closed, f);
    forall j | 0 <= j < |s|
      ensures r[j].position == s[j] && r[j].forward == f.normalized(ChordSum(s, closed, j))
      ensures zUp ==> raw[j].up == Up
    {
      FramesFromFrame(s, closed, zUp, 0, InitialForward(s, f), Up, f, j);
    }
  }

  /** In z-up mode every up vector of `GetSplinePoints` is world up, open or closed: all raw
      up vectors are world up, so the measured twist across the seam is the signed angle
      from world up to itself, which is zero for any signed-angle routine that gives zero
      between equal vectors, and the seam pass does not run. */
  lemma {:induction false} ZUpFramesStayUp(s: seq<Vec3>, closed: bool, f: FloatOps)
    requires |s| > 0
    requires forall a :: f.signedAngle(Up, Up, a) == 0.0
    ensures forall j :: 0 <= j < |s| ==> SeamCorrected(RawFrames(s, closed, true, f), closed, f)[j].up == Up
  {
    var raw := RawFrames(s, closed, true, f);
    FramesFromFrame(s, closed, true, 0, InitialForward(s, f), Up, f, 0);
    FramesFromFrame(s, closed, true, 0, InitialForward(s, f), Up, f, |s| - 1);
    assert SeamError(raw, f) == 0.0;
    SplineFramesShape(s, closed, true, f);
  }
}
