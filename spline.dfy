/** The `Spline` component (Runtime/Spline.cs): a control-point list edited in place, a
    closed flag and an edit mode. Every editing method is proved to leave the list equal
    to the corresponding function of `ControlPolygon` applied to the old list; the
    resampling and frame methods run their loops against `Resampling` and `Frames`. */
module Spline {
  import opened Geometry
  import opened ControlPolygon
  import opened Resampling
  import opened Frames
  import Arith

  /** `Spline.EditMode`. */
  datatype EditMode = Default | Tangent | AutoSetControlPoints

  class Spline {
    var points: seq<Vec3>
    var close: bool
    var editMode: EditMode


    /** `Init(Spline path)`: copies the other spline's list and both settings. */
    method Init(path: Spline)
      modifies this
      ensures points == old(path.points) && close == old(path.close) && editMode == old(path.editMode)
    {
      points := path.points;
      close := path.close;
      editMode := path.editMode;
    }

    /** The `close` setter. */
    method SetClose(value: bool, f: FloatOps)
      requires value != close && value ==> CloseOk(|points|, true, editMode.AutoSetControlPoints?)
      requires value != close && !value ==> OpenOk(|points|, true, editMode.AutoSetControlPoints?)
      modifies this
      ensures close == value && editMode == old(editMode)
      ensures old(close) == value ==> points == old(points)
      ensures old(close) != value && value ==> points == ClosedPoints(old(points), true, editMode.AutoSetControlPoints?, f)
      ensures old(close) != value && !value ==> points == OpenedPoints(old(points), true, editMode.AutoSetControlPoints?)
    {
      if close != value {
        close := value;
        if close {
          if |points| % 3 != 0 {
            points := CloseSeam(points);
          }
          if editMode == AutoSetControlPoints {
            AutoSetAnchorControlPoints(0, f);
            AutoSetAnchorControlPoints(|points| - 3, f);
          }
        } else {
          if |points| % 3 == 0 {
            points := OpenSeam(points);
          }
          if editMode == AutoSetControlPoints {
            AutoSetStartAndEndControls();
          }
        }
      }
    }

    /** The `editMode` setter: switching into auto mode smooths every anchor. */
    method SetEditMode(value: EditMode, f: FloatOps)
      requires value != editMode && value == AutoSetControlPoints ==> AllAnchorsOk(|points|, close)
      modifies this
      ensures editMode == value && close == old(close)
      ensures old(editMode) != value && value == AutoSetControlPoints ==> points == AutoSetAll(old(points), close, f)
      ensures !(old(editMode) != value && value == AutoSetControlPoints) ==> points == old(points)
    {
      if editMode != value {
        editMode := value;
        if editMode == AutoSetControlPoints {
          AutoSetAllControlPoints(f);
        }
      }
    }

    /** `AddSegment(anchorPos)`. */
    method AddSegment(anchorPos: Vec3, f: FloatOps)
      requires AddOk(|points|, close, editMode.AutoSetControlPoints?)
      modifies this
      ensures close == old(close) && editMode == old(editMode)
      ensures points == AddedPoints(old(points), close, anchorPos, editMode.AutoSetControlPoints?, f)
    {
      points := AppendSegment(points, anchorPos);
      if editMode == AutoSetControlPoints {
        AutoSetAllAffectedControlPoints(|points| - 1, f);
      }
    }

    /** `SplitSegment(anchorPos, segmentIndex)`. */
    method SplitSegment(anchorPos: Vec3, segmentIndex: int, f: FloatOps)
      requires SplitOk(|points|, close, segmentIndex, editMode.AutoSetControlPoints?)
      modifies this
      ensures close == old(close) && editMode == old(editMode)
      ensures points == SplitPoints(old(points), close, anchorPos, segmentIndex, editMode.AutoSetControlPoints?, f)
    {
      points := InsertSegment(points, anchorPos, segmentIndex);
      if editMode == AutoSetControlPoints {
        AutoSetAllAffectedControlPoints(segmentIndex * 3 + 3, f);
      } else {
        AutoSetAnchorControlPoints(segmentIndex * 3 + 3, f);
      }
    }

    /** `DeleteSegment(anchorIndex)`. */
    method DeleteSegment(anchorIndex: int, f: FloatOps)
      requires DeleteAllOk(|points|, close, anchorIndex, editMode.AutoSetControlPoints?)
      modifies this
      ensures close == old(close) && editMode == old(editMode)
      ensures points == DeletedPoints(old(points), close, anchorIndex, editMode.AutoSetControlPoints?, f)
    {
      if |points| / 3 > 2 || (!close && |points| / 3 > 1) {
        if anchorIndex == 0 {
          if close {
            points := points[|points| - 1 := points[2]];
            points := points[3..];
          }
        } else if anchorIndex == |points| - 1 && !close {
          points := points[..anchorIndex - 2] + points[anchorIndex + 1..];
        } else {
          points := points[..anchorIndex - 1] + points[anchorIndex + 2..];
        }
      }
      if editMode == AutoSetControlPoints {
        AutoSetAllAffectedControlPoints(anchorIndex, f);
      }
    }

    /** `MovePoint(i, pos)`. */
    method MovePoint(i: int, pos: Vec3, f: FloatOps)
      requires MoveOk(|points|, close, i, editMode.AutoSetControlPoints?)
      modifies this
      ensures close == old(close) && editMode == old(editMode)
      ensures points == MovedPoints(old(points), close, i, pos, editMode.AutoSetControlPoints?, editMode == Tangent, f)
    {
      if i % 3 == 0 || editMode != AutoSetControlPoints {
        var deltaMove := pos.Minus(points[i]);
        points := points[i := pos];
        if editMode == AutoSetControlPoints {
          AutoSetAllAffectedControlPoints(i, f);
        } else if i % 3 == 0 {
          var n := |points|;
          if i + 1 < n || close {
            points := points[LoopIndex(n, i + 1) := points[LoopIndex(n, i + 1)].Plus(deltaMove)];
          }
          if i - 1 > -1 || close {
            points := points[LoopIndex(n, i - 1) := points[LoopIndex(n, i - 1)].Plus(deltaMove)];
          }
        } else if editMode == Tangent {
          var n := |points|;
          var nextPointIsAnchor := (i + 1) % 3 == 0;
          var correspondingControlIndex := if nextPointIsAnchor then i + 2 else i - 2;
          var anchorIndex := if nextPointIsAnchor then i + 1 else i - 1;
          if (correspondingControlIndex > -1 && correspondingControlIndex < n) || close {
            var dst := f.magnitude(points[LoopIndex(n, anchorIndex)].Minus(points[LoopIndex(n, correspondingControlIndex)]));
            var dir := f.normalized(points[LoopIndex(n, anchorIndex)].Minus(pos));
            points := points[LoopIndex(n, correspondingControlIndex) := points[LoopIndex(n, anchorIndex)].Plus(dir.Times(dst))];
          }
        }
      }
    }

    /** `CalculateEvenlySpacedPoints(out spacedPoints, spacing, resolution)`; `origin` is
        `transform.position`. An empty list fails with a one-element array. */
    method CalculateEvenlySpacedPoints(spacing: real, resolution: real, origin: Vec3, f: FloatOps)
      returns (ok: bool, spacedPoints: seq<Vec3>)
      requires |points| > 0 ==> ResampleOk(points, spacing, resolution, f)
      ensures ok <==> |points| > 0
      ensures !ok ==> spacedPoints == [Zero]
      ensures ok ==> spacedPoints == EvenlySpaced(points, spacing, resolution, origin, f)
    {
      if |points| <= 0 {
        return false, [Zero];
      }
      spacedPoints := SpacedPoints(points, spacing, resolution, origin, f);
      return true, spacedPoints;
    }

    /** `GetSplinePoints(out splinePoints, zUp, spacing, resolution)`: one frame per
        spaced point, then the seam pass in place on the returned array. */
    method GetSplinePoints(zUp: bool, spacing: real, resolution: real, origin: Vec3, f: FloatOps)
      returns (ok: bool, splinePoints: array?<Frame>)
      requires |points| > 0 ==> ResampleOk(points, spacing, resolution, f)
      ensures ok <==> |points| > 0
      ensures !ok ==> splinePoints == null
      ensures ok ==> (splinePoints != null && fresh(splinePoints)
        && splinePoints[..] == SeamCorrected(RawFrames(EvenlySpaced(points, spacing, resolution, origin, f), close, zUp, f), close, f))
    {
      splinePoints := null;
      var spacedOk, spacedPoints := CalculateEvenlySpacedPoints(spacing, resolution, origin, f);
      if !spacedOk {
        return false, null;
      }
      var frames := SplineFrames(spacedPoints, close, zUp, f);
      return true, frames;
    }

    method AutoSetAllAffectedControlPoints(updateAnchorIndex: int, f: FloatOps)
      requires AffectedAllOk(|points|, close, updateAnchorIndex)
      modifies this
      ensures close == old(close) && editMode == old(editMode)
      ensures points == AutoSetAffected(old(points), close, updateAnchorIndex, f)
    {
      var u := updateAnchorIndex;
      AffectedAllRun(|points|, close, u);
      var i := u - 3;
      while i < u + 4
        invariant AffectedRun(|points|, close, i, u + 4)
        invariant |points| == |old(points)| && close == old(close) && editMode == old(editMode)
        invariant AutoSetAffectedFrom(points, close, i, u + 4, f) == AutoSetAffected(old(points), close, u, f)
        decreases u + 4 - i
      {
        if (i > -1 && i < |points|) || close {
          AutoSetAnchorControlPoints(LoopIndex(|points|, i), f);
        }
        i := i + 3;
      }
    }

    method AutoSetAllControlPoints(f: FloatOps)
      requires AllAnchorsOk(|points|, close)
      modifies this
      ensures close == old(close) && editMode == old(editMode)
      ensures points == AutoSetAll(old(points), close, f)
    {
      var i := 0;
      while i < |points|
        invariant |points| == |old(points)| && close == old(close) && editMode == old(editMode)
        invariant AutoSetAllFrom(points, close, i, f) == AutoSetAll(old(points), close, f)
        decreases |points| - i
      {
        AutoSetAnchorControlPoints(i, f);
        i := i + 3;
      }
    }

    method AutoSetAnchorControlPoints(anchorIndex: int, f: FloatOps)
      requires AnchorOk(|points|, close, anchorIndex)
      modifies this
      ensures close == old(close) && editMode == old(editMode)
      ensures points == AutoSetAnchor(old(points), close, anchorIndex, f)
    {
      var n := |points|;
      var anchorPos := points[anchorIndex];
      var dir := Zero;
      var neighbourDistance := [0.0, 0.0];
      if anchorIndex - 3 > -1 || close {
        var offset := points[LoopIndex(n, anchorIndex - 3)].Minus(anchorPos);
        dir := dir.Plus(f.normalized(offset));
        neighbourDistance := neighbourDistance[0 := f.magnitude(offset)];
      }
      if anchorIndex + 3 < n || close {
        var offset := points[LoopIndex(n, anchorIndex + 3)].Minus(anchorPos);
        dir := dir.Minus(f.normalized(offset));
        neighbourDistance := neighbourDistance[1 := -f.magnitude(offset)];
      }
      dir := f.normalized(dir);
      assert dir == ControlDirection(points, close, anchorIndex, f);
      assert neighbourDistance[0] == PrevDistance(points, close, anchorIndex, f);
      assert neighbourDistance[1] == NextDistance(points, close, anchorIndex, f);
      ghost var handles := [anchorPos.Plus(dir.Times(neighbourDistance[0]).Times(0.5)),
                            anchorPos.Plus(dir.Times(neighbourDistance[1]).Times(0.5))];
      ghost var first := PlaceControl(points, close, anchorIndex - 1, handles[0]);
      ghost var second := PlaceControl(first, close, anchorIndex + 1, handles[1]);
      assert second == AutoSetAnchor(points, close, anchorIndex, f);
      for i := 0 to 2
        invariant |points| == n && close == old(close) && editMode == old(editMode)
        invariant i == 0 ==> points == old(points)
        invariant i == 1 ==> points == first
        invariant i == 2 ==> points == second
      {
        var controlIndex := anchorIndex + i * 2 - 1;
        assert anchorPos.Plus(dir.Times(neighbourDistance[i]).Times(0.5)) == handles[i];
        if (controlIndex > -1 && controlIndex < n) || close {
          points := points[LoopIndex(n, controlIndex) := anchorPos.Plus(dir.Times(neighbourDistance[i]).Times(0.5))];
        }
      }
    }

    method AutoSetStartAndEndControls()
      requires |points| >= 4
      modifies this
      ensures close == old(close) && editMode == old(editMode)
      ensures points == AutoSetStartAndEnd(old(points))
    {
      points := points[1 := Midpoint(points[0], points[3])];
      points := points[|points| - 2 := Midpoint(points[|points| - 1], points[|points| - 4])];
    }
  }
}
