/** `Path` (Script/Runtime/Path.cs), the earlier revision of `Spline`: the same in-place
    list surgery, with a boolean auto-smoothing flag instead of an edit mode, a closed
    flag whose setter always adds or drops the two seam handles, a handle move that
    always mirrors the opposite handle, and resampling without an origin offset. */
module Path {
  import opened Geometry
  import opened ControlPolygon
  import opened Resampling

  /** The list `Path(center)` starts from: one open segment from `center + left` to
      `center + right`, with its handles at `center + (left + forward) * 0.5` and
      `center + (right - forward) * 0.5`, written out component by component. */
  function CenterPoints(center: Vec3): (r: seq<Vec3>)
    ensures |r| == 4
    ensures r[0] == center.Plus(Left) && r[3] == center.Plus(Right)
  {
    [center.Plus(Left),
     center.Plus(Vec3(-0.5, 0.0, 0.5)),
     center.Plus(Vec3(0.5, 0.0, -0.5)),
     center.Plus(Right)]
  }

  /** The starting segment is symmetric about `center`: the two anchors, and the two
      handles, are reflections of each other through it. */
  lemma CenterPointsSymmetric(center: Vec3)
    ensures Midpoint(CenterPoints(center)[0], CenterPoints(center)[3]) == center
    ensures Midpoint(CenterPoints(center)[1], CenterPoints(center)[2]) == center
  {
    MidpointOfOpposite(center, Left, Right);
    MidpointOfOpposite(center, Vec3(-0.5, 0.0, 0.5), Vec3(0.5, 0.0, -0.5));
  }

  lemma MidpointOfOpposite(c: Vec3, d: Vec3, e: Vec3)
    requires e == Vec3(-d.x, -d.y, -d.z)
    ensures Midpoint(c.Plus(d), c.Plus(e)) == c
  {
  }

  /** The starting list is one open segment whose anchors are exactly the two end points. */
  lemma CenterPointsAnchors(center: Vec3)
    ensures WellFormed(CenterPoints(center), false) && SegmentCount(CenterPoints(center)) == 1
    ensures Anchors(CenterPoints(center)) == [center.Plus(Left), center.Plus(Right)]
  {
    var r := CenterPoints(center);
    assert |Anchors(r)| == 2;
    assert Anchors(r)[1] == r[3];
  }

  /** Resampling a `Path` emits curve points without an offset: the shared walk with the
      zero vector as origin, since adding the zero vector changes nothing. Used to show
      that the resampled list of a `Path` starts at its first control point. */
  lemma ZeroOrigin(v: Vec3)
    ensures Zero.Plus(v) == v
  {
  }

  class Path {
    var points: seq<Vec3>
    var isClosed: bool
    var autoSetControlPoints: bool

    /** `Path(Vector3 center)`. */
    constructor FromCenter(center: Vec3)
      ensures points == CenterPoints(center) && !isClosed && !autoSetControlPoints
    {
      points := CenterPoints(center);
      isClosed := false;
      autoSetControlPoints := false;
    }

    /** `Path(List<Vector3> points)`. */
    constructor FromPoints(pts: seq<Vec3>)
      ensures points == pts && !isClosed && !autoSetControlPoints
    {
      points := pts;
      isClosed := false;
      autoSetControlPoints := false;
    }

    /** `Path(Path path)`: a copy of the list and of both flags. */
    constructor Copy(path: Path)
      ensures points == path.points && isClosed == path.isClosed
      ensures autoSetControlPoints == path.autoSetControlPoints
    {
      points := path.points;
      isClosed := path.isClosed;
      autoSetControlPoints := path.autoSetControlPoints;
    }

    /** The `IsClosed` setter. */
    method SetIsClosed(value: bool, f: FloatOps)
      requires value != isClosed && value ==> CloseOk(|points|, false, autoSetControlPoints)
      requires value != isClosed && !value ==> OpenOk(|points|, false, autoSetControlPoints)
      modifies this
      ensures isClosed == value && autoSetControlPoints == old(autoSetControlPoints)
      ensures old(isClosed) == value ==> points == old(points)
      ensures old(isClosed) != value && value ==> points == ClosedPoints(old(points), false, autoSetControlPoints, f)
      ensures old(isClosed) != value && !value ==> points == OpenedPoints(old(points), false, autoSetControlPoints)
    {
      if isClosed != value {
        isClosed := value;
        if isClosed {
          points := CloseSeam(points);
          if autoSetControlPoints {
            AutoSetAnchorControlPoints(0, f);
            AutoSetAnchorControlPoints(|points| - 3, f);
          }
        } else {
          points := OpenSeam(points);
          if autoSetControlPoints {
            AutoSetStartAndEndControls();
          }
        }
      }
    }

    /** The `AutoSetControlPoints` setter: switching it on smooths every anchor. */
    method SetAutoSetControlPoints(value: bool, f: FloatOps)
      requires value && !autoSetControlPoints ==> AllAnchorsOk(|points|, isClosed)
      modifies this
      ensures autoSetControlPoints == value && isClosed == old(isClosed)
      ensures value && !old(autoSetControlPoints) ==> points == AutoSetAll(old(points), isClosed, f)
      ensures !(value && !old(autoSetControlPoints)) ==> points == old(points)
    {
      if autoSetControlPoints != value {
        autoSetControlPoints := value;
        if autoSetControlPoints {
          AutoSetAllControlPoints(f);
        }
      }
    }

    /** `AddSegment(anchorPos)`. */
    method AddSegment(anchorPos: Vec3, f: FloatOps)
      requires AddOk(|points|, isClosed, autoSetControlPoints)
      modifies this
      ensures isClosed == old(isClosed) && autoSetControlPoints == old(autoSetControlPoints)
      ensures points == AddedPoints(old(points), isClosed, anchorPos, autoSetControlPoints, f)
    {
      points := AppendSegment(points, anchorPos);
      if autoSetControlPoints {
        AutoSetAllAffectedControlPoints(|points| - 1, f);
      }
    }

    /** `SplitSegment(anchorPos, segmentIndex)`. */
    method SplitSegment(anchorPos: Vec3, segmentIndex: int, f: FloatOps)
      requires SplitOk(|points|, isClosed, segmentIndex, autoSetControlPoints)
      modifies this
      ensures isClosed == old(isClosed) && autoSetControlPoints == old(autoSetControlPoints)
      ensures points == SplitPoints(old(points), isClosed, anchorPos, segmentIndex, autoSetControlPoints, f)
    {
      points := InsertSegment(points, anchorPos, segmentIndex);
      if autoSetControlPoints {
        AutoSetAllAffectedControlPoints(segmentIndex * 3 + 3, f);
      } else {
        AutoSetAnchorControlPoints(segmentIndex * 3 + 3, f);
      }
    }

    /** `DeleteSegment(anchorIndex)`. */
    method DeleteSegment(anchorIndex: int, f: FloatOps)
      requires DeleteAllOk(|points|, isClosed, anchorIndex, autoSetControlPoints)
      modifies this
      ensures isClosed == old(isClosed) && autoSetControlPoints == old(autoSetControlPoints)
      ensures points == DeletedPoints(old(points), isClosed, anchorIndex, autoSetControlPoints, f)
    {
      if |points| / 3 > 2 || (!isClosed && |points| / 3 > 1) {
        if anchorIndex == 0 {
          if isClosed {
            points := points[|points| - 1 := points[2]];
            points := points[3..];
          }
        } else if anchorIndex == |points| - 1 && !isClosed {
          points := points[..anchorIndex - 2] + points[anchorIndex + 1..];
        } else {
          points := points[..anchorIndex - 1] + points[anchorIndex + 2..];
        }
      }
      if autoSetControlPoints {
        AutoSetAllAffectedControlPoints(anchorIndex, f);
      }
    }

    /** `MovePoint(i, pos)`: a handle move always mirrors the opposite handle. */
    method MovePoint(i: int, pos: Vec3, f: FloatOps)
      requires MoveOk(|points|, isClosed, i, autoSetControlPoints)
      modifies this
      ensures isClosed == old(isClosed) && autoSetControlPoints == old(autoSetControlPoints)
      ensures points == MovedPoints(old(points), isClosed, i, pos, autoSetControlPoints, true, f)
    {
      if i % 3 == 0 || !autoSetControlPoints {
        var deltaMove := pos.Minus(points[i]);
        points := points[i := pos];
        if autoSetControlPoints {
          AutoSetAllAffectedControlPoints(i, f);
        } else if i % 3 == 0 {
          var n := |points|;
          if i + 1 < n || isClosed {
            points := points[LoopIndex(n, i + 1) := points[LoopIndex(n, i + 1)].Plus(deltaMove)];
          }
          if i - 1 > -1 || isClosed {
            points := points[LoopIndex(n, i - 1) := points[LoopIndex(n, i - 1)].Plus(deltaMove)];
          }
        } else {
          var n := |points|;
          var nextPointIsAnchor := (i + 1) % 3 == 0;
          var correspondingControlIndex := if nextPointIsAnchor then i + 2 else i - 2;
          var anchorIndex := if nextPointIsAnchor then i + 1 else i - 1;
          if (correspondingControlIndex > -1 && correspondingControlIndex < n) || isClosed {
            var dst := f.magnitude(points[LoopIndex(n, anchorIndex)].Minus(points[LoopIndex(n, correspondingControlIndex)]));
            var dir := f.normalized(points[LoopIndex(n, anchorIndex)].Minus(pos));
            points := points[LoopIndex(n, correspondingControlIndex) := points[LoopIndex(n, anchorIndex)].Plus(dir.Times(dst))];
          }
        }
      }
    }

    /** `CalculateEvenlySpacedPoints(out spacedPoints, spacing, resolution)`: the shared walk
        with no origin offset. An empty list fails with a one-element array. */
    method CalculateEvenlySpacedPoints(spacing: real, resolution: real, f: FloatOps)
      returns (ok: bool, spacedPoints: seq<Vec3>)
      requires |points| > 0 ==> ResampleOk(points, spacing, resolution, f)
      ensures ok <==> |points| > 0
      ensures !ok ==> spacedPoints == [Zero]
      ensures ok ==> spacedPoints == EvenlySpaced(points, spacing, resolution, Zero, f)
      ensures ok ==> spacedPoints[0] == points[0]
    {
      if |points| <= 0 {
        return false, [Zero];
      }
      spacedPoints := SpacedPoints(points, spacing, resolution, Zero, f);
      ZeroOrigin(points[0]);
      return true, spacedPoints;
    }

    method AutoSetAllAffectedControlPoints(updateAnchorIndex: int, f: FloatOps)
      requires AffectedAllOk(|points|, isClosed, updateAnchorIndex)
      modifies this
      ensures isClosed == old(isClosed) && autoSetControlPoints == old(autoSetControlPoints)
      ensures points == AutoSetAffected(old(points), isClosed, updateAnchorIndex, f)
    {
      var u := updateAnchorIndex;
      AffectedAllRun(|points|, isClosed, u);
      var i := u - 3;
      while i < u + 4
        invariant AffectedRun(|points|, isClosed, i, u + 4)
        invariant |points| == |old(points)| && isClosed == old(isClosed) && autoSetControlPoints == old(autoSetControlPoints)
        invariant AutoSetAffectedFrom(points, isClosed, i, u + 4, f) == AutoSetAffected(old(points), isClosed, u, f)
        decreases u + 4 - i
      {
        if (i > -1 && i < |points|) || isClosed {
          AutoSetAnchorControlPoints(LoopIndex(|points|, i), f);
        }
        i := i + 3;
      }
    }

    method AutoSetAllControlPoints(f: FloatOps)
      requires AllAnchorsOk(|points|, isClosed)
      modifies this
      ensures isClosed == old(isClosed) && autoSetControlPoints == old(autoSetControlPoints)
      ensures points == AutoSetAll(old(points), isClosed, f)
    {
      var i := 0;
      while i < |points|
        invariant |points| == |old(points)| && isClosed == old(isClosed) && autoSetControlPoints == old(autoSetControlPoints)
        invariant AutoSetAllFrom(points, isClosed, i, f) == AutoSetAll(old(points), isClosed, f)
        decreases |points| - i
      {
        AutoSetAnchorControlPoints(i, f);
        i := i + 3;
      }
    }

    method AutoSetAnchorControlPoints(anchorIndex: int, f: FloatOps)
      requires AnchorOk(|points|, isClosed, anchorIndex)
      modifies this
      ensures isClosed == old(isClosed) && autoSetControlPoints == old(autoSetControlPoints)
      ensures points == AutoSetAnchor(old(points), isClosed, anchorIndex, f)
    {
      var n := |points|;
      var anchorPos := points[anchorIndex];
      var dir := Zero;
      var neighbourDistance := [0.0, 0.0];
      if anchorIndex - 3 > -1 || isClosed {
        var offset := points[LoopIndex(n, anchorIndex - 3)].Minus(anchorPos);
        dir := dir.Plus(f.normalized(offset));
        neighbourDistance := neighbourDistance[0 := f.magnitude(offset)];
      }
      if anchorIndex + 3 < n || isClosed {
        var offset := points[LoopIndex(n, anchorIndex + 3)].Minus(anchorPos);
        dir := dir.Minus(f.normalized(offset));
        neighbourDistance := neighbourDistance[1 := -f.magnitude(offset)];
      }
      dir := f.normalized(dir);
      assert dir == ControlDirection(points, isClosed, anchorIndex, f);
      assert neighbourDistance[0] == PrevDistance(points, isClosed, anchorIndex, f);
      assert neighbourDistance[1] == NextDistance(points, isClosed, anchorIndex, f);
      ghost var handles := [anchorPos.Plus(dir.Times(neighbourDistance[0]).Times(0.5)),
                            anchorPos.Plus(dir.Times(neighbourDistance[1]).Times(0.5))];
      ghost var first := PlaceControl(points, isClosed, anchorIndex - 1, handles[0]);
      ghost var second := PlaceControl(first, isClosed, anchorIndex + 1, handles[1]);
      assert second == AutoSetAnchor(points, isClosed, anchorIndex, f);
      for i := 0 to 2
        invariant |points| == n && isClosed == old(isClosed) && autoSetControlPoints == old(autoSetControlPoints)
        invariant i == 0 ==> points == old(points)
        invariant i == 1 ==> points == first
        invariant i == 2 ==> points == second
      {
        var controlIndex := anchorIndex + i * 2 - 1;
        assert anchorPos.Plus(dir.Times(neighbourDistance[i]).Times(0.5)) == handles[i];
        if (controlIndex > -1 && controlIndex < n) || isClosed {
          points := points[LoopIndex(n, controlIndex) := anchorPos.Plus(dir.Times(neighbourDistance[i]).Times(0.5))];
        }
      }
    }

    method AutoSetStartAndEndControls()
      requires |points| >= 4
      modifies this
      ensures isClosed == old(isClosed) && autoSetControlPoints == old(autoSetControlPoints)
      ensures points == AutoSetStartAndEnd(old(points))
    {
      points := points[1 := Midpoint(points[0], points[3])];
      points := points[|points| - 2 := Midpoint(points[|points| - 1], points[|points| - 4])];
    }
  }
}
