/** `CalculateEvenlySpacedPoints` (Runtime/Spline.cs and Script/Runtime/Path.cs): a walk
    along every cubic segment in small parameter steps that emits a point each time the
    travelled distance since the last emitted point reaches `spacing`. The walk state is
    the list of emitted points, the previous point on the curve and the distance
    travelled since the last emission; the functions here define the walk one loop at a
    time, and the class methods run the nested loops against them. */
module Resampling {
  import opened Geometry
  import opened ControlPolygon
  import Arith

  /** The three variables the loops update: `evenlySpacedPoints`, `previousPoint` and
      `dstSinceLastEvenPoint`. */
  datatype Walk = Walk(emitted: seq<Vec3>, previous: Vec3, sinceLast: real)

  /** `estimatedCurveLength`: the chord plus half the control-net length. */
  function EstimatedLength(p: seq<Vec3>, f: FloatOps): real
    requires |p| == 4
  {
    var controlNetLength := Distance(p[0], p[1], f) + Distance(p[1], p[2], f) + Distance(p[2], p[3], f);
    Distance(p[0], p[3], f) + controlNetLength / 2.0
  }

  /** `divisions = Mathf.CeilToInt(estimatedCurveLength * resolution * 10)`. */
  function Divisions(p: seq<Vec3>, resolution: real, f: FloatOps): int
    requires |p| == 4
  {
    Arith.CeilToInt(EstimatedLength(p, f) * resolution * 10.0)
  }

  /** The walk terminates: a positive spacing whenever there is a segment to walk, and at
      least one division per segment. */
  predicate ResampleOk(pts: seq<Vec3>, spacing: real, resolution: real, f: FloatOps) {
    (SegmentCount(pts) > 0 ==> spacing > 0.0)
    && forall s :: 0 <= s < SegmentCount(pts) ==> Divisions(SegmentPoints(pts, s), resolution, f) >= 1
  }

  /** Every segment of a list that `ResampleOk` admits has at least one division. */
  lemma SegmentDivisions(pts: seq<Vec3>, s: int, spacing: real, resolution: real, f: FloatOps)
    requires ResampleOk(pts, spacing, resolution, f) && 0 <= s < SegmentCount(pts)
    ensures spacing > 0.0 && Divisions(SegmentPoints(pts, s), resolution, f) >= 1
  {
  }

  lemma FloorStep(x: real, s: real)
    requires s > 0.0 && x >= s
    ensures ((x - s) / s).Floor == (x / s).Floor - 1
  {
    calc {
      (x - s) / s;
      x / s - s / s;
      x / s - 1.0;
    }
  }

  /** The inner loop's measure stays positive while it runs. */
  lemma FloorPositive(x: real, s: real)
    requires s > 0.0 && x >= s
    ensures (x / s).Floor >= 1
  {
    assert x / s >= s / s == 1.0;
  }

  lemma FractionBelowOne(x: real, s: real)
    requires s > 0.0 && 0.0 <= x < s
    ensures (x / s).Floor == 0
  {
    calc {
      x / s;
    <  s / s;
    ==  1.0;
    }
  }

  /** The inner `while (dstSinceLastEvenPoint >= spacing)` loop after the curve point
      `point`: each pass emits the point `overshoot` back from `point` towards the
      previous point (shifted by `origin`), and keeps the overshoot as the new distance. */
  function EmitEven(w: Walk, point: Vec3, spacing: real, origin: Vec3, f: FloatOps): (r: Walk)
    requires spacing > 0.0
    ensures r.sinceLast < spacing
    ensures w.sinceLast < spacing ==> r == w
    decreases (w.sinceLast / spacing).Floor
  {
    if w.sinceLast >= spacing then
      FloorStep(w.sinceLast, spacing);
      var overshootDst := w.sinceLast - spacing;
      var newEvenlySpacedPoint := point.Plus(f.normalized(w.previous.Minus(point)).Times(overshootDst));
      EmitEven(Walk(w.emitted + [origin.Plus(newEvenlySpacedPoint)], newEvenlySpacedPoint, overshootDst),
               point, spacing, origin, f)
    else
      w
  }

  /** The inner loop only appends to the emitted points. */
  lemma {:induction false} EmitEvenExtends(w: Walk, point: Vec3, spacing: real, origin: Vec3, f: FloatOps)
    requires spacing > 0.0
    ensures w.emitted <= EmitEven(w, point, spacing, origin, f).emitted
    decreases (w.sinceLast / spacing).Floor
  {
    if w.sinceLast >= spacing {
      FloorStep(w.sinceLast, spacing);
      var overshootDst := w.sinceLast - spacing;
      var q := point.Plus(f.normalized(w.previous.Minus(point)).Times(overshootDst));
      var w1 := Walk(w.emitted + [origin.Plus(q)], q, overshootDst);
      EmitEvenExtends(w1, point, spacing, origin, f);
    }
  }

  /** The inner loop on the distance alone: how many times `spacing` can be taken off
      `x` while `x >= spacing` ... */
  function DrainCount(x: real, s: real): nat
    requires s > 0.0
    decreases (x / s).Floor
  {
    if x >= s then FloorStep(x, s); 1 + DrainCount(x - s, s) else 0
  }

  /** ... and what is left of `x` afterwards. */
  function DrainRest(x: real, s: real): real
    requires s > 0.0
    decreases (x / s).Floor
  {
    if x >= s then FloorStep(x, s); DrainRest(x - s, s) else x
  }

  /** The inner loop emits `DrainCount` points and leaves `DrainRest` as the distance
      (by induction on the count `n`). */
  lemma {:induction false} EmitEvenDrains(w: Walk, point: Vec3, spacing: real, origin: Vec3, f: FloatOps, n: nat)
    requires spacing > 0.0 && n == DrainCount(w.sinceLast, spacing)
    ensures |EmitEven(w, point, spacing, origin, f).emitted| == |w.emitted| + n
    ensures EmitEven(w, point, spacing, origin, f).sinceLast == DrainRest(w.sinceLast, spacing)
    decreases n
  {
    if w.sinceLast >= spacing {
      var overshootDst := w.sinceLast - spacing;
      var q := point.Plus(f.normalized(w.previous.Minus(point)).Times(overshootDst));
      var w1 := Walk(w.emitted + [origin.Plus(q)], q, overshootDst);
      assert EmitEven(w, point, spacing, origin, f) == EmitEven(w1, point, spacing, origin, f);
      EmitEvenDrains(w1, point, spacing, origin, f, n - 1);
    }
  }

  /** `c * s` as `c` repeated additions, which keeps the induction below linear. */
  function Multiple(c: nat, s: real): real {
    if c == 0 then 0.0 else Multiple(c - 1, s) + s
  }

  lemma {:induction false} MultipleIsProduct(c: nat, s: real)
    ensures Multiple(c, s) == c as real * s
  {
    if c > 0 {
      MultipleIsProduct(c - 1, s);
    }
  }

  /** From `x >= 0` the remainder lies in `[0, s)` and is `x` minus `s` once per count
      (by induction on the count `n`). */
  lemma {:induction false} DrainRemainder(x: real, s: real, n: nat)
    requires s > 0.0 && x >= 0.0 && n == DrainCount(x, s)
    ensures 0.0 <= DrainRest(x, s) < s
    ensures DrainRest(x, s) == x - Multiple(n, s)
    decreases n
  {
    if x >= s {
      DrainRemainder(x - s, s, n - 1);
    }
  }

  /** From a non-negative distance the inner loop emits `floor(distance / spacing)`
      points and leaves the remainder `distance - count * spacing`, in `[0, spacing)`. */
  lemma EmitEvenCount(w: Walk, point: Vec3, spacing: real, origin: Vec3, f: FloatOps)
    requires spacing > 0.0 && w.sinceLast >= 0.0
    ensures var r := EmitEven(w, point, spacing, origin, f);
      && 0.0 <= r.sinceLast < spacing
      && |r.emitted| - |w.emitted| == (w.sinceLast / spacing).Floor
      && r.sinceLast == w.sinceLast - (|r.emitted| - |w.emitted|) as real * spacing
  {
    var r := EmitEven(w, point, spacing, origin, f);
    var n := DrainCount(w.sinceLast, spacing);
    EmitEvenDrains(w, point, spacing, origin, f, n);
    DrainRemainder(w.sinceLast, spacing, n);
    QuotientFacts(w.sinceLast, spacing, |r.emitted| - |w.emitted|, r.sinceLast);
  }

  /** `x == c * s + rest` with `0 <= rest < s`: `c` is the floor of `x / s`. */
  lemma QuotientFacts(x: real, s: real, c: nat, rest: real)
    requires s > 0.0 && 0.0 <= rest < s && rest == x - Multiple(c, s)
    ensures (x / s).Floor == c && rest == x - c as real * s
  {
    MultipleIsProduct(c, s);
    FloorOfQuotient(x, s, c, rest);
  }

  /** `x == c * s + rest` with `0 <= rest < s` makes `c` the floor of `x / s`. */
  lemma FloorOfQuotient(x: real, s: real, c: int, rest: real)
    requires s > 0.0 && 0.0 <= rest < s && rest == x - c as real * s
    ensures (x / s).Floor == c
  {
    assert x / s == c as real + rest / s;
    FractionBelowOne(rest, s);
  }

  /** The sample of the `t` loop taken when `t == k / d` before the increment: the curve
      point at `(k + 1) / d`. */
  function Sample(p: seq<Vec3>, k: int, d: int, f: FloatOps): Vec3
    requires |p| == 4 && d >= 1
  {
    f.evaluateCubic(p[0], p[1], p[2], p[3], (k + 1) as real / d as real)
  }

  /** One pass of `while (t <= 1)` with `t == k / d`: sample the curve, add the distance
      from the previous point, emit, and make the sample the previous point. */
  function SampleStep(w: Walk, p: seq<Vec3>, k: int, d: int, spacing: real, origin: Vec3, f: FloatOps): Walk
    requires |p| == 4 && d >= 1 && spacing > 0.0
  {
    var pointOnCurve := Sample(p, k, d, f);
    var w1 := EmitEven(Walk(w.emitted, w.previous, w.sinceLast + Distance(w.previous, pointOnCurve, f)),
                       pointOnCurve, spacing, origin, f);
    Walk(w1.emitted, pointOnCurve, w1.sinceLast)
  }

  /** The `t` loop of one segment from `t == k / d` on. In exact arithmetic it samples
      `t = 1/d, 2/d, ..., (d + 1)/d`: `d + 1` samples, the last one past the segment's end. */
  function WalkSegment(w: Walk, p: seq<Vec3>, k: nat, d: int, spacing: real, origin: Vec3, f: FloatOps): (r: Walk)
    requires |p| == 4 && d >= 1 && spacing > 0.0
    ensures k <= d ==> r.previous == Sample(p, d, d, f)
    ensures k > d ==> r == w
    decreases d + 1 - k
  {
    if k <= d then
      WalkSegment(SampleStep(w, p, k, d, spacing, origin, f), p, k + 1, d, spacing, origin, f)
    else
      w
  }

  /** The last sample of a segment's `t` loop lies past the segment's end: `t` is increased
      before the curve is evaluated, so the final pass with `t == 1` evaluates the cubic at
      `(d + 1) / d > 1`, and that extrapolated point is what the next segment starts from. */
  lemma WalkSegmentOvershoots(w: Walk, p: seq<Vec3>, d: int, spacing: real, origin: Vec3, f: FloatOps)
    requires |p| == 4 && d >= 1 && spacing > 0.0
    ensures WalkSegment(w, p, 0, d, spacing, origin, f).previous
      == f.evaluateCubic(p[0], p[1], p[2], p[3], (d + 1) as real / d as real)
    ensures (d + 1) as real / d as real > 1.0
  {
    assert (d + 1) as real / d as real == 1.0 + 1.0 / d as real;
  }

  /** The `t` loop only appends to the emitted points. */
  lemma {:induction false} WalkSegmentExtends(w: Walk, p: seq<Vec3>, k: nat, d: int, spacing: real, origin: Vec3, f: FloatOps)
    requires |p| == 4 && d >= 1 && spacing > 0.0
    ensures w.emitted <= WalkSegment(w, p, k, d, spacing, origin, f).emitted
    decreases d + 1 - k
  {
    if k <= d {
      var pointOnCurve := Sample(p, k, d, f);
      var w0 := Walk(w.emitted, w.previous, w.sinceLast + Distance(w.previous, pointOnCurve, f));
      EmitEvenExtends(w0, pointOnCurve, spacing, origin, f);
      var w1 := SampleStep(w, p, k, d, spacing, origin, f);
      WalkSegmentExtends(w1, p, k + 1, d, spacing, origin, f);
    }
  }

  /** One pass of the `t` loop, as `WalkSegmentPoints` performs it, is one step of `WalkSegment`. */
  lemma WalkSegmentStep(w: Walk, p: seq<Vec3>, k: nat, d: int, spacing: real, origin: Vec3, f: FloatOps,
                        t: real, emitted: Walk)
    requires |p| == 4 && d >= 1 && spacing > 0.0 && k <= d
    requires t == (k + 1) as real / d as real
    requires emitted == EmitEven(Walk(w.emitted, w.previous, w.sinceLast + Distance(w.previous, f.evaluateCubic(p[0], p[1], p[2], p[3], t), f)),
                                 f.evaluateCubic(p[0], p[1], p[2], p[3], t), spacing, origin, f)
    ensures WalkSegment(w, p, k, d, spacing, origin, f)
      == WalkSegment(Walk(emitted.emitted, f.evaluateCubic(p[0], p[1], p[2], p[3], t), emitted.sinceLast), p, k + 1, d, spacing, origin, f)
  {
  }

  /** The `for (segmentIndex ...)` loop from segment `s` on. */
  function WalkFrom(w: Walk, pts: seq<Vec3>, s: nat, spacing: real, resolution: real, origin: Vec3, f: FloatOps): (r: Walk)
    requires ResampleOk(pts, spacing, resolution, f)
    decreases SegmentCount(pts) - s
  {
    if s < SegmentCount(pts) then
      WalkFrom(SegmentWalk(w, pts, s, spacing, resolution, origin, f), pts, s + 1, spacing, resolution, origin, f)
    else
      w
  }

  /** One pass of the segment loop: the `t` loop over segment `s` with that segment's
      division count. */
  function SegmentWalk(w: Walk, pts: seq<Vec3>, s: nat, spacing: real, resolution: real, origin: Vec3, f: FloatOps): Walk
    requires ResampleOk(pts, spacing, resolution, f) && s < SegmentCount(pts)
  {
    var p := SegmentPoints(pts, s);
    SegmentDivisions(pts, s, spacing, resolution, f);
    WalkSegment(w, p, 0, Divisions(p, resolution, f), spacing, origin, f)
  }

  /** The segment loop only appends to the emitted points. */
  lemma {:induction false} WalkFromExtends(w: Walk, pts: seq<Vec3>, s: nat, spacing: real, resolution: real, origin: Vec3, f: FloatOps)
    requires ResampleOk(pts, spacing, resolution, f)
    ensures w.emitted <= WalkFrom(w, pts, s, spacing, resolution, origin, f).emitted
    decreases SegmentCount(pts) - s
  {
    if s < SegmentCount(pts) {
      SegmentWalkExtends(w, pts, s, spacing, resolution, origin, f);
      WalkFromExtends(SegmentWalk(w, pts, s, spacing, resolution, origin, f), pts, s + 1, spacing, resolution, origin, f);
    }
  }

  lemma SegmentWalkExtends(w: Walk, pts: seq<Vec3>, s: nat, spacing: real, resolution: real, origin: Vec3, f: FloatOps)
    requires ResampleOk(pts, spacing, resolution, f) && s < SegmentCount(pts)
    ensures w.emitted <= SegmentWalk(w, pts, s, spacing, resolution, origin, f).emitted
  {
    var p := SegmentPoints(pts, s);
    SegmentDivisions(pts, s, spacing, resolution, f);
    WalkSegmentExtends(w, p, 0, Divisions(p, resolution, f), spacing, origin, f);
  }

  /** The state before the segment loop: `origin + points[0]` emitted, `points[0]` as the
      previous point, no distance travelled. */
  function StartWalk(pts: seq<Vec3>, origin: Vec3): Walk
    requires |pts| > 0
  {
    Walk([origin.Plus(pts[0])], pts[0], 0.0)
  }

  /** The points `CalculateEvenlySpacedPoints` returns for a non-empty list; `origin` is
      the component's `transform.position` for `Spline` and the zero vector for `Path`. */
  function EvenlySpaced(pts: seq<Vec3>, spacing: real, resolution: real, origin: Vec3, f: FloatOps): (r: seq<Vec3>)
    requires |pts| > 0 && ResampleOk(pts, spacing, resolution, f)
    ensures |r| >= 1 && r[0] == origin.Plus(pts[0])
  {
    var w := WalkFrom(StartWalk(pts, origin), pts, 0, spacing, resolution, origin, f);
    WalkFromExtends(StartWalk(pts, origin), pts, 0, spacing, resolution, origin, f);
    assert StartWalk(pts, origin).emitted[0] == w.emitted[0];
    w.emitted
  }

  /** The body of `CalculateEvenlySpacedPoints` past its empty-list check, shared by
      `Spline` and `Path` (which passes the zero vector as `origin`). */
  method SpacedPoints(pts: seq<Vec3>, spacing: real, resolution: real, origin: Vec3, f: FloatOps) returns (spacedPoints: seq<Vec3>)
    requires |pts| > 0 && ResampleOk(pts, spacing, resolution, f)
    ensures spacedPoints == EvenlySpaced(pts, spacing, resolution, origin, f)
  {
    var evenlySpacedPoints := [origin.Plus(pts[0])];
    var previousPoint := pts[0];
    var dstSinceLastEvenPoint := 0.0;
    var segmentIndex := 0;
    ghost var goal := WalkFrom(StartWalk(pts, origin), pts, 0, spacing, resolution, origin, f);
    while segmentIndex < SegmentCount(pts)
      invariant 0 <= segmentIndex <= SegmentCount(pts)
      invariant WalkFrom(Walk(evenlySpacedPoints, previousPoint, dstSinceLastEvenPoint), pts, segmentIndex, spacing, resolution, origin, f)
        == goal
      decreases SegmentCount(pts) - segmentIndex
    {
      var p := SegmentPoints(pts, segmentIndex);
      SegmentDivisions(pts, segmentIndex, spacing, resolution, f);
      var divisions := Divisions(p, resolution, f);
      var w := WalkSegmentPoints(Walk(evenlySpacedPoints, previousPoint, dstSinceLastEvenPoint), p, divisions, spacing, origin, f);
      evenlySpacedPoints, previousPoint, dstSinceLastEvenPoint := w.emitted, w.previous, w.sinceLast;
      segmentIndex := segmentIndex + 1;
    }
    spacedPoints := evenlySpacedPoints;
  }

  /** A list with fewer than three points has no segment: the walk returns the start point alone. */
  lemma {:induction false} NoSegmentNoWalk(pts: seq<Vec3>, spacing: real, resolution: real, origin: Vec3, f: FloatOps)
    requires 0 < |pts| < 3
    ensures ResampleOk(pts, spacing, resolution, f)
    ensures EvenlySpaced(pts, spacing, resolution, origin, f) == [origin.Plus(pts[0])]
  {
    assert SegmentCount(pts) == 0;
  }

  // ---------------------------------------------------------------------------
  // The two inner loops, shared by `Spline` and `Path`

  /** The `while (dstSinceLastEvenPoint >= spacing)` loop after the curve point `point`. */
  method EmitEvenPoints(w: Walk, point: Vec3, spacing: real, origin: Vec3, f: FloatOps) returns (r: Walk)
    requires spacing > 0.0
    ensures r == EmitEven(w, point, spacing, origin, f)
  {
    var evenlySpacedPoints, previousPoint, dstSinceLastEvenPoint := w.emitted, w.previous, w.sinceLast;
    while dstSinceLastEvenPoint >= spacing
      invariant EmitEven(Walk(evenlySpacedPoints, previousPoint, dstSinceLastEvenPoint), point, spacing, origin, f)
        == EmitEven(w, point, spacing, origin, f)
      decreases (dstSinceLastEvenPoint / spacing).Floor
    {
      FloorStep(dstSinceLastEvenPoint, spacing);
      FloorPositive(dstSinceLastEvenPoint, spacing);
      var overshootDst := dstSinceLastEvenPoint - spacing;
      var newEvenlySpacedPoint := point.Plus(f.normalized(previousPoint.Minus(point)).Times(overshootDst));
      evenlySpacedPoints := evenlySpacedPoints + [origin.Plus(newEvenlySpacedPoint)];
      dstSinceLastEvenPoint := overshootDst;
      previousPoint := newEvenlySpacedPoint;
    }
    r := Walk(evenlySpacedPoints, previousPoint, dstSinceLastEvenPoint);
  }

  /** The `for (t = 0; t <= 1; t += 1 / divisions)` loop over the segment `p`. */
  method WalkSegmentPoints(w: Walk, p: seq<Vec3>, divisions: int, spacing: real, origin: Vec3, f: FloatOps)
    returns (r: Walk)
    requires |p| == 4 && divisions >= 1 && spacing > 0.0
    ensures r == WalkSegment(w, p, 0, divisions, spacing, origin, f)
  {
    var evenlySpacedPoints, previousPoint, dstSinceLastEvenPoint := w.emitted, w.previous, w.sinceLast;
    var t := 0.0;
    ghost var k := 0;
    StepStart(divisions);
    while t <= 1.0
      invariant 0 <= k <= divisions + 1
      invariant t == k as real / divisions as real
      invariant WalkSegment(Walk(evenlySpacedPoints, previousPoint, dstSinceLastEvenPoint), p, k, divisions, spacing, origin, f)
        == WalkSegment(w, p, 0, divisions, spacing, origin, f)
      decreases divisions + 1 - k
    {
      StepAdvance(t, k, divisions);
      ghost var before := Walk(evenlySpacedPoints, previousPoint, dstSinceLastEvenPoint);
      t := t + 1.0 / divisions as real;
      var pointOnCurve := f.evaluateCubic(p[0], p[1], p[2], p[3], t);
      dstSinceLastEvenPoint := dstSinceLastEvenPoint + Distance(previousPoint, pointOnCurve, f);
      var emitted := EmitEvenPoints(Walk(evenlySpacedPoints, previousPoint, dstSinceLastEvenPoint), pointOnCurve, spacing, origin, f);
      evenlySpacedPoints, dstSinceLastEvenPoint := emitted.emitted, emitted.sinceLast;
      previousPoint := pointOnCurve;
      WalkSegmentStep(before, p, k, divisions, spacing, origin, f, t, emitted);
      k := k + 1;
    }
    StepExit(t, k, divisions);
    r := Walk(evenlySpacedPoints, previousPoint, dstSinceLastEvenPoint);
  }

  // ---------------------------------------------------------------------------
  // Exact-arithmetic facts about the parameter `t`

  /** A pass of the `t` loop: `t == k / d` passed the test `t <= 1`, so `k <= d`, and
      `t += 1 / d` moves it to `(k + 1) / d`. */
  lemma StepAdvance(t: real, k: int, d: int)
    requires d >= 1 && t == k as real / d as real && t <= 1.0
    ensures k <= d && t + 1.0 / d as real == (k + 1) as real / d as real
  {
    var dr := d as real;
    assert t * dr == k as real;
    assert k as real <= dr by {
      assert t * dr <= 1.0 * dr;
    }
    assert (t + 1.0 / dr) * dr == k as real + 1.0;
  }

  /** The `t` loop ends once `t == k / d` exceeds 1: with `k <= d + 1` that is `k == d + 1`. */
  lemma StepExit(t: real, k: int, d: int)
    requires d >= 1 && t == k as real / d as real && t > 1.0 && k <= d + 1
    ensures k == d + 1
  {
    var dr := d as real;
    assert t * dr == k as real;
    assert t * dr > 1.0 * dr;
    assert k as real > dr;
  }

  /** `t = 0` is `t == 0 / d`. */
  lemma StepStart(d: int)
    requires d >= 1
    ensures 0.0 == 0 as real / d as real
  {
  }
}
