/** `Primitive` (Runtime/Primitive.cs): the starting point lists for a line, a circle and
    a regular polygon. Each generator fills a queue, then moves the queue's head to its
    tail, so that the list starts on an anchor. A queue is modelled as a `seq` that the
    methods append to; `ToArray` is the identity on it. */
module Primitive {
  import opened Geometry
  import opened Arith

  /** `Mathf.PI`, the single-precision value of pi. */
  const Pi: real := 3.14159274

  /** The queue's `Dequeue` then `Enqueue` of the head: a left rotation by one. */
  function RotateLeft(s: seq<Vec3>): (r: seq<Vec3>)
    requires |s| > 0
    ensures |r| == |s|
    ensures forall k :: 0 <= k < |s| - 1 ==> r[k] == s[k + 1]
    ensures r[|s| - 1] == s[0]
  {
    s[1..] + [s[0]]
  }

  // ---------------------------------------------------------------- Line

  /** The first anchor of `Line(center, size)`: `center + left * (size * 0.5)`. */
  function LineStart(center: Vec3, size: real): Vec3 {
    center.Plus(Left.Times(size * 0.5))
  }

  /** The second anchor of `Line(center, size)`: `center + left * (size * 0.5) * -1`. */
  function LineEnd(center: Vec3, size: real): Vec3 {
    center.Plus(Left.Times(size * 0.5).Times(-1.0))
  }

  /** `Line`: four points, the first two at one end and the last two at the other, so the
      one segment is straight; the ends lie `size` apart along the x axis, centred on
      `center`. */
  method Line(center: Vec3, size: real) returns (r: seq<Vec3>)
    ensures |r| == 4
    ensures r[0] == r[1] == LineStart(center, size)
    ensures r[2] == r[3] == LineEnd(center, size)
    ensures Midpoint(r[0], r[3]) == center
    ensures r[3].Minus(r[0]) == Vec3(size, 0.0, 0.0)
  {
    var half := size * 0.5;
    var points: seq<Vec3> := [];
    points := points + [center.Plus(Left.Times(half))];
    points := points + [center.Plus(Left.Times(half))];
    points := points + [center.Plus(Left.Times(half).Times(-1.0))];
    points := points + [center.Plus(Left.Times(half).Times(-1.0))];
    r := points;
  }

  // ------------------------------------------------------------ angles

  /** The angle offset shared by `Circle` and `Polygon`: a quarter turn, plus half a
      step when the number of points is even. */
  function AngleOffset(n: int): real
    requires n != 0
  {
    Pi / 2.0 + (if Rem(n, 2) == 0 then Pi / (n as real) else 0.0)
  }

  /** The angle of point `i` of `n`: `PI * 2 * i / n + angleOffset`. */
  function Theta(n: int, i: int): real
    requires n != 0
  {
    Pi * 2.0 * (i as real) / (n as real) + AngleOffset(n)
  }

  // ---------------------------------------------------------------- Circle

  /** The handle length that approximates a circular arc: `tan(PI / (2n)) * 4 / 3 * radius`. */
  function ControlSize(n: int, radius: real, f: FloatOps): real
    requires n != 0
  {
    f.tan(Pi / ((2 * n) as real)) * 4.0 / 3.0 * radius
  }

  /** Anchor `i` of the circle: `center + (cos, 0, sin) * radius * -1`. */
  function CircleAnchor(center: Vec3, n: int, radius: real, f: FloatOps, i: int): Vec3
    requires n != 0
  {
    var theta := Theta(n, i);
    center.Plus(Vec3(f.cos(theta), 0.0, f.sin(theta)).Times(radius).Times(-1.0))
  }

  /** The tangent offset of anchor `i`: `(sin, 0, -cos) * controlSize`. */
  function CircleHandle(n: int, radius: real, f: FloatOps, i: int): Vec3
    requires n != 0
  {
    var theta := Theta(n, i);
    Vec3(f.sin(theta), 0.0, -f.cos(theta)).Times(ControlSize(n, radius, f))
  }

  /** The control before anchor `i`. */
  function CircleBefore(center: Vec3, n: int, radius: real, f: FloatOps, i: int): Vec3
    requires n != 0
  {
    CircleAnchor(center, n, radius, f, i).Plus(CircleHandle(n, radius, f, i).Times(-1.0))
  }

  /** The control after anchor `i`. */
  function CircleAfter(center: Vec3, n: int, radius: real, f: FloatOps, i: int): Vec3
    requires n != 0
  {
    CircleAnchor(center, n, radius, f, i).Plus(CircleHandle(n, radius, f, i))
  }

  /** The queue after the first `k` turns of `Circle`'s loop. */
  function CircleQueue(center: Vec3, n: int, radius: real, f: FloatOps, k: nat): (r: seq<Vec3>)
    requires n != 0
    ensures |r| == 3 * k
  {
    if k == 0 then []
    else CircleQueue(center, n, radius, f, k - 1)
         + [CircleBefore(center, n, radius, f, k - 1),
            CircleAnchor(center, n, radius, f, k - 1),
            CircleAfter(center, n, radius, f, k - 1)]
  }

  /** Turn `j` of the loop put the controls and the anchor of point `j` at `3j .. 3j+2`. */
  lemma {:induction false} CircleQueueAt(center: Vec3, n: int, radius: real, f: FloatOps, k: nat, j: nat)
    requires n != 0 && j < k
    ensures CircleQueue(center, n, radius, f, k)[3 * j] == CircleBefore(center, n, radius, f, j)
    ensures CircleQueue(center, n, radius, f, k)[3 * j + 1] == CircleAnchor(center, n, radius, f, j)
    ensures CircleQueue(center, n, radius, f, k)[3 * j + 2] == CircleAfter(center, n, radius, f, j)
  {
    if j < k - 1 {
      CircleQueueAt(center, n, radius, f, k - 1, j);
    }
  }

  /** What `Circle` returns: the whole queue, rotated left by one. */
  function CirclePoints(center: Vec3, n: int, radius: real, f: FloatOps): (r: seq<Vec3>)
    requires n >= 1
    ensures |r| == 3 * n
  {
    RotateLeft(CircleQueue(center, n, radius, f, n))
  }

  /** `Circle(center, numPoints, radius)`. An empty queue cannot be dequeued, so
      `numPoints` must be positive. */
  method Circle(center: Vec3, n: int, radius: real, f: FloatOps) returns (r: seq<Vec3>)
    requires n >= 1
    ensures r == CirclePoints(center, n, radius, f)
  {
    var points: seq<Vec3> := [];
    var controlSize := f.tan(Pi / ((2 * n) as real)) * 4.0 / 3.0 * radius;
    var angleOffset := Pi / 2.0 + (if Rem(n, 2) == 0 then Pi / (n as real) else 0.0);
    var i := 0;
    while i < n
      invariant 0 <= i <= n
      invariant points == CircleQueue(center, n, radius, f, i)
    {
      var anchor, handle := CirclePoint(center, n, radius, controlSize, angleOffset, f, i);
      points := points + [anchor.Plus(handle.Times(-1.0))];
      points := points + [anchor];
      points := points + [anchor.Plus(handle)];
      i := i + 1;
    }
    var head := points[0];
    points := points[1..];
    points := points + [head];
    r := points;
  }

  /** One turn of `Circle`'s loop: the angle of point `i`, its anchor on the circle and
      its tangent handle. */
  method CirclePoint(center: Vec3, n: int, radius: real, controlSize: real, angleOffset: real, f: FloatOps, i: int)
    returns (anchor: Vec3, handle: Vec3)
    requires n != 0 && controlSize == ControlSize(n, radius, f) && angleOffset == AngleOffset(n)
    ensures anchor == CircleAnchor(center, n, radius, f, i)
    ensures handle == CircleHandle(n, radius, f, i)
  {
    var theta := Pi * 2.0 * (i as real) / (n as real) + angleOffset;
    var cos := f.cos(theta);
    var sin := f.sin(theta);
    anchor := center.Plus(Vec3(cos, 0.0, sin).Times(radius).Times(-1.0));
    handle := Vec3(sin, 0.0, -cos).Times(controlSize);
  }

  /** Segment `i` of the circle runs from anchor `i` through its after-control and the
      before-control of the next anchor to the next anchor, wrapping after the last:
      every third point is an anchor. */
  lemma CircleSegment(center: Vec3, n: int, radius: real, f: FloatOps, i: int)
    requires n >= 1 && 0 <= i < n
    ensures CirclePoints(center, n, radius, f)[3 * i] == CircleAnchor(center, n, radius, f, i)
    ensures CirclePoints(center, n, radius, f)[3 * i + 1] == CircleAfter(center, n, radius, f, i)
    ensures CirclePoints(center, n, radius, f)[3 * i + 2] == CircleBefore(center, n, radius, f, (i + 1) % n)
    ensures CirclePoints(center, n, radius, f)[(3 * i + 3) % (3 * n)]
            == CircleAnchor(center, n, radius, f, (i + 1) % n)
  {
    var s := CircleQueue(center, n, radius, f, n);
    ModSmall(3 * i + 1, 3 * n);
    ModSmall(3 * i + 2, 3 * n);
    ModSmall(3 * i + 3, 3 * n);
    ModSmall(i + 1, n);
    CircleQueueAt(center, n, radius, f, n, i);
    CircleQueueAt(center, n, radius, f, n, (i + 1) % n);
    if i == n - 1 {
      ModSmall(1, 3 * n);
    } else {
      ModSmall(3 * i + 4, 3 * n);
    }
  }

  /** The two controls of each anchor are reflections of each other through it, so the
      curve is smooth at every anchor, the seam included. */
  lemma CircleControlsSymmetric(center: Vec3, n: int, radius: real, f: FloatOps, i: int)
    requires n >= 1 && 0 <= i < n
    ensures Midpoint(CirclePoints(center, n, radius, f)[(3 * i + 3 * n - 1) % (3 * n)],
                     CirclePoints(center, n, radius, f)[3 * i + 1])
            == CirclePoints(center, n, radius, f)[3 * i]
  {
    var s := CircleQueue(center, n, radius, f, n);
    ModSmall(3 * i + 3 * n - 1, 3 * n);
    ModSmall(3 * i + 3 * n, 3 * n);
    ModSmall(3 * i + 1, 3 * n);
    ModSmall(3 * i + 2, 3 * n);
    CircleQueueAt(center, n, radius, f, n, i);
    if i == 0 {
      CircleQueueAt(center, n, radius, f, n, n - 1);
    }
  }

  // --------------------------------------------------------------- Polygon

  /** Corner `i` of the polygon: `center + (cos, 0, sin) * radius`. */
  function PolygonAnchor(center: Vec3, n: int, radius: real, f: FloatOps, i: int): Vec3
    requires n != 0
  {
    var theta := Theta(n, i);
    center.Plus(Vec3(f.cos(theta), 0.0, f.sin(theta)).Times(radius))
  }

  /** The queue after the first `k` turns of `Polygon`'s loop: each corner three times. */
  function PolygonQueue(center: Vec3, n: int, radius: real, f: FloatOps, k: nat): (r: seq<Vec3>)
    requires n != 0
    ensures |r| == 3 * k
  {
    if k == 0 then []
    else PolygonQueue(center, n, radius, f, k - 1)
         + [PolygonAnchor(center, n, radius, f, k - 1),
            PolygonAnchor(center, n, radius, f, k - 1),
            PolygonAnchor(center, n, radius, f, k - 1)]
  }

  lemma {:induction false} PolygonQueueAt(center: Vec3, n: int, radius: real, f: FloatOps, k: nat, j: nat, m: nat)
    requires n != 0 && j < k && m < 3
    ensures PolygonQueue(center, n, radius, f, k)[3 * j + m] == PolygonAnchor(center, n, radius, f, j)
  {
    if j < k - 1 {
      PolygonQueueAt(center, n, radius, f, k - 1, j, m);
    }
  }

  /** What `Polygon` returns: the whole queue, rotated left by one. */
  function PolygonPoints(center: Vec3, n: int, radius: real, f: FloatOps): (r: seq<Vec3>)
    requires n >= 1
    ensures |r| == 3 * n
  {
    RotateLeft(PolygonQueue(center, n, radius, f, n))
  }

  /** `Polygon(center, numPoints, radius)`. */
  method Polygon(center: Vec3, n: int, radius: real, f: FloatOps) returns (r: seq<Vec3>)
    requires n >= 1
    ensures r == PolygonPoints(center, n, radius, f)
  {
    var points: seq<Vec3> := [];
    var angleOffset := Pi / 2.0 + (if Rem(n, 2) == 0 then Pi / (n as real) else 0.0);
    var i := 0;
    while i < n
      invariant 0 <= i <= n
      invariant points == PolygonQueue(center, n, radius, f, i)
    {
      var theta := Pi * 2.0 * (i as real) / (n as real) + angleOffset;
      var anchor := center.Plus(Vec3(f.cos(theta), 0.0, f.sin(theta)).Times(radius));
      points := points + [anchor];
      points := points + [anchor];
      points := points + [anchor];
      i := i + 1;
    }
    var head := points[0];
    points := points[1..];
    points := points + [head];
    r := points;
  }

  /** Segment `i` of the polygon is the straight edge from corner `i` to the next corner:
      each control coincides with the anchor beside it. */
  lemma PolygonSegment(center: Vec3, n: int, radius: real, f: FloatOps, i: int)
    requires n >= 1 && 0 <= i < n
    ensures PolygonPoints(center, n, radius, f)[3 * i] == PolygonAnchor(center, n, radius, f, i)
    ensures PolygonPoints(center, n, radius, f)[3 * i + 1] == PolygonAnchor(center, n, radius, f, i)
    ensures PolygonPoints(center, n, radius, f)[3 * i + 2] == PolygonAnchor(center, n, radius, f, (i + 1) % n)
    ensures PolygonPoints(center, n, radius, f)[(3 * i + 3) % (3 * n)]
            == PolygonAnchor(center, n, radius, f, (i + 1) % n)
  {
    ModSmall(3 * i + 1, 3 * n);
    ModSmall(3 * i + 2, 3 * n);
    ModSmall(3 * i + 3, 3 * n);
    ModSmall(i + 1, n);
    PolygonQueueAt(center, n, radius, f, n, i, 1);
    PolygonQueueAt(center, n, radius, f, n, i, 2);
    if i == n - 1 {
      ModSmall(1, 3 * n);
      PolygonQueueAt(center, n, radius, f, n, 0, 0);
      PolygonQueueAt(center, n, radius, f, n, 0, 1);
    } else {
      ModSmall(3 * i + 4, 3 * n);
      PolygonQueueAt(center, n, radius, f, n, i + 1, 0);
      PolygonQueueAt(center, n, radius, f, n, i + 1, 1);
    }
  }

  /** Every generated point lies in the horizontal plane of the centre. */
  lemma {:induction false} PointsAreFlat(center: Vec3, n: int, radius: real, f: FloatOps, k: int)
    requires n >= 1 && 0 <= k < 3 * n
    ensures CirclePoints(center, n, radius, f)[k].y == center.y
    ensures PolygonPoints(center, n, radius, f)[k].y == center.y
  {
    var m := if k + 1 < 3 * n then k + 1 else 0;
    var j, r := m / 3, m % 3;
    assert m == 3 * j + r;
    CircleQueueAt(center, n, radius, f, n, j);
    PolygonQueueAt(center, n, radius, f, n, j, r);
  }
}
