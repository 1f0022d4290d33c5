/** Vectors and the floating-point operations the library borrows from its game engine.
    Floats are modelled as reals; the operations whose float behaviour matters
    (normalisation, length, curve evaluation, angles, trigonometry) are left
    uninterpreted by passing them in as the fields of a `FloatOps` value. */
module Geometry {

  /** A Unity `Vector3`. */
  datatype Vec3 = Vec3(x: real, y: real, z: real) {
    function Plus(o: Vec3): Vec3 { Vec3(x + o.x, y + o.y, z + o.z) }
    function Minus(o: Vec3): Vec3 { Vec3(x - o.x, y - o.y, z - o.z) }
    function Times(k: real): Vec3 { Vec3(x * k, y * k, z * k) }
    function DividedBy(k: real): Vec3 requires k != 0.0 { Vec3(x / k, y / k, z / k) }
  }

  /** A Unity `Vector2`, used for texture coordinates. */
  datatype Vec2 = Vec2(x: real, y: real)

  const Zero := Vec3(0.0, 0.0, 0.0)
  const Zero2 := Vec2(0.0, 0.0)
  const Up := Vec3(0.0, 1.0, 0.0)        // Vector3.up
  const Left := Vec3(-1.0, 0.0, 0.0)     // Vector3.left
  const Right := Vec3(1.0, 0.0, 0.0)     // Vector3.right
  const Forward := Vec3(0.0, 0.0, 1.0)   // Vector3.forward

  function Dot(a: Vec3, b: Vec3): real { a.x * b.x + a.y * b.y + a.z * b.z }

  function Cross(a: Vec3, b: Vec3): Vec3 {
    Vec3(a.y * b.z - a.z * b.y, a.z * b.x - a.x * b.z, a.x * b.y - a.y * b.x)
  }

  /** `Vector3.sqrMagnitude`. */
  function SqrMagnitude(a: Vec3): real { Dot(a, a) }

  /** The reflection of `last` through itself away from `before`: `last * 2 - before`,
      the handle that continues the tangent of an anchor. */
  function Extrapolate(last: Vec3, before: Vec3): Vec3 { last.Times(2.0).Minus(before) }

  function Midpoint(a: Vec3, b: Vec3): Vec3 { a.Plus(b).Times(0.5) }

  function Abs(r: real): real { if r < 0.0 then -r else r }

  /** The float operations whose exact IEEE behaviour the model does not interpret. */
  datatype FloatOps = FloatOps(
    normalized: Vec3 -> Vec3,                              // Vector3.normalized / Normalize()
    magnitude: Vec3 -> real,                               // Vector3.magnitude
    evaluateCubic: (Vec3, Vec3, Vec3, Vec3, real) -> Vec3, // Bezier.EvaluateCubic
    signedAngle: (Vec3, Vec3, Vec3) -> real,               // Vector3.SignedAngle(from, to, axis)
    rotate: (real, Vec3, Vec3) -> Vec3,                    // Quaternion.AngleAxis(angle, axis) * v
    degenerateReflection: (Vec3, Vec3) -> Vec3,            // v - a * 2 / 0 * dot(a, v): a float 0/0
    sin: real -> real,
    cos: real -> real,
    tan: real -> real)

  /** `Vector3.Distance(a, b)`, which is `(a - b).magnitude`. */
  function Distance(a: Vec3, b: Vec3, f: FloatOps): real { f.magnitude(a.Minus(b)) }

  datatype Option<T> = None | Some(value: T)

  lemma ExtrapolateIsReflection(last: Vec3, before: Vec3)
    ensures Midpoint(before, Extrapolate(last, before)) == last
    ensures Extrapolate(last, before).Minus(last) == last.Minus(before)
  {
  }
}
