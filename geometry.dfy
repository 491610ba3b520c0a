/** Three-component vectors over the reals, glm's linear blend, and a symbolic
    stand-in for the quaternions the flight path produces. */
module Geometry {

  /** A glm::vec3, with exact real components instead of floats. */
  datatype Vec3 = Vec3(x: real, y: real, z: real)

  const Zero: Vec3 := Vec3(0.0, 0.0, 0.0)

  /** The up vector every keyframe orientation is built against. */
  const WorldUp: Vec3 := Vec3(0.0, 1.0, 0.0)

  function Add(a: Vec3, b: Vec3): Vec3
  {
    Vec3(a.x + b.x, a.y + b.y, a.z + b.z)
  }

  function Sub(a: Vec3, b: Vec3): Vec3
  {
    Vec3(a.x - b.x, a.y - b.y, a.z - b.z)
  }

  /** Scalar times vector. */
  function Scale(k: real, v: Vec3): Vec3
  {
    Vec3(k * v.x, k * v.y, k * v.z)
  }

  /** r lies on the closed interval spanned by a and b, whichever is larger. */
  predicate Between(a: real, b: real, r: real)
  {
    (a <= r <= b) || (b <= r <= a)
  }

  /** Every component of r lies between the matching components of a and b. */
  predicate BetweenVec(a: Vec3, b: Vec3, r: Vec3)
  {
    Between(a.x, b.x, r.x) && Between(a.y, b.y, r.y) && Between(a.z, b.z, r.z)
  }

  /** glm::mix(a, b, alpha) on vectors: a * (1 - alpha) + b * alpha. */
  function Mix(a: Vec3, b: Vec3, alpha: real): (r: Vec3)
    ensures alpha == 0.0 ==> r == a
    ensures alpha == 1.0 ==> r == b
  {
    Add(Scale(1.0 - alpha, a), Scale(alpha, b))
  }

  lemma MulNonNegative(a: real, b: real)
    requires 0.0 <= a && 0.0 <= b
    ensures 0.0 <= a * b
  {
  }

  lemma SquareNonNegative(a: real)
    ensures 0.0 <= a * a
  {
    if a < 0.0 {
      MulNonNegative(-a, -a);
    } else {
      MulNonNegative(a, a);
    }
  }

  lemma MulPositive(a: real, b: real)
    requires 0.0 < a && 0.0 < b
    ensures 0.0 < a * b
  {
  }

  lemma MixScalarBetween(a: real, b: real, alpha: real)
    requires 0.0 <= alpha <= 1.0
    ensures Between(a, b, a * (1.0 - alpha) + b * alpha)
  {
    // a * (1 - alpha) + b * alpha == a + alpha * (b - a), with 0 <= alpha <= 1
    assert a * (1.0 - alpha) + b * alpha == a + alpha * (b - a);
    var d := if a <= b then b - a else a - b;
    MulNonNegative(alpha, d);
    MulNonNegative(1.0 - alpha, d);
    assert (1.0 - alpha) * d == d - alpha * d;
  }

  /** A blend with a weight in [0,1] never leaves the box spanned by its ends. */
  lemma MixBetween(a: Vec3, b: Vec3, alpha: real)
    requires 0.0 <= alpha <= 1.0
    ensures BetweenVec(a, b, Mix(a, b, alpha))
  {
    MixScalarBetween(a.x, b.x, alpha);
    MixScalarBetween(a.y, b.y, alpha);
    MixScalarBetween(a.z, b.z, alpha);
  }

  /** A glm::quat, kept symbolic: the model records how each orientation was
      built, not its four components. LookAlong(v, up) is
      glm::quatLookAt(glm::normalize(v), up); Slerp(p, q, a) is
      glm::slerp(p, q, a). */
  datatype Quat =
    | Identity
    | LookAlong(tangent: Vec3, up: Vec3)
    | Slerp(from: Quat, to: Quat, amount: real)
}
