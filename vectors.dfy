// Two- and three-component vectors over the reals, standing in for Unity's
// Vector2/Vector3 and the uEngine Vector2. Arithmetic is exact: no IEEE
// rounding, infinities or NaN.
module Vectors {

  datatype Vec2 = Vec2(x: real, y: real) {

    function Plus(o: Vec2): Vec2 { Vec2(x + o.x, y + o.y) }

    function Minus(o: Vec2): Vec2 { Vec2(x - o.x, y - o.y) }

    function Neg(): Vec2 { Vec2(-x, -y) }

    /** Multiplication by a scalar (Vector2 * float). */
    function Scale(k: real): Vec2 { Vec2(x * k, y * k) }

    /** Division by a non-zero scalar (Vector2 / float). */
    function Div(k: real): Vec2
      requires k != 0.0
    {
      Vec2(x / k, y / k)
    }

    /** Component-wise product (Vector2 * Vector2). */
    function Hadamard(o: Vec2): Vec2 { Vec2(x * o.x, y * o.y) }

    function SqMagnitude(): real { x * x + y * y }

    /**
     * Unity's Vector2 == operator: the two vectors are closer than
     * kEpsilon = 1e-5, that is their squared distance is below 1e-10.
     */
    predicate UnityEquals(o: Vec2) {
      Minus(o).SqMagnitude() < 1.0 / 10000000000.0
    }
  }

  const Zero2: Vec2 := Vec2(0.0, 0.0)

  datatype Vec3 = Vec3(x: real, y: real, z: real)

  /** A rotation as Unity stores it; the model only carries it around. */
  datatype Quaternion = Quaternion(x: real, y: real, z: real, w: real)

  function Abs(r: real): real { if r < 0.0 then -r else r }

  /** Unity's Mathf.Sign: 1 for zero and positive arguments, -1 otherwise. */
  function Sign(r: real): real { if r >= 0.0 then 1.0 else -1.0 }
}
