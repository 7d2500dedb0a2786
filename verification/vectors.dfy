/**
 * Real-valued vectors standing in for D3DXVECTOR3 and D3DXVECTOR2.
 * Components are exact reals: the model idealises away float rounding.
 */
module Vectors {

  datatype Vec3 = Vec3(x: real, y: real, z: real)

  datatype Vec2 = Vec2(x: real, y: real)

  const Zero: Vec3 := Vec3(0.0, 0.0, 0.0)
  const One: Vec3 := Vec3(1.0, 1.0, 1.0)

  function Add(a: Vec3, b: Vec3): Vec3 {
    Vec3(a.x + b.x, a.y + b.y, a.z + b.z)
  }

  function Sub(a: Vec3, b: Vec3): Vec3 {
    Vec3(a.x - b.x, a.y - b.y, a.z - b.z)
  }

  function Neg(a: Vec3): Vec3 {
    Vec3(-a.x, -a.y, -a.z)
  }

  function Scale(a: Vec3, k: real): Vec3 {
    Vec3(a.x * k, a.y * k, a.z * k)
  }

  function Div(a: Vec3, k: real): Vec3
    requires k != 0.0
  {
    Vec3(a.x / k, a.y / k, a.z / k)
  }

  /** Component 0, 1 or 2 of a vector. */
  function Component(a: Vec3, k: nat): real
    requires k < 3
  {
    if k == 0 then a.x else if k == 1 then a.y else a.z
  }

  /** Componentwise less-or-equal. */
  predicate LessEq(a: Vec3, b: Vec3) {
    a.x <= b.x && a.y <= b.y && a.z <= b.z
  }

  /** Sum of a sequence of vectors, accumulated from the front as `+=` does. */
  function Sum(vs: seq<Vec3>): Vec3 {
    if |vs| == 0 then Zero else Add(Sum(vs[..|vs| - 1]), vs[|vs| - 1])
  }

  /** Squared length of a 2-vector; positive exactly when D3DXVec2Length is. */
  function LengthSquared2(v: Vec2): real {
    v.x * v.x + v.y * v.y
  }
}
