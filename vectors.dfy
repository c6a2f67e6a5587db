/** Three-component vectors, the model of the rendering library's `Vector3`.
    Components are mathematical reals: floating-point rounding is not modelled. */
module Vectors {

  datatype Vec3 = Vec3(x: real, y: real, z: real)

  /** A freshly constructed vector, and the default position and rotation of a mesh. */
  const Zero: Vec3 := Vec3(0.0, 0.0, 0.0)

  function Add(a: Vec3, b: Vec3): Vec3 {
    Vec3(a.x + b.x, a.y + b.y, a.z + b.z)
  }

  /** `a.sub(b)`: the difference is the vector that, added back to `b`, gives `a`. */
  function Sub(a: Vec3, b: Vec3): (r: Vec3)
    ensures Add(r, b) == a
    ensures forall d :: Add(d, b) == a ==> d == r
  {
    Vec3(a.x - b.x, a.y - b.y, a.z - b.z)
  }
}
