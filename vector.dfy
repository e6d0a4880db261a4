/** Three-component real vectors: the `glm::vec3` / GLSL `vec3` values the
    renderer's pose algebra and vertex shader work on. Components are exact
    reals; IEEE single-precision rounding is not modelled. */
module Vector {

  datatype Vec3 = Vec3(x: real, y: real, z: real)

  const Zero: Vec3 := Vec3(0.0, 0.0, 0.0)

  function Add(a: Vec3, b: Vec3): Vec3 {
    Vec3(a.x + b.x, a.y + b.y, a.z + b.z)
  }

  function Sub(a: Vec3, b: Vec3): Vec3 {
    Vec3(a.x - b.x, a.y - b.y, a.z - b.z)
  }

  function Neg(a: Vec3): Vec3 {
    Vec3(-a.x, -a.y, -a.z)
  }

  /** Scalar times vector, as in `k * v`. */
  function Scale(k: real, a: Vec3): Vec3 {
    Vec3(k * a.x, k * a.y, k * a.z)
  }

  function Dot(a: Vec3, b: Vec3): real {
    a.x * b.x + a.y * b.y + a.z * b.z
  }

  function Cross(a: Vec3, b: Vec3): Vec3 {
    Vec3(a.y * b.z - a.z * b.y, a.z * b.x - a.x * b.z, a.x * b.y - a.y * b.x)
  }

  /** `glm::mix(a, b, s)` on vectors: `a * (1 - s) + b * s`, componentwise. */
  function Mix(a: Vec3, b: Vec3, s: real): (r: Vec3)
    ensures s == 0.0 ==> r == a
    ensures s == 1.0 ==> r == b
    ensures a == b ==> r == a
  {
    Vec3(a.x * (1.0 - s) + b.x * s, a.y * (1.0 - s) + b.y * s, a.z * (1.0 - s) + b.z * s)
  }

  lemma ScaleAdd(k: real, u: Vec3, v: Vec3)
    ensures Scale(k, Add(u, v)) == Add(Scale(k, u), Scale(k, v))
  {
  }
}
