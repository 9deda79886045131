/** Three-component vectors over the reals, standing for glm::vec3 (points, directions and RGB colours). */
module Vectors {

  datatype Vec3 = Vec3(x: real, y: real, z: real)

  /** glm::vec3(0): the origin, and the colour black. */
  const Zero := Vec3(0.0, 0.0, 0.0)

  function Add(a: Vec3, b: Vec3): Vec3 {
    Vec3(a.x + b.x, a.y + b.y, a.z + b.z)
  }

  function Sub(a: Vec3, b: Vec3): Vec3 {
    Vec3(a.x - b.x, a.y - b.y, a.z - b.z)
  }

  function Neg(a: Vec3): Vec3 {
    Vec3(-a.x, -a.y, -a.z)
  }

  /** Scalar times vector, `s * v` in glm. */
  function Scale(s: real, a: Vec3): Vec3 {
    Vec3(s * a.x, s * a.y, s * a.z)
  }
}
