/** Three-component real vectors, enough for positions and velocities. */
module Vectors {

  datatype Vec3 = Vec3(x: real, y: real, z: real)

  function Sub(a: Vec3, b: Vec3): Vec3
  {
    Vec3(a.x - b.x, a.y - b.y, a.z - b.z)
  }

  function Scale(a: Vec3, k: real): Vec3
  {
    Vec3(a.x * k, a.y * k, a.z * k)
  }

  /** Squared Euclidean length (avoids square roots). */
  function NormSq(a: Vec3): real
  {
    a.x * a.x + a.y * a.y + a.z * a.z
  }
}
