/** Three-component vectors over the reals, standing in for `mathutils.Vector`. */
module Vectors {

  datatype Vec3 = Vec3(x: real, y: real, z: real)

  const Zero := Vec3(0.0, 0.0, 0.0)

  function Add(a: Vec3, b: Vec3): Vec3 { Vec3(a.x + b.x, a.y + b.y, a.z + b.z) }

  function Sub(a: Vec3, b: Vec3): Vec3 { Vec3(a.x - b.x, a.y - b.y, a.z - b.z) }

  function Scale(s: real, a: Vec3): Vec3 { Vec3(s * a.x, s * a.y, s * a.z) }

  function Dot(a: Vec3, b: Vec3): real { a.x * b.x + a.y * b.y + a.z * b.z }

  /** Squared Euclidean length; the library compares lengths, which for
      non-negative bounds is the same as comparing squares. */
  function LengthSq(a: Vec3): real { Dot(a, a) }

  /** Component `i` (0, 1 or 2) of a vector, as `v[i]` in the source. */
  function At(a: Vec3, i: nat): real
    requires i < 3
  {
    if i == 0 then a.x else if i == 1 then a.y else a.z
  }

  function Abs(r: real): real { if r < 0.0 then -r else r }
}
