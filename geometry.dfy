/**
 * Poses of the agent. Every rotation in the source is `Rot3()`, the
 * identity, so a pose is determined by its translation.
 */
module Geometry {

  datatype Vec3 = Vec3(x: real, y: real, z: real)

  function Add(u: Vec3, v: Vec3): Vec3
  {
    Vec3(u.x + v.x, u.y + v.y, u.z + v.z)
  }

  /** `Pose3(Rot3(), t)`. */
  datatype Pose = Pose(t: Vec3)

  /**
   * `p.compose(q)`: with identity rotations the composed translation is the
   * sum of the two translations.
   */
  function Compose(p: Pose, q: Pose): (r: Pose)
    ensures r.t.x == p.t.x + q.t.x && r.t.y == p.t.y + q.t.y && r.t.z == p.t.z + q.t.z
  {
    Pose(Add(p.t, q.t))
  }

  /** Composition with the identity pose leaves a pose as it was. */
  lemma {:induction false} ComposeIdentity(p: Pose)
    ensures Compose(p, Pose(Vec3(0.0, 0.0, 0.0))) == p
  {
  }
}
