/**
 * The dynamically typed arguments the setters inspect: a NumPy array, a
 * GTSAM `Pose3`, or any other object.
 */
module Values {
  import opened Wrappers
  import opened Arrays
  import opened Geometry

  datatype Value = Arr(a: Array) | PoseV(p: Pose) | Opaque

  /** `isinstance(v, np.ndarray) and v.shape == (3,)`. */
  predicate IsVector3Value(v: Value)
  {
    v.Arr? && IsVector3(v.a)
  }

  /** `isinstance(v, np.ndarray) and v.shape == (3, 3)`. */
  predicate IsMatrix3Value(v: Value)
  {
    v.Arr? && IsMatrix3(v.a)
  }

  /** The translation a 3-element array stands for. */
  function Vec3Of(a: Array): Vec3
    requires |a.data| == 3
  {
    Vec3(a.data[0], a.data[1], a.data[2])
  }

  /** `np.trace(v)`, defined when `v` is a 2-D array. */
  function TraceOf(v: Value): Option<real>
  {
    if v.Arr? then Trace(v.a) else None
  }
}
