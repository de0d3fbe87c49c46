/** The agent: its current pose and a 3x3 position covariance behind validating setters. */
module Agents {
  import opened Wrappers
  import opened Arrays
  import opened Geometry
  import opened Values

  /** The `ValueError`s of the two setters. */
  datatype AgentError = NotAPose | CovarianceNotMatrix3

  class Agent {
    var position: Pose
    var covariance: Array

    /** Only a 3x3 covariance is ever stored. */
    ghost predicate Valid()
      reads this
    {
      IsMatrix3(covariance)
    }

    /** A new agent holds the given pose and the identity covariance `np.eye(3)`. */
    constructor (position: Pose)
      ensures Valid()
      ensures this.position == position && covariance == Identity3()
    {
      this.position := position;
      covariance := Identity3();
    }

    /**
     * The `position` setter: a `Pose3` is stored as given, a NumPy array of
     * shape (3,) becomes the pose with identity rotation and that
     * translation, anything else is refused and the pose stays.
     */
    method SetPosition(v: Value) returns (r: Outcome<AgentError>)
      modifies this`position
      ensures v.PoseV? ==> r == Pass && position == v.p
      ensures IsVector3Value(v) ==> r == Pass && position == Pose(Vec3Of(v.a))
      ensures !v.PoseV? && !IsVector3Value(v) ==> r == Fail(NotAPose) && position == old(position)
    {
      if v.PoseV? {
        position := v.p;
        r := Pass;
      } else if IsVector3Value(v) {
        position := Pose(Vec3Of(v.a));
        r := Pass;
      } else {
        r := Fail(NotAPose);
      }
    }

    /** The `position_covariance` setter: only a NumPy array of shape (3, 3) is accepted. */
    method SetCovariance(v: Value) returns (r: Outcome<AgentError>)
      requires Valid()
      modifies this`covariance
      ensures Valid()
      ensures r == if IsMatrix3Value(v) then Pass else Fail(CovarianceNotMatrix3)
      ensures covariance == if IsMatrix3Value(v) then v.a else old(covariance)
    {
      if IsMatrix3Value(v) {
        covariance := v.a;
        r := Pass;
      } else {
        r := Fail(CovarianceNotMatrix3);
      }
    }
  }
}
