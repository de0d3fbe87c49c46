/**
 * A landmark: a stable identifier, a position estimate and its covariance
 * behind shape-checking setters, a list of raw observations, and a
 * position history that holds only the initial estimate.
 */
module Landmarks {
  import opened Wrappers
  import opened Values

  /** The `ValueError`s the two setters raise. */
  datatype SetterError = MeanNotVector3 | CovarianceNotMatrix3

  class Landmark {
    /** `identifier` is a read-only property: it is fixed at construction. */
    const identifier: int
    var mean: Value
    var covariance: Value
    var observations: seq<Value>
    var history: seq<(Value, Value)>

    /** The history is written once, by the constructor, and never extended. */
    ghost predicate Valid()
      reads this
    {
      |history| == 1
    }

    /** The constructor stores its arguments without checking their shapes. */
    constructor (identifier: int, initialMean: Value, initialCovariance: Value)
      ensures Valid()
      ensures this.identifier == identifier
      ensures mean == initialMean && covariance == initialCovariance
      ensures observations == [] && history == [(initialMean, initialCovariance)]
    {
      this.identifier := identifier;
      mean := initialMean;
      covariance := initialCovariance;
      observations := [];
      history := [(initialMean, initialCovariance)];
    }

    /** The `position_mean` setter: only a NumPy array of shape (3,) is accepted. */
    method SetMean(v: Value) returns (r: Outcome<SetterError>)
      modifies this`mean
      ensures old(Valid()) ==> Valid()
      ensures r == if IsVector3Value(v) then Pass else Fail(MeanNotVector3)
      ensures mean == if IsVector3Value(v) then v else old(mean)
    {
      if !IsVector3Value(v) {
        return Fail(MeanNotVector3);
      }
      mean := v;
      r := Pass;
    }

    /** The `position_covariance` setter: only a NumPy array of shape (3, 3) is accepted. */
    method SetCovariance(v: Value) returns (r: Outcome<SetterError>)
      modifies this`covariance
      ensures old(Valid()) ==> Valid()
      ensures r == if IsMatrix3Value(v) then Pass else Fail(CovarianceNotMatrix3)
      ensures covariance == if IsMatrix3Value(v) then v else old(covariance)
    {
      if !IsMatrix3Value(v) {
        return Fail(CovarianceNotMatrix3);
      }
      covariance := v;
      r := Pass;
    }

    /**
     * `update_position`: the mean is set first, so a rejected mean changes
     * nothing, while an accepted mean followed by a rejected covariance is a
     * partial update. The history is not touched.
     */
    method UpdatePosition(newMean: Value, newCovariance: Value) returns (r: Outcome<SetterError>)
      modifies this`mean, this`covariance
      ensures old(Valid()) ==> Valid()
      ensures !IsVector3Value(newMean) ==>
                r == Fail(MeanNotVector3) && mean == old(mean) && covariance == old(covariance)
      ensures IsVector3Value(newMean) ==> mean == newMean
      ensures IsVector3Value(newMean) && !IsMatrix3Value(newCovariance) ==>
                r == Fail(CovarianceNotMatrix3) && covariance == old(covariance)
      ensures IsVector3Value(newMean) && IsMatrix3Value(newCovariance) ==>
                r == Pass && covariance == newCovariance
    {
      r := SetMean(newMean);
      if r.Fail? {
        return;
      }
      r := SetCovariance(newCovariance);
    }

    /** `add_observation`: appends at the end, keeping the earlier observations. */
    method AddObservation(observation: Value)
      modifies this`observations
      ensures old(Valid()) ==> Valid()
      ensures observations == old(observations) + [observation]
    {
      observations := observations + [observation];
    }

    /** `get_position_history`: always the single initial (mean, covariance) entry. */
    function GetPositionHistory(): (h: seq<(Value, Value)>)
      reads this
      requires Valid()
      ensures |h| == 1 && h == history
    {
      history
    }
  }
}
