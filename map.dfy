/** The map: one agent and a dictionary from landmark id to landmark. */
module Maps {
  import opened Wrappers
  import opened Values
  import opened Landmarks
  import Agents

  /** The argument of `add_landmark`: a `Landmark` instance, or any other object. */
  datatype Candidate = Instance(lm: Landmark) | NotALandmark

  /** `ValueError` of `add_landmark`, or the setter error of an in-place update. */
  datatype MapError = OnlyLandmarks | Rejected(e: SetterError)

  class Map {
    var agent: Agents.Agent
    var landmarks: map<int, Landmark>

    /** A new map holds the given agent and no landmarks. */
    constructor (agent: Agents.Agent)
      ensures this.agent == agent && landmarks == map[]
    {
      this.agent := agent;
      landmarks := map[];
    }

    /**
     * `add_landmark`: refuses anything but a `Landmark`; otherwise inserts or
     * overwrites exactly that key.
     */
    method AddLandmark(id: int, c: Candidate) returns (r: Outcome<MapError>)
      modifies this`landmarks
      ensures c.NotALandmark? ==> r == Fail(OnlyLandmarks) && landmarks == old(landmarks)
      ensures c.Instance? ==> r == Pass && landmarks == old(landmarks)[id := c.lm]
    {
      if c.NotALandmark? {
        return Fail(OnlyLandmarks);
      }
      landmarks := landmarks[id := c.lm];
      r := Pass;
    }

    /** `remove_landmark`: deletes only that key; an absent key is a no-op. */
    method RemoveLandmark(id: int)
      modifies this`landmarks
      ensures landmarks == old(landmarks) - {id}
      ensures id !in old(landmarks) ==> landmarks == old(landmarks)
    {
      if id in landmarks {
        landmarks := landmarks - {id};
      }
    }

    /**
     * `update_landmark`: a present landmark is updated in place (so its
     * mean may change while a bad covariance is refused) and the key set
     * stays; an absent id gets a new landmark with that id, mean and
     * covariance, which is then present.
     */
    method UpdateLandmark(id: int, mean: Value, cov: Value) returns (r: Outcome<MapError>)
      modifies this`landmarks, if id in landmarks then {landmarks[id]} else {}
      ensures id in old(landmarks) ==> landmarks == old(landmarks)
      ensures id in old(landmarks) ==>
                var lm := landmarks[id];
                && (!IsVector3Value(mean) ==>
                      r == Fail(Rejected(MeanNotVector3)) && lm.mean == old(lm.mean) && lm.covariance == old(lm.covariance))
                && (IsVector3Value(mean) ==> lm.mean == mean)
                && (IsVector3Value(mean) && !IsMatrix3Value(cov) ==>
                      r == Fail(Rejected(CovarianceNotMatrix3)) && lm.covariance == old(lm.covariance))
                && (IsVector3Value(mean) && IsMatrix3Value(cov) ==> r == Pass && lm.covariance == cov)
      ensures id in old(landmarks) ==>
                && landmarks[id].observations == old(landmarks[id].observations)
                && landmarks[id].history == old(landmarks[id].history)
                && (old(landmarks[id].Valid()) ==> landmarks[id].Valid())
      ensures id !in old(landmarks) ==>
                && r == Pass
                && landmarks.Keys == old(landmarks).Keys + {id}
                && (forall k :: k in old(landmarks) ==> landmarks[k] == old(landmarks)[k])
                && fresh(landmarks[id])
                && landmarks[id].identifier == id
                && landmarks[id].mean == mean && landmarks[id].covariance == cov
                && landmarks[id].observations == [] && landmarks[id].history == [(mean, cov)]
    {
      if id in landmarks {
        var lm := landmarks[id];
        var u := lm.UpdatePosition(mean, cov);
        r := if u.Fail? then Fail(Rejected(u.error)) else Pass;
      } else {
        var lm := new Landmark(id, mean, cov);
        r := AddLandmark(id, Instance(lm));
      }
    }
  }

  /** Removing the same id twice leaves the map as removing it once. */
  method RemoveTwice(m: Map, id: int)
    modifies m
    ensures m.landmarks == old(m.landmarks) - {id}
    ensures m.agent == old(m.agent)
  {
    m.RemoveLandmark(id);
    m.RemoveLandmark(id);
  }
}
