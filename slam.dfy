/**
 * `SLAM`: the bookkeeping of an incremental SLAM run. It holds the agent,
 * the identifier-keyed landmark table, the list of poses, and the factor
 * graph and initial-estimate values handed to GTSAM, plus a step counter.
 * GTSAM itself (the `Marginals` factorisation and `marginalCovariance`)
 * is an abstract `Solver`.
 */
module Slam {
  import opened Wrappers
  import opened Arrays
  import opened Geometry
  import opened Values
  import opened Landmarks
  import opened Tables
  import opened StableSort
  import Agents

  /** `np.array([0.1, 0.1, 0.1, 0.1, 0.1, 0.1])`: the sigmas of both noise models. */
  function Sigmas(): seq<real>
  {
    [0.1, 0.1, 0.1, 0.1, 0.1, 0.1]
  }

  /** The two factor kinds the graph receives. */
  datatype Factor =
    | Prior(key: nat, pose: Pose, sigmas: seq<real>)                  // PriorFactorPose3
    | Between(from: nat, to: nat, delta: Pose, sigmas: seq<real>)     // BetweenFactorPose3

  /** `{'id': id, 'observation': {'mean': mean, 'covariance': covariance}}`. */
  datatype Measurement = Measurement(id: int, mean: Value, covariance: Value)

  /**
   * What GTSAM does with the graph and the initial estimate: whether
   * `Marginals(graph, values)` can be built, and the marginal covariance of
   * a key, `None` where `marginalCovariance` raises.
   */
  datatype Solver = Solver(
    factorizes: (seq<Factor>, map<nat, Pose>) -> bool,
    marginal: (seq<Factor>, map<nat, Pose>, nat) -> Option<Array>)

  datatype SlamError =
    | InvalidControl           // control_input.shape != (3,)
    | MeanRejected(id: int)    // the position_mean setter refuses the Pose3 it is given
    | MeanNotReshapable(id: int)  // observation['mean'].reshape((3, 1)) raises
    | MarginalsFailed          // Marginals(...) raises; it is outside the try

  /** `compute_information_gain(position, lm, poses)`, which the source does not define. */
  type Gain = (Pose, Landmark, seq<Pose>) -> real

  /**
   * The graph GTSAM receives: the prior on pose 0, then for every later pose
   * `i` the odometry factor from `i - 1` to `i` whose delta leads from pose
   * `i - 1` to pose `i`.
   */
  ghost predicate Chain(graph: seq<Factor>, poses: seq<Pose>)
  {
    && |graph| == |poses| >= 1
    && graph[0] == Prior(0, poses[0], Sigmas())
    && forall i :: 1 <= i < |graph| ==>
         && graph[i].Between?
         && graph[i].from == i - 1 && graph[i].to == i && graph[i].sigmas == Sigmas()
         && Compose(poses[i - 1], graph[i].delta) == poses[i]
  }

  /** The initial estimate holds pose `i` under key `i`, and no other key. */
  ghost predicate Estimates(estimate: map<nat, Pose>, poses: seq<Pose>)
  {
    && (forall k: nat :: k in estimate <==> k < |poses|)
    && forall k: nat :: k in estimate ==> estimate[k] == poses[k]
  }

  /** A new chain has exactly the prior factor. */
  lemma {:induction false} ChainStart(p: Pose)
    ensures Chain([Prior(0, p, Sigmas())], [p])
  {
  }

  /** Appending a pose together with its odometry factor keeps the graph a chain. */
  lemma {:induction false} ChainExtend(graph: seq<Factor>, poses: seq<Pose>, delta: Pose)
    requires Chain(graph, poses)
    ensures Chain(graph + [Between(|poses| - 1, |poses|, delta, Sigmas())],
                  poses + [Compose(poses[|poses| - 1], delta)])
  {
    var g := graph + [Between(|poses| - 1, |poses|, delta, Sigmas())];
    var p := poses + [Compose(poses[|poses| - 1], delta)];
    forall i | 1 <= i < |g|
      ensures g[i].Between? && g[i].from == i - 1 && g[i].to == i && g[i].sigmas == Sigmas()
      ensures Compose(p[i - 1], g[i].delta) == p[i]
    {
      if i < |graph| {
        assert g[i] == graph[i] && p[i - 1] == poses[i - 1] && p[i] == poses[i];
      }
    }
  }

  /**
   * The key of a new pose is not yet in the estimate, so GTSAM's
   * `Values.insert` does not raise; inserting it keeps keys and poses aligned.
   */
  lemma {:induction false} EstimatesExtend(estimate: map<nat, Pose>, poses: seq<Pose>, p: Pose)
    requires Estimates(estimate, poses)
    ensures |poses| !in estimate
    ensures Estimates(estimate[|poses| := p], poses + [p])
  {
    var e := estimate[|poses| := p];
    var q := poses + [p];
    forall k | k in e ensures e[k] == q[k] {
      if k < |poses| {
        assert e[k] == estimate[k];
      }
    }
  }

  /** A new estimate holds the initial pose under key 0. */
  lemma {:induction false} EstimatesStart(p: Pose)
    ensures Estimates(map[0 := p], [p])
  {
  }

  /** Position of the first measurement whose id is in `ids`. */
  function FirstKnown(ms: seq<Measurement>, ids: set<int>): (k: Option<nat>)
    ensures k.None? <==> forall j :: 0 <= j < |ms| ==> ms[j].id !in ids
    ensures k.Some? ==> k.value < |ms| && ms[k.value].id in ids
    ensures k.Some? ==> forall j :: 0 <= j < k.value ==> ms[j].id !in ids
  {
    if ms == [] then None
    else if ms[0].id in ids then Some(0)
    else
      match FirstKnown(ms[1..], ids)
      case None => None
      case Some(k) => Some(k + 1)
  }

  /**
   * The exception a measurement of a known landmark raises: a mean of three
   * elements becomes a `Pose3`, which the `position_mean` setter refuses;
   * any other mean already fails in `reshape((3, 1))`.
   */
  function Rejection(m: Measurement): SlamError
  {
    if m.mean.Arr? && |m.mean.a.data| == 3 then MeanRejected(m.id) else MeanNotReshapable(m.id)
  }

  /**
   * `lm.update_position(Pose3(Rot3(), mean.reshape((3, 1))), covariance)` for
   * a known landmark. A mean of three elements reaches the `position_mean`
   * setter as a `Pose3`, and `setter` is that call's outcome: the setter's
   * refusal. Any other mean fails in `reshape` before the call. Either way the
   * landmark is left as it was and the error is `Rejection(m)`.
   */
  method ApplyMeasurement(lm: Landmark, m: Measurement) returns (e: SlamError, setter: Option<Outcome<SetterError>>)
    modifies lm
    ensures unchanged(lm)
    ensures e == Rejection(m) && e.id == m.id
    ensures setter.Some? <==> e.MeanRejected?
    ensures setter.Some? <==> m.mean.Arr? && |m.mean.a.data| == 3
    ensures setter.Some? ==> setter.value == Fail(MeanNotVector3)
  {
    if m.mean.Arr? && |m.mean.a.data| == 3 {
      var out := lm.UpdatePosition(PoseV(Pose(Vec3Of(m.mean.a))), m.covariance);
      setter := Some(out);
      e := MeanRejected(m.id);
    } else {
      setter := None;
      e := MeanNotReshapable(m.id);
    }
  }

  /**
   * `full_covariance[:3, :3]` when `marginalCovariance` returned a matrix
   * whose slice is 3x3. Otherwise the call, the slice or the setter raises
   * inside the `try`, and the covariance is left alone.
   */
  function PositionBlock(full: Option<Array>): (b: Option<Array>)
    ensures b.Some? ==> IsMatrix3(b.value)
    ensures b.Some? <==> full.Some? && IsRank2(full.value) && full.value.shape[0] >= 3 && full.value.shape[1] >= 3
  {
    if full.Some? then TopLeft3(full.value) else None
  }

  /** The agent covariance after a step whose `Marginals` were built. */
  function CovarianceAfter(full: Option<Array>, previous: Array): Array
  {
    match PositionBlock(full)
    case Some(b) => b
    case None => previous
  }

  /** `information_gains.get` under `reverse=True`: the stable sort by the negated gain. */
  function GainKey(position: Pose, poses: seq<Pose>, gain: Gain): Landmark -> real
  {
    (lm: Landmark) => -gain(position, lm, poses)
  }

  /**
   * The table `perform_information_theoretic_minimization` keeps: the first
   * `int(len * 0.5)` landmarks in order of decreasing gain.
   */
  function TopHalf(t: seq<Landmark>, position: Pose, poses: seq<Pose>, gain: Gain): (kept: seq<Landmark>)
    ensures |kept| == |t| / 2
  {
    SortBy(t, GainKey(position, poses, gain))[..|t| / 2]
  }

  /**
   * Minimisation keeps exactly half the table, rounded down. What it keeps
   * comes from the table, keeps distinct identifiers, and has at least the
   * gain of everything it drops.
   */
  lemma {:induction false} KeepTopHalf(t: seq<Landmark>, position: Pose, poses: seq<Pose>, gain: Gain)
    requires DistinctIds(t)
    ensures |TopHalf(t, position, poses, gain)| == |t| / 2
    ensures multiset(TopHalf(t, position, poses, gain)) <= multiset(t)
    ensures DistinctIds(TopHalf(t, position, poses, gain))
    ensures forall x, y :: x in TopHalf(t, position, poses, gain) && y in t && y !in TopHalf(t, position, poses, gain) ==>
              gain(position, x, poses) >= gain(position, y, poses)
  {
    var key := GainKey(position, poses, gain);
    var s := SortBy(t, key);
    var kept := TopHalf(t, position, poses, gain);
    assert s == kept + s[|t| / 2..];
    assert multiset(s) == multiset(kept) + multiset(s[|t| / 2..]);
    PermutationKeepsDistinctIds(t, s);
    forall i, j | 0 <= i < j < |kept| ensures kept[i].identifier != kept[j].identifier {
      assert kept[i] == s[i] && kept[j] == s[j];
    }
    forall x, y | x in kept && y in t && y !in kept
      ensures gain(position, x, poses) >= gain(position, y, poses)
    {
      var i :| 0 <= i < |kept| && kept[i] == x;
      assert y in multiset(s);
      var j :| 0 <= j < |s| && s[j] == y;
      forall q | 0 <= q < |t| / 2 ensures s[q] != y {
        assert kept[q] == s[q];
      }
      assert s[i] == x;
      assert key(s[i]) <= key(s[j]);
    }
  }

  class Slam {
    /** `self.agent`, created by the constructor and never rebound. */
    const agent: Agents.Agent
    /** `_landmarks`, listed in insertion order with one entry per identifier. */
    var entries: seq<Landmark>
    var poses: seq<Pose>
    var minimizationInterval: int
    var stepCount: nat
    var graph: seq<Factor>
    var estimate: map<nat, Pose>
    /** Steps that raised on a measurement, after their pose was appended. */
    ghost var aborted: nat

    /**
     * The graph, the estimate and the agent follow the poses, and every
     * pose but the first comes from a step that was counted or aborted.
     */
    ghost predicate Tracks()
      reads this`poses, this`graph, this`estimate, this`stepCount, this`aborted, agent
    {
      && agent.Valid()
      && Chain(graph, poses)
      && Estimates(estimate, poses)
      && agent.position == poses[|poses| - 1]
      && |poses| == stepCount + 1 + aborted
    }

    ghost predicate Valid()
      reads this, agent
    {
      Tracks() && DistinctIds(entries)
    }

    /**
     * One pose (the initial translation with identity rotation), step 0,
     * landmarks keyed by identifier with a later duplicate winning, the
     * prior factor on pose 0 and the initial value under key 0.
     */
    constructor (initial: Array, landmarks: seq<Landmark>, minimizationInterval: int := 10)
      requires IsTranslation(initial)
      ensures Valid()
      ensures fresh(agent)
      ensures poses == [Pose(Vec3Of(initial))] && stepCount == 0 && aborted == 0
      ensures agent.position == poses[0] && agent.covariance == Identity3()
      ensures entries == TableOf(landmarks) && |entries| == |IdSet(landmarks)|
      ensures graph == [Prior(0, poses[0], Sigmas())] && estimate == map[0 := poses[0]]
      ensures this.minimizationInterval == minimizationInterval
    {
      var p := Pose(Vec3Of(initial));
      agent := new Agents.Agent(p);
      entries := TableOf(landmarks);
      poses := [p];
      this.minimizationInterval := minimizationInterval;
      stepCount := 0;
      aborted := 0;
      graph := [Prior(0, p, Sigmas())];
      estimate := map[0 := p];
      TableOfSize(landmarks);
      ChainStart(p);
      EstimatesStart(p);
    }

    /**
     * The measurement loop of `perform_slam_step`: unknown ids are skipped,
     * and the first known id raises. A mean of three elements reaches
     * `update_position` as a `Pose3`, whose mean setter refuses it before
     * anything is written, so no landmark changes either way.
     */
    method Dispatch(measurements: seq<Measurement>) returns (r: Outcome<SlamError>)
      modifies entries
      ensures unchanged(entries)
      ensures FirstKnown(measurements, IdSet(entries)).None? ==> r == Pass
      ensures FirstKnown(measurements, IdSet(entries)).Some? ==>
                r == Fail(Rejection(measurements[FirstKnown(measurements, IdSet(entries)).value]))
    {
      for i := 0 to |measurements|
        invariant forall j :: 0 <= j < i ==> measurements[j].id !in IdSet(entries)
        invariant unchanged(entries)
      {
        var m := measurements[i];
        if m.id in IdSet(entries) {
          var lm := Lookup(entries, m.id);
          var e, _ := ApplyMeasurement(lm, m);
          return Fail(e);
        }
      }
      r := Pass;
    }

    /**
     * The motion part of `perform_slam_step`: the new pose is the previous
     * one composed with the control, becomes the agent's position, and is
     * appended with its odometry factor and its initial value.
     */
    method AppendPose(control: Array)
      requires Valid() && IsVector3(control)
      modifies this`poses, this`graph, this`estimate, agent`position
      ensures agent.Valid() && Chain(graph, poses) && Estimates(estimate, poses)
      ensures poses == old(poses) + [Compose(old(poses)[|old(poses)| - 1], Pose(Vec3Of(control)))]
      ensures agent.position == poses[|poses| - 1]
      ensures graph == old(graph) + [Between(|old(poses)| - 1, |old(poses)|, Pose(Vec3Of(control)), Sigmas())]
      ensures estimate == old(estimate)[|old(poses)| := poses[|poses| - 1]]
    {
      var n := |poses|;
      var delta := Pose(Vec3Of(control));
      var next := Compose(poses[n - 1], delta);
      var _ := agent.SetPosition(PoseV(next));
      ChainExtend(graph, poses, delta);
      EstimatesExtend(estimate, poses, next);
      poses := poses + [next];
      graph := graph + [Between(n - 1, n, delta, Sigmas())];
      estimate := estimate[n := next];
    }

    /**
     * `perform_slam_step`. A control of another shape raises before
     * anything changes. Otherwise the new pose (previous translation plus
     * the control) becomes the agent's position and is appended with its
     * odometry factor and initial value, all before the measurements are
     * dispatched; a known id then raises without counting the step. A
     * counted step raises if `Marginals` cannot be built, and otherwise
     * updates the agent covariance only where the marginal's 3x3 block
     * exists.
     */
    method PerformSlamStep(control: Array, measurements: seq<Measurement>, solver: Solver)
      returns (r: Outcome<SlamError>)
      requires Valid()
      modifies this`poses, this`graph, this`estimate, this`stepCount, this`aborted, agent, entries
      ensures Valid()
      ensures unchanged(entries)
      ensures !IsVector3(control) ==>
                && r == Fail(InvalidControl)
                && poses == old(poses) && graph == old(graph) && estimate == old(estimate)
                && stepCount == old(stepCount) && aborted == old(aborted)
                && unchanged(agent)
      ensures IsVector3(control) ==>
                var n := |old(poses)|;
                var delta := Pose(Vec3Of(control));
                && poses == old(poses) + [Compose(old(poses)[n - 1], delta)]
                && agent.position == poses[n]
                && graph == old(graph) + [Between(n - 1, n, delta, Sigmas())]
                && estimate == old(estimate)[n := poses[n]]
      ensures IsVector3(control) && FirstKnown(measurements, IdSet(entries)).Some? ==>
                && r == Fail(Rejection(measurements[FirstKnown(measurements, IdSet(entries)).value]))
                && stepCount == old(stepCount) && aborted == old(aborted) + 1
                && agent.covariance == old(agent.covariance)
      ensures IsVector3(control) && FirstKnown(measurements, IdSet(entries)).None? ==>
                stepCount == old(stepCount) + 1 && aborted == old(aborted)
      ensures IsVector3(control) && FirstKnown(measurements, IdSet(entries)).None? && !solver.factorizes(graph, estimate) ==>
                r == Fail(MarginalsFailed) && agent.covariance == old(agent.covariance)
      ensures IsVector3(control) && FirstKnown(measurements, IdSet(entries)).None? && solver.factorizes(graph, estimate) ==>
                r == Pass && agent.covariance == CovarianceAfter(solver.marginal(graph, estimate, |old(poses)|), old(agent.covariance))
    {
      if !IsVector3(control) {
        return Fail(InvalidControl);
      }
      AppendPose(control);

      r := Dispatch(measurements);
      if r.Fail? {
        aborted := aborted + 1;
        return;
      }
      stepCount := stepCount + 1;

      if !solver.factorizes(graph, estimate) {
        return Fail(MarginalsFailed);
      }
      var block := PositionBlock(solver.marginal(graph, estimate, |poses| - 1));
      if block.Some? {
        var _ := agent.SetCovariance(Arr(block.value));
      }
      r := Pass;
    }

    /**
     * `perform_information_theoretic_minimization`: the table is rebuilt
     * from the `int(len * 0.5)` identifiers of highest gain, in order of
     * decreasing gain; nothing else changes.
     */
    method MinimizeLandmarks(gain: Gain)
      requires Valid()
      modifies this`entries
      ensures Valid()
      ensures entries == TopHalf(old(entries), agent.position, poses, gain)
    {
      var kept := TopHalf(entries, agent.position, poses, gain);
      KeepTopHalf(entries, agent.position, poses, gain);
      TableOfDistinct(kept);
      entries := TableOf(kept);
    }
  }
}
