/**
 * The scores the removal strategies sort by. Where the source draws random
 * numbers, the model takes explicit inputs: a visibility relation (does the
 * landmark with this id appear in this pose?) and per-landmark score
 * functions.
 */
module Scoring {
  import opened Wrappers
  import opened Geometry
  import opened Values
  import opened Landmarks
  import opened Tables

  /** Which pose observed which landmark (by landmark id). */
  type Visibility = (int, Pose) -> bool

  /** A score of one landmark given the current landmark list and the poses. */
  type ScoreFn = (seq<Landmark>, seq<Pose>, Landmark) -> real

  /** How many entries of `lms` carry identifier `id`. */
  function Occurrences(lms: seq<Landmark>, id: int): nat
  {
    if lms == [] then 0
    else Occurrences(lms[..|lms| - 1], id) + (if lms[|lms| - 1].identifier == id then 1 else 0)
  }

  /** From how many entries of `poses` the landmark `id` is visible. */
  function SeenFrom(id: int, poses: seq<Pose>, sees: Visibility): nat
  {
    if poses == [] then 0
    else SeenFrom(id, poses[..|poses| - 1], sees) + (if sees(id, poses[|poses| - 1]) then 1 else 0)
  }

  /**
   * `compute_degree`: one entry per identifier, starting at 0; every pose
   * adds one for each listed landmark it observes.
   */
  method ComputeDegree(lms: seq<Landmark>, poses: seq<Pose>, sees: Visibility) returns (degrees: map<int, nat>)
    ensures degrees.Keys == IdSet(lms)
    ensures forall id :: id in degrees ==> degrees[id] == Occurrences(lms, id) * SeenFrom(id, poses, sees)
  {
    degrees := map id | id in IdSet(lms) :: 0;
    var i := 0;
    while i < |poses|
      invariant 0 <= i <= |poses|
      invariant degrees.Keys == IdSet(lms)
      invariant forall id :: id in degrees ==> degrees[id] == Occurrences(lms, id) * SeenFrom(id, poses[..i], sees)
    {
      var pose := poses[i];
      ghost var before := degrees;
      var j := 0;
      while j < |lms|
        invariant 0 <= j <= |lms|
        invariant degrees.Keys == IdSet(lms)
        invariant forall id :: id in degrees ==>
                    degrees[id] == before[id] + (if sees(id, pose) then Occurrences(lms[..j], id) else 0)
      {
        var lm := lms[j];
        ghost var d := degrees;
        if sees(lm.identifier, pose) {
          degrees := degrees[lm.identifier := degrees[lm.identifier] + 1];
        }
        CountStep(d, degrees, before, lms, j, pose, sees);
        j := j + 1;
      }
      assert lms[..j] == lms;
      PoseStep(degrees, before, lms, poses, i, sees);
      i := i + 1;
    }
    assert poses[..i] == poses;
  }

  /** The inner loop of `compute_degree` counts one more listed landmark. */
  lemma {:induction false} CountStep(d: map<int, nat>, d': map<int, nat>, before: map<int, nat>,
                                     lms: seq<Landmark>, j: nat, pose: Pose, sees: Visibility)
    requires j < |lms| && lms[j].identifier in d && d.Keys == before.Keys
    requires forall id :: id in d ==> d[id] == before[id] + (if sees(id, pose) then Occurrences(lms[..j], id) else 0)
    requires d' == if sees(lms[j].identifier, pose) then d[lms[j].identifier := d[lms[j].identifier] + 1] else d
    ensures d'.Keys == d.Keys
    ensures forall id :: id in d' ==> d'[id] == before[id] + (if sees(id, pose) then Occurrences(lms[..j + 1], id) else 0)
  {
    forall id | id in d'
      ensures d'[id] == before[id] + (if sees(id, pose) then Occurrences(lms[..j + 1], id) else 0)
    {
      OccurrencesSnoc(lms, j, id);
    }
  }

  /** The outer loop of `compute_degree` takes one more pose into account. */
  lemma {:induction false} PoseStep(d: map<int, nat>, before: map<int, nat>,
                                    lms: seq<Landmark>, poses: seq<Pose>, i: nat, sees: Visibility)
    requires i < |poses| && d.Keys == before.Keys
    requires forall id :: id in before ==> before[id] == Occurrences(lms, id) * SeenFrom(id, poses[..i], sees)
    requires forall id :: id in d ==> d[id] == before[id] + (if sees(id, poses[i]) then Occurrences(lms, id) else 0)
    ensures forall id :: id in d ==> d[id] == Occurrences(lms, id) * SeenFrom(id, poses[..i + 1], sees)
  {
    forall id | id in d
      ensures d[id] == Occurrences(lms, id) * SeenFrom(id, poses[..i + 1], sees)
    {
      SeenFromSnoc(poses, i, id, sees);
      DistributeOne(Occurrences(lms, id), SeenFrom(id, poses[..i], sees), sees(id, poses[i]));
    }
  }

  lemma {:induction false} OccurrencesSnoc(lms: seq<Landmark>, j: nat, id: int)
    requires j < |lms|
    ensures Occurrences(lms[..j + 1], id) == Occurrences(lms[..j], id) + (if lms[j].identifier == id then 1 else 0)
  {
    assert lms[..j + 1][..j] == lms[..j];
  }

  lemma {:induction false} SeenFromSnoc(poses: seq<Pose>, i: nat, id: int, sees: Visibility)
    requires i < |poses|
    ensures SeenFrom(id, poses[..i + 1], sees) == SeenFrom(id, poses[..i], sees) + (if sees(id, poses[i]) then 1 else 0)
  {
    assert poses[..i + 1][..i] == poses[..i];
  }

  lemma {:induction false} DistributeOne(o: nat, s: nat, b: bool)
    ensures o * s + (if b then o else 0) == o * (s + if b then 1 else 0)
  {
  }

  /** A landmark that occurs once in the list has degree at most the number of poses. */
  lemma {:induction false} SeenFromBound(id: int, poses: seq<Pose>, sees: Visibility)
    ensures SeenFrom(id, poses, sees) <= |poses|
  {
    if poses != [] {
      SeenFromBound(id, poses[..|poses| - 1], sees);
    }
  }

  /** In a list with distinct identifiers, each present identifier occurs once. */
  lemma {:induction false} OccursOnce(lms: seq<Landmark>, id: int)
    requires DistinctIds(lms) && id in IdSet(lms)
    ensures Occurrences(lms, id) == 1
  {
    var n := |lms| - 1;
    var init := lms[..n];
    assert DistinctIds(init);
    if lms[n].identifier == id {
      OccursNever(init, id);
    } else {
      var x :| x in lms && x.identifier == id;
      var q :| 0 <= q < |lms| && lms[q] == x;
      assert init[q] == x;
      OccursOnce(init, id);
    }
  }

  lemma {:induction false} OccursNever(lms: seq<Landmark>, id: int)
    requires id !in IdSet(lms)
    ensures Occurrences(lms, id) == 0
  {
    if lms != [] {
      var n := |lms| - 1;
      assert lms[n] in lms;
      assert forall x :: x in lms[..n] ==> x in lms;
      OccursNever(lms[..n], id);
    }
  }

  /**
   * For the id-keyed tables the strategies pass in, the degree of each
   * landmark is the number of poses that observe it, so it lies between
   * 0 and the number of poses.
   */
  lemma {:induction false} DegreeOfTable(lms: seq<Landmark>, poses: seq<Pose>, sees: Visibility, id: int)
    requires DistinctIds(lms) && id in IdSet(lms)
    ensures Occurrences(lms, id) * SeenFrom(id, poses, sees) == SeenFrom(id, poses, sees) <= |poses|
  {
    OccursOnce(lms, id);
    SeenFromBound(id, poses, sees);
  }

  /** The failure of `compute_uncertainty`: `np.trace` of a covariance that is not a 2-D array. */
  datatype ScoreError = TraceUndefined(id: int)

  /**
   * `compute_uncertainty`: maps each identifier to the trace of its
   * landmark's covariance (the last landmark with that identifier wins),
   * or raises for the first landmark whose covariance has no trace.
   */
  method ComputeUncertainty(lms: seq<Landmark>) returns (r: Result<map<int, real>, ScoreError>)
    ensures r.Failure? <==> exists i :: 0 <= i < |lms| && TraceOf(lms[i].covariance).None?
    ensures r.Failure? ==> exists i :: 0 <= i < |lms| && TraceOf(lms[i].covariance).None?
                                          && (forall j :: 0 <= j < i ==> TraceOf(lms[j].covariance).Some?)
                                          && r.error == TraceUndefined(lms[i].identifier)
    ensures r.Success? ==> r.value.Keys == IdSet(lms)
    ensures r.Success? ==> forall i :: 0 <= i < |lms| && LastWithItsId(lms, i) ==>
                             r.value[lms[i].identifier] == TraceOf(lms[i].covariance).value
  {
    var u: map<int, real> := map[];
    var i := 0;
    while i < |lms|
      invariant 0 <= i <= |lms|
      invariant forall j :: 0 <= j < i ==> TraceOf(lms[j].covariance).Some?
      invariant u.Keys == IdSet(lms[..i])
      invariant forall j :: 0 <= j < i && LastBefore(lms, j, i) ==> u[lms[j].identifier] == TraceOf(lms[j].covariance).value
    {
      assert lms[..i + 1] == lms[..i] + [lms[i]];
      IdSetConcat(lms[..i], [lms[i]]);
      var t := TraceOf(lms[i].covariance);
      if t.None? {
        return Failure(TraceUndefined(lms[i].identifier));
      }
      u := u[lms[i].identifier := t.value];
      i := i + 1;
    }
    assert lms[..i] == lms;
    r := Success(u);
  }

  /** The outcome of greedy k-cover: finished, or stuck where the source loops forever. */
  datatype Cover = Done(selected: seq<Landmark>) | Stuck(selected: seq<Landmark>)

  /** The still uncovered poses that landmark `id` observes. */
  function Covered(id: int, uncovered: set<Pose>, sees: Visibility): (c: set<Pose>)
    ensures c <= uncovered
  {
    set p | p in uncovered && sees(id, p)
  }

  /**
   * The inner loop of `k_cover_algorithm`: scanning `lms` in order, the
   * incumbent is replaced only by a strictly larger cover, starting from
   * none with cover 0.
   */
  function Best(lms: seq<Landmark>, uncovered: set<Pose>, sees: Visibility): (r: (Option<Landmark>, nat))
    ensures r.0.None? <==> r.1 == 0
    ensures r.0.Some? ==> r.0.value in lms && r.1 == |Covered(r.0.value.identifier, uncovered, sees)|
    ensures forall lm :: lm in lms ==> |Covered(lm.identifier, uncovered, sees)| <= r.1
  {
    if lms == [] then (None, 0)
    else
      var init := lms[..|lms| - 1];
      var lm := lms[|lms| - 1];
      var prev := Best(init, uncovered, sees);
      var c := |Covered(lm.identifier, uncovered, sees)|;
      assert lms == init + [lm];
      if c > prev.1 then (Some(lm), c) else prev
  }

  /** Among landmarks of equal cover the first one scanned wins. */
  lemma {:induction false} BestIsFirst(lms: seq<Landmark>, uncovered: set<Pose>, sees: Visibility)
    ensures var r := Best(lms, uncovered, sees);
            r.0.Some? ==> exists i :: 0 <= i < |lms| && lms[i] == r.0.value
                                      && forall j :: 0 <= j < i ==> |Covered(lms[j].identifier, uncovered, sees)| < r.1
  {
    if lms != [] {
      var init := lms[..|lms| - 1];
      var lm := lms[|lms| - 1];
      var prev := Best(init, uncovered, sees);
      var c := |Covered(lm.identifier, uncovered, sees)|;
      BestIsFirst(init, uncovered, sees);
      assert forall j :: 0 <= j < |init| ==> lms[j] == init[j];
      if c > prev.1 {
        assert lms[|lms| - 1] == lm;
      } else if prev.0.Some? {
        var i :| 0 <= i < |init| && init[i] == prev.0.value
                 && forall j :: 0 <= j < i ==> |Covered(init[j].identifier, uncovered, sees)| < prev.1;
        assert lms[i] == prev.0.value;
      }
    }
  }

  /** One more landmark scanned by the inner loop of `k_cover_algorithm`. */
  lemma {:induction false} BestSnoc(lms: seq<Landmark>, j: nat, uncovered: set<Pose>, sees: Visibility)
    requires j < |lms|
    ensures var prev := Best(lms[..j], uncovered, sees);
            var c := |Covered(lms[j].identifier, uncovered, sees)|;
            Best(lms[..j + 1], uncovered, sees) == if c > prev.1 then (Some(lms[j]), c) else prev
  {
    assert lms[..j + 1][..j] == lms[..j];
  }

  /** One round of the greedy loop. */
  lemma {:induction false} GreedyRound(lms: seq<Landmark>, uncovered: set<Pose>, sel: seq<Landmark>, k: int, sees: Visibility)
    requires |uncovered| > 0 && |sel| < k
    ensures var (best, c) := Best(lms, uncovered, sees);
            Greedy(lms, uncovered, sel, k, sees)
            == if best.None? then Stuck(sel)
               else Greedy(lms, uncovered - Covered(best.value.identifier, uncovered, sees), sel + [best.value], k, sees)
  {
  }

  /**
   * The greedy loop of `k_cover_algorithm` as a reference definition:
   * while poses are uncovered and fewer than `k` landmarks are chosen,
   * choose `Best` and mark its poses covered. Where no landmark covers an
   * uncovered pose the source repeats the round forever; here the result is
   * `Stuck`.
   */
  function Greedy(lms: seq<Landmark>, uncovered: set<Pose>, sel: seq<Landmark>, k: int, sees: Visibility): (r: Cover)
    decreases |uncovered|
  {
    if |uncovered| == 0 || |sel| >= k then Done(sel)
    else
      var (best, c) := Best(lms, uncovered, sees);
      if best.None? then Stuck(sel)
      else
        var covered := Covered(best.value.identifier, uncovered, sees);
        assert |uncovered - covered| < |uncovered| by {
          assert |uncovered - covered| == |uncovered| - |covered|;
        }
        Greedy(lms, uncovered - covered, sel + [best.value], k, sees)
  }

  function Max0(k: int): nat
  {
    if k < 0 then 0 else k
  }

  function SetOf(poses: seq<Pose>): set<Pose>
  {
    set p | p in poses
  }

  /** k-cover selects at most `k` landmarks (none when `k <= 0`). */
  lemma {:induction false} GreedyAtMostK(lms: seq<Landmark>, uncovered: set<Pose>, sel: seq<Landmark>, k: int, sees: Visibility)
    requires |sel| <= Max0(k)
    ensures |Greedy(lms, uncovered, sel, k, sees).selected| <= Max0(k)
    decreases |uncovered|
  {
    if |uncovered| != 0 && |sel| < k {
      var (best, c) := Best(lms, uncovered, sees);
      if best.Some? {
        var covered := Covered(best.value.identifier, uncovered, sees);
        assert |uncovered - covered| == |uncovered| - |covered|;
        GreedyAtMostK(lms, uncovered - covered, sel + [best.value], k, sees);
      }
    }
  }

  /**
   * The run extends the selection made so far, and every selected landmark
   * comes from the input list and is selected at most once.
   */
  lemma {:induction false} GreedySelectsFromInput(lms: seq<Landmark>, uncovered: set<Pose>, sel: seq<Landmark>, k: int, sees: Visibility)
    requires forall x :: x in sel ==> x in lms
    requires forall i, j :: 0 <= i < j < |sel| ==> sel[i] != sel[j]
    requires forall x :: x in sel ==> Covered(x.identifier, uncovered, sees) == {}
    ensures var r := Greedy(lms, uncovered, sel, k, sees).selected;
            && |sel| <= |r| && r[..|sel|] == sel
            && (forall x :: x in r ==> x in lms)
            && (forall i, j :: 0 <= i < j < |r| ==> r[i] != r[j])
    decreases |uncovered|
  {
    if |uncovered| != 0 && |sel| < k {
      var (best, c) := Best(lms, uncovered, sees);
      if best.Some? {
        var b := best.value;
        var covered := Covered(b.identifier, uncovered, sees);
        var rest := uncovered - covered;
        assert |rest| == |uncovered| - |covered|;
        assert b !in sel;
        var sel' := sel + [b];
        forall x | x in sel' ensures Covered(x.identifier, rest, sees) == {} {
          if x != b {
            assert Covered(x.identifier, rest, sees) <= Covered(x.identifier, uncovered, sees);
          }
        }
        GreedySelectsFromInput(lms, rest, sel', k, sees);
        var r := Greedy(lms, rest, sel', k, sees).selected;
        assert r[..|sel|] == r[..|sel'|][..|sel|];
      }
    }
  }

  /**
   * Coverage: every pose of `all` is either still uncovered or observed by a
   * selected landmark; once the loop ends `Done` before reaching `k`, all
   * poses are observed by a selected landmark.
   */
  lemma {:induction false} GreedyCovers(lms: seq<Landmark>, all: set<Pose>, uncovered: set<Pose>, sel: seq<Landmark>, k: int, sees: Visibility)
    requires uncovered <= all
    requires forall p :: p in all && p !in uncovered ==> exists x :: x in sel && sees(x.identifier, p)
    ensures var r := Greedy(lms, uncovered, sel, k, sees);
            r.Done? && |r.selected| < k ==> forall p :: p in all ==> exists x :: x in r.selected && sees(x.identifier, p)
    decreases |uncovered|
  {
    if |uncovered| != 0 && |sel| < k {
      var (best, c) := Best(lms, uncovered, sees);
      if best.Some? {
        var b := best.value;
        var covered := Covered(b.identifier, uncovered, sees);
        var rest := uncovered - covered;
        assert |rest| == |uncovered| - |covered|;
        var sel' := sel + [b];
        forall p | p in all && p !in rest ensures exists x :: x in sel' && sees(x.identifier, p) {
          if p in covered {
            assert b in sel';
          } else {
            var x :| x in sel && sees(x.identifier, p);
            assert x in sel';
          }
        }
        GreedyCovers(lms, all, rest, sel', k, sees);
      }
    }
  }

  /**
   * When the model ends `Stuck`, fewer than `k` landmarks are chosen and
   * some pose is observed by no landmark at all: exactly the situation in
   * which the source's loop never ends.
   */
  lemma {:induction false} GreedyStuck(lms: seq<Landmark>, all: set<Pose>, uncovered: set<Pose>, sel: seq<Landmark>, k: int, sees: Visibility)
    requires uncovered <= all
    ensures var r := Greedy(lms, uncovered, sel, k, sees);
            r.Stuck? ==> |r.selected| < k && exists p :: p in all && forall x :: x in lms ==> !sees(x.identifier, p)
    decreases |uncovered|
  {
    if |uncovered| != 0 && |sel| < k {
      var (best, c) := Best(lms, uncovered, sees);
      if best.None? {
        var p :| p in uncovered;
        forall x | x in lms ensures !sees(x.identifier, p) {
          assert |Covered(x.identifier, uncovered, sees)| <= c == 0;
          assert p !in Covered(x.identifier, uncovered, sees);
        }
      } else {
        var covered := Covered(best.value.identifier, uncovered, sees);
        assert |uncovered - covered| == |uncovered| - |covered|;
        GreedyStuck(lms, all, uncovered - covered, sel + [best.value], k, sees);
      }
    }
  }

  /**
   * `k_cover_algorithm`: the list of chosen landmarks, in selection order.
   * Each choice covers the poses its landmark observes.
   */
  method KCoverAlgorithm(lms: seq<Landmark>, poses: seq<Pose>, k: int, sees: Visibility) returns (r: Cover)
    ensures r == Greedy(lms, SetOf(poses), [], k, sees)
  {
    var cover: seq<Landmark> := [];
    var uncovered := SetOf(poses);
    while |uncovered| > 0 && |cover| < k
      invariant Greedy(lms, uncovered, cover, k, sees) == Greedy(lms, SetOf(poses), [], k, sees)
      decreases |uncovered|
    {
      var best: Option<Landmark> := None;
      var bestCover := 0;
      var j := 0;
      while j < |lms|
        invariant 0 <= j <= |lms|
        invariant (best, bestCover) == Best(lms[..j], uncovered, sees)
      {
        BestSnoc(lms, j, uncovered, sees);
        var lm := lms[j];
        var coverCount := |Covered(lm.identifier, uncovered, sees)|;
        if coverCount > bestCover {
          bestCover := coverCount;
          best := Some(lm);
        }
        j := j + 1;
      }
      assert lms[..j] == lms;
      GreedyRound(lms, uncovered, cover, k, sees);
      if best.None? {
        return Stuck(cover);
      }
      var covered := Covered(best.value.identifier, uncovered, sees);
      CoverShrinks(uncovered, covered);
      cover := cover + [best.value];
      uncovered := uncovered - covered;
    }
    r := Done(cover);
  }

  lemma {:induction false} CoverShrinks(uncovered: set<Pose>, covered: set<Pose>)
    requires covered <= uncovered
    ensures |uncovered - covered| == |uncovered| - |covered|
  {
  }

  /** The corner cases of `k_cover_algorithm`. */
  lemma {:induction false} KCoverCornerCases(lms: seq<Landmark>, poses: seq<Pose>, k: int, sees: Visibility)
    ensures k <= 0 ==> Greedy(lms, SetOf(poses), [], k, sees) == Done([])
    ensures poses == [] ==> Greedy(lms, SetOf(poses), [], k, sees) == Done([])
    ensures lms == [] && poses != [] && k > 0 ==> Greedy(lms, SetOf(poses), [], k, sees) == Stuck([])
  {
    if poses == [] {
      assert SetOf(poses) == {};
    }
    if poses != [] {
      assert poses[0] in SetOf(poses);
    }
  }

  /**
   * `compute_mutual_information` and `compute_reprojection_error`:
   * `{lm.identifier: score(lm) for lm in landmarks}` built over the first
   * `n` landmarks, with the score function in place of the random values.
   */
  function ScoresUpTo(lms: seq<Landmark>, poses: seq<Pose>, score: ScoreFn, n: nat): (m: map<int, real>)
    requires n <= |lms|
    ensures m.Keys == IdSet(lms[..n])
  {
    if n == 0 then map[]
    else
      var x := lms[n - 1];
      assert lms[..n] == lms[..n - 1] + [x];
      IdSetConcat(lms[..n - 1], [x]);
      ScoresUpTo(lms, poses, score, n - 1)[x.identifier := score(lms, poses, x)]
  }

  /** Each identifier's score is that of its last landmark among the first `n`. */
  lemma {:induction false} ScoresUpToValues(lms: seq<Landmark>, poses: seq<Pose>, score: ScoreFn, n: nat)
    requires n <= |lms|
    ensures forall i :: 0 <= i < n && LastBefore(lms, i, n) ==>
              lms[i].identifier in ScoresUpTo(lms, poses, score, n)
              && ScoresUpTo(lms, poses, score, n)[lms[i].identifier] == score(lms, poses, lms[i])
  {
    forall i | 0 <= i < n && LastBefore(lms, i, n)
      ensures lms[i].identifier in ScoresUpTo(lms, poses, score, n)
              && ScoresUpTo(lms, poses, score, n)[lms[i].identifier] == score(lms, poses, lms[i])
    {
      ScoreAt(lms, poses, score, n, i);
    }
  }

  lemma {:induction false} ScoreAt(lms: seq<Landmark>, poses: seq<Pose>, score: ScoreFn, n: nat, i: nat)
    requires i < n <= |lms| && LastBefore(lms, i, n)
    ensures lms[i].identifier in ScoresUpTo(lms, poses, score, n)
    ensures ScoresUpTo(lms, poses, score, n)[lms[i].identifier] == score(lms, poses, lms[i])
  {
    var x := lms[n - 1];
    var prev := ScoresUpTo(lms, poses, score, n - 1);
    assert ScoresUpTo(lms, poses, score, n) == prev[x.identifier := score(lms, poses, x)];
    if i < n - 1 {
      assert lms[i].identifier != x.identifier;
      assert LastBefore(lms, i, n - 1);
      ScoreAt(lms, poses, score, n - 1, i);
    }
  }

  /** One score per landmark identifier; the last landmark with an identifier gives its score. */
  function ScoresById(lms: seq<Landmark>, poses: seq<Pose>, score: ScoreFn): (m: map<int, real>)
    ensures m.Keys == IdSet(lms)
    ensures forall i :: 0 <= i < |lms| && LastWithItsId(lms, i) ==> m[lms[i].identifier] == score(lms, poses, lms[i])
  {
    assert lms[..|lms|] == lms;
    ScoresUpToValues(lms, poses, score, |lms|);
    ScoresUpTo(lms, poses, score, |lms|)
  }
}
