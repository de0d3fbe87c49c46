/**
 * `LandmarkRemoval`: an identifier-keyed table of landmarks together with a
 * list of poses, and five strategies that each rebuild the table from a
 * reordered, selected or drained list of its landmarks.
 */
module Removal {
  import opened Wrappers
  import opened Geometry
  import opened Values
  import opened Landmarks
  import opened Tables
  import opened StableSort
  import opened Scoring

  /** A dynamically typed setter argument: a Python list, or anything else. */
  datatype ListArg<T> = PyList(items: seq<T>) | NonList

  datatype RemovalError =
    | MustBeList                            // ValueError from a setter
    | UncertaintyUndefined(e: ScoreError)   // compute_uncertainty raised
    | CoverDiverges                         // k_cover_algorithm never returns
    | MissingId(id: int)                    // KeyError in _remove_landmarks

  /** The key of `least_degree_removal`, stated through the visibility relation. */
  function DegreeKey(poses: seq<Pose>, sees: Visibility): Landmark -> real
  {
    (lm: Landmark) => SeenFrom(lm.identifier, poses, sees) as real
  }

  /** Looking a landmark up in the degree dictionary. */
  function DegreeLookup(degrees: map<int, nat>): Landmark -> real
  {
    (lm: Landmark) => if lm.identifier in degrees then degrees[lm.identifier] as real else 0.0
  }

  /** Looking a landmark up in a score dictionary. */
  function ScoreLookup(scores: map<int, real>): Landmark -> real
  {
    (lm: Landmark) => if lm.identifier in scores then scores[lm.identifier] else 0.0
  }

  /** The trace of a covariance, where it has one. */
  function TraceValue(v: Value): real
  {
    match TraceOf(v)
    case Some(t) => t
    case None => 0.0
  }

  /** `sorted(..., key=..., reverse=True)` is the stable sort by the negated key. */
  function NegatedLookup(scores: map<int, real>): Landmark -> real
  {
    (lm: Landmark) => if lm.identifier in scores then -scores[lm.identifier] else 0.0
  }

  /** A score function applied against a fixed landmark list and pose list. */
  function ScoreKey(lms: seq<Landmark>, poses: seq<Pose>, score: ScoreFn): Landmark -> real
  {
    (lm: Landmark) => score(lms, poses, lm)
  }

  /** `list(reversed(s))`. */
  function Reversed<T>(s: seq<T>): (r: seq<T>)
    ensures |r| == |s|
    ensures forall i :: 0 <= i < |s| ==> r[i] == s[|s| - 1 - i]
  {
    if s == [] then [] else Reversed(s[1..]) + [s[0]]
  }

  /**
   * `min(infos, key=infos.get)` over a table's identifiers: the position of
   * the first entry with the least score.
   */
  function FirstMin(t: seq<Landmark>, m: map<int, real>): (i: nat)
    requires |t| > 0
    requires forall x :: x in t ==> x.identifier in m
    ensures i < |t|
    ensures forall j :: 0 <= j < |t| ==> m[t[i].identifier] <= m[t[j].identifier]
    ensures forall j :: 0 <= j < i ==> m[t[i].identifier] < m[t[j].identifier]
  {
    if |t| == 1 then 0
    else
      var init := t[..|t| - 1];
      assert forall x :: x in init ==> x in t;
      var k := FirstMin(init, m);
      assert forall j :: 0 <= j < |init| ==> init[j] == t[j];
      if m[t[|t| - 1].identifier] < m[t[k].identifier] then |t| - 1 else k
  }

  /** Over a table, the score dictionary holds each landmark's own score. */
  lemma {:induction false} TableScores(t: seq<Landmark>, poses: seq<Pose>, score: ScoreFn)
    requires DistinctIds(t)
    ensures forall x :: x in t ==> x.identifier in ScoresById(t, poses, score)
                                   && ScoresById(t, poses, score)[x.identifier] == score(t, poses, x)
  {
    var m := ScoresById(t, poses, score);
    forall x | x in t ensures x.identifier in m && m[x.identifier] == score(t, poses, x) {
      var i :| 0 <= i < |t| && t[i] == x;
      assert LastWithItsId(t, i);
    }
  }

  /** The next landmark `least_informative_removal` deletes from table `t`. */
  function NextToDrain(t: seq<Landmark>, poses: seq<Pose>, score: ScoreFn): (i: nat)
    requires DistinctIds(t) && t != []
    ensures i < |t|
    ensures forall x :: x in t ==> score(t, poses, t[i]) <= score(t, poses, x)
    ensures forall j :: 0 <= j < i ==> score(t, poses, t[i]) < score(t, poses, t[j])
  {
    TableScores(t, poses, score);
    FirstMin(t, ScoresById(t, poses, score))
  }

  /** Deleting one entry of a table takes exactly that entry out of its multiset. */
  lemma {:induction false} DeleteOne(t: seq<Landmark>, i: nat)
    requires DistinctIds(t) && i < |t|
    ensures multiset(Delete(t, t[i].identifier)) + multiset{t[i]} == multiset(t)
  {
    DeleteAt(t, i);
    assert t == t[..i] + [t[i]] + t[i + 1..];
  }

  /**
   * The order in which `least_informative_removal` deletes the landmarks of
   * table `t`: the first least-scored landmark, scored against the current
   * table, then the order for what remains.
   */
  function DrainOrder(t: seq<Landmark>, poses: seq<Pose>, score: ScoreFn): (order: seq<Landmark>)
    requires DistinctIds(t)
    ensures |order| == |t|
    decreases |t|
  {
    if t == [] then []
    else
      var i := NextToDrain(t, poses, score);
      [t[i]] + DrainOrder(Delete(t, t[i].identifier), poses, score)
  }

  /** The drain removes every landmark of the table exactly once. */
  lemma {:induction false} DrainOrderPermutation(t: seq<Landmark>, poses: seq<Pose>, score: ScoreFn)
    requires DistinctIds(t)
    ensures multiset(DrainOrder(t, poses, score)) == multiset(t)
    decreases |t|
  {
    if t != [] {
      var i := NextToDrain(t, poses, score);
      DeleteOne(t, i);
      DrainOrderPermutation(Delete(t, t[i].identifier), poses, score);
    }
  }

  /** The first landmark drained has the least score among those present. */
  lemma {:induction false} DrainOrderHead(t: seq<Landmark>, poses: seq<Pose>, score: ScoreFn)
    requires DistinctIds(t) && t != []
    ensures forall x :: x in t ==> score(t, poses, DrainOrder(t, poses, score)[0]) <= score(t, poses, x)
  {
  }

  /** Sorting a table gives a table, which the dict comprehension keeps as it is. */
  lemma {:induction false} SortedTable(t: seq<Landmark>, key: Landmark -> real)
    requires DistinctIds(t)
    ensures DistinctIds(SortBy(t, key)) && TableOf(SortBy(t, key)) == SortBy(t, key)
  {
    PermutationKeepsDistinctIds(t, SortBy(t, key));
    TableOfDistinct(SortBy(t, key));
  }

  /** Over a table, the uncertainty dictionary holds each landmark's own trace. */
  lemma {:induction false} TableTraces(t: seq<Landmark>, traces: map<int, real>)
    requires DistinctIds(t)
    requires forall i :: 0 <= i < |t| ==> TraceOf(t[i].covariance).Some?
    requires traces.Keys == IdSet(t)
    requires forall i :: 0 <= i < |t| && LastWithItsId(t, i) ==> traces[t[i].identifier] == TraceOf(t[i].covariance).value
    ensures forall x :: x in t ==> x.identifier in traces && TraceOf(x.covariance) == Some(traces[x.identifier])
  {
    forall x | x in t
      ensures x.identifier in traces && TraceOf(x.covariance) == Some(traces[x.identifier])
    {
      var i :| 0 <= i < |t| && t[i] == x;
      assert LastWithItsId(t, i);
    }
  }

  /** Where every trace is known, sorting by the negated trace lists the traces in non-increasing order. */
  lemma {:induction false} TracesDescend(t: seq<Landmark>, traces: map<int, real>)
    requires forall x :: x in t ==> x.identifier in traces && TraceOf(x.covariance) == Some(traces[x.identifier])
    ensures forall i, j :: 0 <= i < j < |SortBy(t, NegatedLookup(traces))| ==>
              TraceValue(SortBy(t, NegatedLookup(traces))[i].covariance)
              >= TraceValue(SortBy(t, NegatedLookup(traces))[j].covariance)
  {
    var s := SortBy(t, NegatedLookup(traces));
    forall i, j | 0 <= i < j < |s|
      ensures TraceValue(s[i].covariance) >= TraceValue(s[j].covariance)
    {
      assert s[i] in multiset(t) && s[j] in multiset(t);
      assert NegatedLookup(traces)(s[i]) <= NegatedLookup(traces)(s[j]);
    }
  }

  /** Sorting a table by a key that agrees with `spec` on its entries sorts it by `spec`, and gives a table. */
  lemma {:induction false} RankedTable(t: seq<Landmark>, key: Landmark -> real, spec: Landmark -> real)
    requires DistinctIds(t)
    requires forall x :: x in t ==> key(x) == spec(x)
    ensures SortBy(t, key) == SortBy(t, spec)
    ensures DistinctIds(SortBy(t, spec)) && TableOf(SortBy(t, spec)) == SortBy(t, spec)
  {
    SortByCongruent(t, key, spec);
    SortedTable(t, spec);
  }

  /** Over a table, the degree dictionary gives each landmark the number of poses that see it. */
  lemma {:induction false} DegreesAgree(t: seq<Landmark>, poses: seq<Pose>, sees: Visibility, degrees: map<int, nat>)
    requires DistinctIds(t)
    requires degrees.Keys == IdSet(t)
    requires forall id :: id in degrees ==> degrees[id] == Occurrences(t, id) * SeenFrom(id, poses, sees)
    ensures forall x :: x in t ==> DegreeLookup(degrees)(x) == DegreeKey(poses, sees)(x)
  {
    forall x | x in t ensures DegreeLookup(degrees)(x) == DegreeKey(poses, sees)(x) {
      DegreeOfTable(t, poses, sees, x.identifier);
    }
  }

  /** The degree ranking is a permutation in non-decreasing degree. */
  lemma {:induction false} DegreeOrder(t: seq<Landmark>, poses: seq<Pose>, sees: Visibility)
    ensures multiset(SortBy(t, DegreeKey(poses, sees))) == multiset(t)
    ensures forall i, j :: 0 <= i < j < |SortBy(t, DegreeKey(poses, sees))| ==>
              SeenFrom(SortBy(t, DegreeKey(poses, sees))[i].identifier, poses, sees)
              <= SeenFrom(SortBy(t, DegreeKey(poses, sees))[j].identifier, poses, sees)
  {
    var s := SortBy(t, DegreeKey(poses, sees));
    assert SortedBy(s, DegreeKey(poses, sees));
    forall i, j | 0 <= i < j < |s|
      ensures SeenFrom(s[i].identifier, poses, sees) <= SeenFrom(s[j].identifier, poses, sees)
    {
      assert DegreeKey(poses, sees)(s[i]) <= DegreeKey(poses, sees)(s[j]);
    }
  }

  /** Over a table, the score dictionary agrees with the score function. */
  lemma {:induction false} ScoresAgree(t: seq<Landmark>, poses: seq<Pose>, score: ScoreFn)
    requires DistinctIds(t)
    ensures forall x :: x in t ==> ScoreLookup(ScoresById(t, poses, score))(x) == ScoreKey(t, poses, score)(x)
  {
    TableScores(t, poses, score);
  }

  /** The score ranking is a permutation in non-decreasing score. */
  lemma {:induction false} ScoreOrder(t: seq<Landmark>, poses: seq<Pose>, score: ScoreFn)
    ensures multiset(SortBy(t, ScoreKey(t, poses, score))) == multiset(t)
    ensures forall i, j :: 0 <= i < j < |SortBy(t, ScoreKey(t, poses, score))| ==>
              score(t, poses, SortBy(t, ScoreKey(t, poses, score))[i])
              <= score(t, poses, SortBy(t, ScoreKey(t, poses, score))[j])
  {
    var s := SortBy(t, ScoreKey(t, poses, score));
    assert SortedBy(s, ScoreKey(t, poses, score));
    forall i, j | 0 <= i < j < |s|
      ensures score(t, poses, s[i]) <= score(t, poses, s[j])
    {
      assert ScoreKey(t, poses, score)(s[i]) <= ScoreKey(t, poses, score)(s[j]);
    }
  }

  /**
   * A finished greedy cover of a table, reversed, is itself a table of at
   * most `k` of its landmarks.
   */
  lemma {:induction false} KCoverTable(t: seq<Landmark>, poses: seq<Pose>, k: int, sees: Visibility)
    requires DistinctIds(t)
    ensures var r := Reversed(Greedy(t, SetOf(poses), [], k, sees).selected);
            && DistinctIds(r) && TableOf(r) == r
            && |r| <= Max0(k)
            && forall x :: x in r ==> x in t
  {
    var g := Greedy(t, SetOf(poses), [], k, sees).selected;
    GreedyAtMostK(t, SetOf(poses), [], k, sees);
    GreedySelectsFromInput(t, SetOf(poses), [], k, sees);
    ReversedElements(g);
    DistinctFromTable(t, Reversed(g));
    TableOfDistinct(Reversed(g));
  }

  /** Reversal keeps the elements, and keeps them pairwise distinct. */
  lemma {:induction false} ReversedElements<T>(s: seq<T>)
    requires forall i, j :: 0 <= i < j < |s| ==> s[i] != s[j]
    ensures forall x :: x in Reversed(s) ==> x in s
    ensures forall i, j :: 0 <= i < j < |Reversed(s)| ==> Reversed(s)[i] != Reversed(s)[j]
  {
    var r := Reversed(s);
    forall x | x in r ensures x in s {
      var i :| 0 <= i < |r| && r[i] == x;
      assert s[|s| - 1 - i] == x;
    }
    forall i, j | 0 <= i < j < |r| ensures r[i] != r[j] {
      assert r[i] == s[|s| - 1 - i] && r[j] == s[|s| - 1 - j];
    }
  }

  /** One round of the drain: the next landmark, then the drain of what remains. */
  lemma {:induction false} DrainStep(t: seq<Landmark>, poses: seq<Pose>, score: ScoreFn)
    requires DistinctIds(t) && t != []
    ensures var i := NextToDrain(t, poses, score);
            DrainOrder(t, poses, score) == [t[i]] + DrainOrder(Delete(t, t[i].identifier), poses, score)
  {
  }

  /** One round of the drain keeps the loop's account: drained so far, then the drain of what remains. */
  lemma {:induction false} DrainRound(t: seq<Landmark>, poses: seq<Pose>, score: ScoreFn,
                                      removed: seq<Landmark>, rest: seq<Landmark>)
    requires DistinctIds(t) && DistinctIds(rest) && rest != []
    requires DrainOrder(t, poses, score) == removed + DrainOrder(rest, poses, score)
    ensures var i := NextToDrain(rest, poses, score);
            DistinctIds(Delete(rest, rest[i].identifier))
            && |Delete(rest, rest[i].identifier)| < |rest|
            && DrainOrder(t, poses, score)
               == (removed + [rest[i]]) + DrainOrder(Delete(rest, rest[i].identifier), poses, score)
  {
    var i := NextToDrain(rest, poses, score);
    assert rest[i] in rest;
    DrainStep(rest, poses, score);
    ConcatAssoc(removed, [rest[i]], DrainOrder(Delete(rest, rest[i].identifier), poses, score));
  }

  lemma {:induction false} ConcatEmpty<T>(a: seq<T>)
    ensures [] + a == a && a + [] == a
  {
  }

  lemma {:induction false} ConcatAssoc<T>(a: seq<T>, b: seq<T>, c: seq<T>)
    ensures a + (b + c) == (a + b) + c
  {
  }

  /** The outcome of deleting identifiers one at a time: what is left, and the id that was missing. */
  datatype Deletion = Deletion(remaining: seq<Landmark>, missing: Option<int>)

  /**
   * `for landmark in xs: del table[landmark.identifier]`: stops with a
   * KeyError at the first identifier no longer present, keeping the
   * deletions already made.
   */
  function DeleteEach(t: seq<Landmark>, xs: seq<Landmark>): Deletion
    decreases |xs|
  {
    if xs == [] then Deletion(t, None)
    else if xs[0].identifier !in IdSet(t) then Deletion(t, Some(xs[0].identifier))
    else DeleteEach(Delete(t, xs[0].identifier), xs[1..])
  }

  /**
   * The deletions all succeed exactly when the listed identifiers are
   * distinct and present, and then they remove exactly those identifiers.
   */
  lemma {:induction false} DeleteEachSucceeds(t: seq<Landmark>, xs: seq<Landmark>)
    ensures DeleteEach(t, xs).missing.None? <==> DistinctIds(xs) && IdSet(xs) <= IdSet(t)
    ensures DeleteEach(t, xs).missing.None? ==> DeleteEach(t, xs).remaining == Without(t, IdSet(xs))
    decreases |xs|
  {
    if xs == [] {
      WithoutNothing(t);
      assert IdSet(xs) == {};
    } else {
      var id := xs[0].identifier;
      var rest := xs[1..];
      assert xs == [xs[0]] + rest;
      IdSetConcat([xs[0]], rest);
      assert IdSet([xs[0]]) == {id};
      DistinctCons(xs);
      if id in IdSet(t) {
        DeleteEachSucceeds(Delete(t, id), rest);
        WithoutWithout(t, {id}, IdSet(rest));
        assert Delete(t, id) == Without(t, {id});
      }
    }
  }

  /** A list has distinct identifiers exactly when its tail has and its head's is new. */
  lemma {:induction false} DistinctCons(xs: seq<Landmark>)
    requires xs != []
    ensures DistinctIds(xs) <==> DistinctIds(xs[1..]) && xs[0].identifier !in IdSet(xs[1..])
  {
    var id := xs[0].identifier;
    if DistinctIds(xs[1..]) && id !in IdSet(xs[1..]) {
      forall i, j | 0 <= i < j < |xs| ensures xs[i].identifier != xs[j].identifier {
        assert xs[j] == xs[1..][j - 1];
        if i > 0 {
          assert xs[i] == xs[1..][i - 1];
        }
      }
    }
    if DistinctIds(xs) {
      forall i, j | 0 <= i < j < |xs[1..]| ensures xs[1..][i].identifier != xs[1..][j].identifier {
        assert xs[1..][i] == xs[i + 1] && xs[1..][j] == xs[j + 1];
      }
      forall q | 0 <= q < |xs[1..]| ensures xs[1..][q].identifier != id {
        assert xs[1..][q] == xs[q + 1];
      }
    }
  }

  /**
   * The engine's state: the table `_landmarks` (listed in insertion order,
   * one entry per identifier) and the list of poses.
   */
  class LandmarkRemoval {
    var entries: seq<Landmark>
    var poses: seq<Pose>

    ghost predicate Valid()
      reads this
    {
      DistinctIds(entries)
    }

    /** Keys the given landmarks by identifier; a later duplicate wins. */
    constructor (landmarks: seq<Landmark>, poses: seq<Pose>)
      ensures Valid()
      ensures entries == TableOf(landmarks) && this.poses == poses
      ensures |entries| == |IdSet(landmarks)|
    {
      entries := TableOf(landmarks);
      this.poses := poses;
      TableOfSize(landmarks);
    }

    /** The `landmarks` setter: a list rebuilds the table, anything else is refused. */
    method SetLandmarks(arg: ListArg<Landmark>) returns (r: Outcome<RemovalError>)
      requires Valid()
      modifies this`entries
      ensures Valid()
      ensures arg.NonList? ==> r == Fail(MustBeList) && entries == old(entries)
      ensures arg.PyList? ==> r == Pass && entries == TableOf(arg.items)
    {
      if arg.NonList? {
        return Fail(MustBeList);
      }
      entries := TableOf(arg.items);
      r := Pass;
    }

    /** The `poses` setter: a list replaces the poses, anything else is refused. */
    method SetPoses(arg: ListArg<Pose>) returns (r: Outcome<RemovalError>)
      modifies this`poses
      ensures arg.NonList? ==> r == Fail(MustBeList) && poses == old(poses)
      ensures arg.PyList? ==> r == Pass && poses == arg.items
    {
      if arg.NonList? {
        return Fail(MustBeList);
      }
      poses := arg.items;
      r := Pass;
    }

    /**
     * `least_degree_removal`: the table becomes the stable sort of its
     * landmarks by the number of poses that see them.
     */
    method LeastDegreeRemoval(sees: Visibility) returns (r: seq<Landmark>)
      requires Valid()
      modifies this`entries
      ensures Valid()
      ensures entries == SortBy(old(entries), DegreeKey(poses, sees)) && r == entries
      ensures multiset(entries) == multiset(old(entries))
      ensures forall i, j :: 0 <= i < j < |entries| ==>
                SeenFrom(entries[i].identifier, poses, sees) <= SeenFrom(entries[j].identifier, poses, sees)
    {
      var t, ps := entries, poses;
      var degrees := ComputeDegree(t, ps, sees);
      DegreesAgree(t, ps, sees, degrees);
      RankedTable(t, DegreeLookup(degrees), DegreeKey(ps, sees));
      DegreeOrder(t, ps, sees);
      entries := TableOf(SortBy(t, DegreeLookup(degrees)));
      r := entries;
    }

    /**
     * `max_uncertainty_removal`: when every covariance has a trace, the
     * table becomes the stable sort by decreasing trace; otherwise the
     * uncertainty computation raises and the table is unchanged.
     */
    method MaxUncertaintyRemoval() returns (r: Result<seq<Landmark>, RemovalError>, ghost traces: map<int, real>)
      requires Valid()
      modifies this`entries
      ensures Valid()
      ensures r.Failure? <==> exists i :: 0 <= i < |old(entries)| && TraceOf(old(entries)[i].covariance).None?
      ensures r.Failure? ==> entries == old(entries) && r.error.UncertaintyUndefined?
      ensures r.Success? ==> forall x :: x in old(entries) ==>
                               x.identifier in traces && TraceOf(x.covariance) == Some(traces[x.identifier])
      ensures r.Success? ==> entries == SortBy(old(entries), NegatedLookup(traces)) && r.value == entries
      ensures r.Success? ==> multiset(entries) == multiset(old(entries))
      ensures r.Success? ==> forall i, j :: 0 <= i < j < |entries| ==>
                               TraceValue(entries[i].covariance) >= TraceValue(entries[j].covariance)
    {
      var t := entries;
      traces := map[];
      var u := ComputeUncertainty(t);
      if u.Failure? {
        return Failure(UncertaintyUndefined(u.error)), traces;
      }
      traces := u.value;
      TableTraces(t, traces);
      SortedTable(t, NegatedLookup(u.value));
      TracesDescend(t, traces);
      entries := TableOf(SortBy(t, NegatedLookup(u.value)));
      r := Success(entries);
    }

    /**
     * `k_cover_removal`: the table becomes the greedy selection in reverse
     * order of selection; where the greedy loop never ends, so does the
     * source, and the model reports that and keeps the table.
     */
    method KCoverRemoval(sees: Visibility, k: int := 1) returns (r: Result<seq<Landmark>, RemovalError>)
      requires Valid()
      modifies this`entries
      ensures Valid()
      ensures Greedy(old(entries), SetOf(poses), [], k, sees).Stuck? ==>
                r == Failure(CoverDiverges) && entries == old(entries)
      ensures Greedy(old(entries), SetOf(poses), [], k, sees).Done? ==>
                entries == Reversed(Greedy(old(entries), SetOf(poses), [], k, sees).selected) && r == Success(entries)
      ensures r.Success? ==> |entries| <= Max0(k) && forall x :: x in entries ==> x in old(entries)
    {
      var t, ps := entries, poses;
      var c := KCoverAlgorithm(t, ps, k, sees);
      if c.Stuck? {
        return Failure(CoverDiverges);
      }
      KCoverTable(t, ps, k, sees);
      entries := TableOf(Reversed(c.selected));
      r := Success(entries);
    }

    /**
     * `least_informative_removal`: repeatedly deletes the first
     * least-scored landmark, scored against the current table, until the
     * table is empty; `removed` records the deletions.
     */
    method LeastInformativeRemoval(score: ScoreFn) returns (r: seq<Landmark>, ghost removed: seq<Landmark>)
      requires Valid()
      modifies this`entries
      ensures Valid()
      ensures entries == [] && r == []
      ensures removed == DrainOrder(old(entries), poses, score)
    {
      var ps := poses;
      ghost var t := entries;
      removed := [];
      ConcatEmpty(DrainOrder(t, ps, score));
      while |entries| > 0
        invariant DistinctIds(entries)
        invariant DrainOrder(t, ps, score) == removed + DrainOrder(entries, ps, score)
        decreases |entries|
      {
        var i := NextToDrain(entries, ps, score);
        DrainRound(t, ps, score, removed, entries);
        removed := removed + [entries[i]];
        entries := Delete(entries, entries[i].identifier);
      }
      assert entries == [];
      ConcatEmpty(removed);
      r := entries;
    }

    /** `least_reprojection_error_removal`: the stable sort by increasing error score. */
    method LeastReprojectionErrorRemoval(score: ScoreFn) returns (r: seq<Landmark>)
      requires Valid()
      modifies this`entries
      ensures Valid()
      ensures entries == SortBy(old(entries), ScoreKey(old(entries), poses, score)) && r == entries
      ensures multiset(entries) == multiset(old(entries))
      ensures forall i, j :: 0 <= i < j < |entries| ==>
                score(old(entries), poses, entries[i]) <= score(old(entries), poses, entries[j])
    {
      var t, ps := entries, poses;
      var errors := ScoresById(t, ps, score);
      ScoresAgree(t, ps, score);
      RankedTable(t, ScoreLookup(errors), ScoreKey(t, ps, score));
      ScoreOrder(t, ps, score);
      entries := TableOf(SortBy(t, ScoreLookup(errors)));
      r := entries;
    }

    /** `_remove_landmarks`: deletes the listed identifiers in order, failing at a missing one. */
    method RemoveLandmarks(xs: seq<Landmark>) returns (r: Result<seq<Landmark>, RemovalError>)
      requires Valid()
      modifies this`entries
      ensures Valid()
      ensures entries == DeleteEach(old(entries), xs).remaining
      ensures r.Success? <==> DeleteEach(old(entries), xs).missing.None?
      ensures r.Success? ==> r.value == entries
      ensures r.Failure? ==> r.error == MissingId(DeleteEach(old(entries), xs).missing.value)
    {
      var i := 0;
      while i < |xs|
        invariant 0 <= i <= |xs|
        invariant DistinctIds(entries)
        invariant DeleteEach(entries, xs[i..]) == DeleteEach(old(entries), xs)
      {
        assert xs[i..][1..] == xs[i + 1..];
        var id := xs[i].identifier;
        if IndexOfId(entries, id).None? {
          return Failure(MissingId(id));
        }
        entries := Delete(entries, id);
        i := i + 1;
      }
      r := Success(entries);
    }
  }

  /** `get_algorithm_names`: the five strategy names. */
  function AlgorithmNames(): (names: seq<string>)
    ensures |names| == 5
    ensures forall i, j :: 0 <= i < j < |names| ==> names[i] != names[j]
  {
    ["least_degree_removal",
     "max_uncertainty_removal",
     "k_cover_removal",
     "least_informative_removal",
     "least_reprojection_error_removal"]
  }
}
