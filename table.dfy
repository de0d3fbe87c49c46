/**
 * A Python dict from landmark identifier to landmark, built as
 * `{lm.identifier: lm for lm in xs}`: a sequence of landmarks in the dict's
 * insertion order, with pairwise distinct identifiers.
 */
module Tables {
  import opened Wrappers
  import opened Landmarks

  /** The set of identifiers of a list of landmarks. */
  function IdSet(s: seq<Landmark>): set<int>
  {
    set lm | lm in s :: lm.identifier
  }

  /** No identifier appears twice: the shape of every id-keyed dict. */
  predicate DistinctIds(s: seq<Landmark>)
  {
    forall i, j :: 0 <= i < j < |s| ==> s[i].identifier != s[j].identifier
  }

  /** No landmark after position `i` and before position `n` carries the identifier of `s[i]`. */
  predicate LastBefore(s: seq<Landmark>, i: nat, n: nat)
    requires i < n <= |s|
  {
    forall j :: i < j < n ==> s[j].identifier != s[i].identifier
  }

  /** No landmark after position `i` carries the identifier of `s[i]`. */
  predicate LastWithItsId(s: seq<Landmark>, i: nat)
    requires i < |s|
  {
    LastBefore(s, i, |s|)
  }

  /** Position of the first landmark with identifier `id`. */
  function IndexOfId(s: seq<Landmark>, id: int): (r: Option<nat>)
    ensures r.None? <==> id !in IdSet(s)
    ensures r.Some? ==> r.value < |s| && s[r.value].identifier == id
    ensures r.Some? ==> forall j :: 0 <= j < r.value ==> s[j].identifier != id
  {
    if s == [] then None
    else if s[0].identifier == id then Some(0)
    else
      assert s == [s[0]] + s[1..];
      match IndexOfId(s[1..], id)
      case None => None
      case Some(k) => Some(k + 1)
  }

  /** The landmark stored under `id` (`d[id]`). */
  function Lookup(s: seq<Landmark>, id: int): (lm: Landmark)
    requires id in IdSet(s)
    ensures lm in s && lm.identifier == id
  {
    s[IndexOfId(s, id).value]
  }

  /**
   * `d[lm.identifier] = lm`: an existing entry keeps its position and gets the
   * new value; a new identifier is appended.
   */
  function Put(t: seq<Landmark>, lm: Landmark): (r: seq<Landmark>)
    ensures IdSet(r) == IdSet(t) + {lm.identifier}
    ensures lm in r
    ensures forall x :: x in r ==> x == lm || x in t
    ensures forall p :: 0 <= p < |t| && t[p].identifier != lm.identifier ==> p < |r| && r[p] == t[p]
    ensures DistinctIds(t) ==> DistinctIds(r)
  {
    match IndexOfId(t, lm.identifier)
    case Some(p) =>
      var r := t[p := lm];
      assert r[p] == lm;
      assert forall x :: x in r ==> x == lm || x in t by {
        forall x | x in r ensures x == lm || x in t {
          var q :| 0 <= q < |r| && r[q] == x;
          if q != p { assert t[q] == x; }
        }
      }
      assert IdSet(r) == IdSet(t) + {lm.identifier} by {
        forall id | id in IdSet(t) ensures id in IdSet(r) {
          var x :| x in t && x.identifier == id;
          var q :| 0 <= q < |t| && t[q] == x;
          if q != p { assert r[q] == x; } else { assert r[p] == lm; }
        }
      }
      r
    case None =>
      t + [lm]
  }

  /** `{lm.identifier: lm for lm in s}`. */
  function TableOf(s: seq<Landmark>): (r: seq<Landmark>)
    ensures DistinctIds(r)
    ensures IdSet(r) == IdSet(s)
    ensures forall x :: x in r ==> x in s
  {
    if s == [] then []
    else Put(TableOf(s[..|s| - 1]), s[|s| - 1])
  }

  /** With duplicate identifiers the later landmark wins. */
  lemma {:induction false} TableOfLastWins(s: seq<Landmark>, i: nat)
    requires i < |s| && LastWithItsId(s, i)
    ensures s[i] in TableOf(s)
  {
    var n := |s| - 1;
    var init := s[..n];
    if i < n {
      TableOfLastWins(init, i);
      var t := TableOf(init);
      var p :| 0 <= p < |t| && t[p] == s[i];
      assert t[p].identifier != s[n].identifier;
      assert TableOf(s)[p] == s[i];
    }
  }

  /** Entries appear in the order in which their identifiers first occur in `s`. */
  lemma {:induction false} TableOfFirstOccurrenceOrder(s: seq<Landmark>, p: nat, q: nat)
    requires p < q < |TableOf(s)|
    ensures IndexOfId(s, TableOf(s)[p].identifier).value < IndexOfId(s, TableOf(s)[q].identifier).value
    decreases |s|, 1
  {
    assert s != [];
    var n := |s| - 1;
    var t := TableOf(s[..n]);
    assert TableOf(s) == Put(t, s[n]);
    if s[n].identifier in IdSet(t) {
      FirstOccurrenceReplaced(s, p, q);
    } else {
      FirstOccurrenceAppended(s, p, q);
    }
  }

  lemma {:induction false} FirstOccurrenceReplaced(s: seq<Landmark>, p: nat, q: nat)
    requires s != []
    requires s[|s| - 1].identifier in IdSet(TableOf(s[..|s| - 1]))
    requires p < q < |TableOf(s)|
    ensures IndexOfId(s, TableOf(s)[p].identifier).value < IndexOfId(s, TableOf(s)[q].identifier).value
    decreases |s|, 0
  {
    var n := |s| - 1;
    var init := s[..n];
    var t := TableOf(init);
    var r := TableOf(s);
    var x := s[n];
    var k := IndexOfId(t, x.identifier).value;
    assert r == t[k := x];
    assert r[p].identifier == t[p].identifier && r[q].identifier == t[q].identifier;
    TableOfFirstOccurrenceOrder(init, p, q);
    PrefixIndex(s, n, t[p].identifier);
    PrefixIndex(s, n, t[q].identifier);
  }

  lemma {:induction false} FirstOccurrenceAppended(s: seq<Landmark>, p: nat, q: nat)
    requires s != []
    requires s[|s| - 1].identifier !in IdSet(TableOf(s[..|s| - 1]))
    requires p < q < |TableOf(s)|
    ensures IndexOfId(s, TableOf(s)[p].identifier).value < IndexOfId(s, TableOf(s)[q].identifier).value
    decreases |s|, 0
  {
    var n := |s| - 1;
    var init := s[..n];
    var t := TableOf(init);
    var x := s[n];
    assert IndexOfId(t, x.identifier).None?;
    assert TableOf(s) == t + [x];
    assert t[p] in t;
    PrefixIndex(s, n, t[p].identifier);
    if q < |t| {
      assert t[q] in t;
      TableOfFirstOccurrenceOrder(init, p, q);
      PrefixIndex(s, n, t[q].identifier);
    } else {
      assert x.identifier !in IdSet(init);
      assert IndexOfId(s, x.identifier).value == n;
      assert IndexOfId(init, t[p].identifier).value < n;
    }
  }

  /** The first position of an identifier that occurs in a prefix is its first position in the prefix. */
  lemma {:induction false} PrefixIndex(s: seq<Landmark>, n: nat, id: int)
    requires n <= |s| && id in IdSet(s[..n])
    ensures IndexOfId(s, id) == IndexOfId(s[..n], id)
  {
    var a := IndexOfId(s[..n], id).value;
    assert s[a].identifier == id;
    var b := IndexOfId(s, id).value;
    assert b <= a;
    assert s[..n][b].identifier == id;
  }

  /** A table whose identifiers are already distinct is rebuilt unchanged. */
  lemma {:induction false} TableOfDistinct(s: seq<Landmark>)
    requires DistinctIds(s)
    ensures TableOf(s) == s
  {
    if s != [] {
      var n := |s| - 1;
      TableOfDistinct(s[..n]);
      assert s[n].identifier !in IdSet(s[..n]);
      assert s == s[..n] + [s[n]];
    }
  }

  /** A table holds one entry per distinct identifier. */
  lemma {:induction false} DistinctCount(t: seq<Landmark>)
    requires DistinctIds(t)
    ensures |t| == |IdSet(t)|
  {
    if t != [] {
      var n := |t| - 1;
      DistinctCount(t[..n]);
      assert t == t[..n] + [t[n]];
      assert IdSet(t) == IdSet(t[..n]) + {t[n].identifier};
      assert t[n].identifier !in IdSet(t[..n]);
    }
  }

  /** The table built from `s` has one entry per distinct identifier of `s`. */
  lemma {:induction false} TableOfSize(s: seq<Landmark>)
    ensures |TableOf(s)| == |IdSet(s)|
  {
    DistinctCount(TableOf(s));
  }

  /** The entries whose identifier is not in `ids`, in their order. */
  function Without(t: seq<Landmark>, ids: set<int>): (r: seq<Landmark>)
    ensures IdSet(r) == IdSet(t) - ids
    ensures forall x :: x in r ==> x in t
    ensures DistinctIds(t) ==> DistinctIds(r)
    ensures |r| <= |t|
  {
    if t == [] then []
    else
      assert t == [t[0]] + t[1..];
      IdSetConcat([t[0]], t[1..]);
      var rest := Without(t[1..], ids);
      if t[0].identifier in ids then rest
      else
        IdSetConcat([t[0]], rest);
        assert DistinctIds(t) ==> t[0].identifier !in IdSet(rest) by {
          if DistinctIds(t) {
            forall y | y in t[1..] ensures y.identifier != t[0].identifier {
              var q :| 0 <= q < |t[1..]| && t[1..][q] == y;
              assert t[q + 1] == y;
            }
          }
        }
        [t[0]] + rest
  }

  lemma {:induction false} IdSetConcat(a: seq<Landmark>, b: seq<Landmark>)
    ensures IdSet(a + b) == IdSet(a) + IdSet(b)
  {
    assert forall x :: x in a + b <==> x in a || x in b;
  }

  /** `del d[id]` on a present key. */
  function Delete(t: seq<Landmark>, id: int): (r: seq<Landmark>)
    ensures IdSet(r) == IdSet(t) - {id}
    ensures DistinctIds(t) ==> DistinctIds(r)
    ensures DistinctIds(t) && id in IdSet(t) ==> |r| == |t| - 1
  {
    var r := Without(t, {id});
    if DistinctIds(t) && id in IdSet(t) then
      DistinctCount(t);
      DistinctCount(r);
      assert IdSet(t) == IdSet(r) + {id};
      r
    else r
  }

  /** Distinct landmarks taken from a table have distinct identifiers. */
  lemma {:induction false} DistinctFromTable(t: seq<Landmark>, s: seq<Landmark>)
    requires DistinctIds(t)
    requires forall x :: x in s ==> x in t
    requires forall i, j :: 0 <= i < j < |s| ==> s[i] != s[j]
    ensures DistinctIds(s)
  {
    forall i, j | 0 <= i < j < |s| ensures s[i].identifier != s[j].identifier {
      assert s[i] in s && s[j] in s;
      var p :| 0 <= p < |t| && t[p] == s[i];
      var q :| 0 <= q < |t| && t[q] == s[j];
    }
  }

  /** In a table each landmark occurs at most once. */
  lemma {:induction false} AtMostOnce(a: seq<Landmark>, x: Landmark)
    requires DistinctIds(a)
    ensures multiset(a)[x] <= 1
  {
    if a != [] {
      assert a == [a[0]] + a[1..];
      AtMostOnce(a[1..], x);
      if x == a[0] {
        assert forall q | 0 <= q < |a[1..]| :: a[1..][q].identifier != x.identifier by {
          forall q | 0 <= q < |a[1..]| ensures a[1..][q].identifier != x.identifier {
            assert a[1..][q] == a[q + 1];
          }
        }
      }
    }
  }

  /** Two positions holding one landmark make it occur at least twice. */
  lemma {:induction false} TwiceAtLeast(b: seq<Landmark>, i: nat, j: nat)
    requires i < j < |b| && b[i] == b[j]
    ensures multiset(b)[b[i]] >= 2
  {
    assert b == b[..j] + b[j..];
    assert b[i] in b[..j];
    assert b[j] in b[j..];
  }

  /** Reordering a table keeps its identifiers distinct. */
  lemma {:induction false} PermutationKeepsDistinctIds(a: seq<Landmark>, b: seq<Landmark>)
    requires DistinctIds(a) && multiset(a) == multiset(b)
    ensures DistinctIds(b)
  {
    forall i, j | 0 <= i < j < |b| ensures b[i].identifier != b[j].identifier {
      if b[i] == b[j] {
        TwiceAtLeast(b, i, j);
        AtMostOnce(a, b[i]);
        assert false;
      }
      assert b[i] in multiset(a) && b[j] in multiset(a);
    }
  }

  /** Removing two sets of identifiers one after the other removes their union. */
  lemma {:induction false} WithoutWithout(t: seq<Landmark>, a: set<int>, b: set<int>)
    ensures Without(Without(t, a), b) == Without(t, a + b)
  {
    if t != [] {
      WithoutWithout(t[1..], a, b);
    }
  }

  /** A table has no entry outside it. */
  lemma {:induction false} WithoutNothing(t: seq<Landmark>)
    ensures Without(t, {}) == t
  {
    if t != [] {
      WithoutNothing(t[1..]);
      assert t == [t[0]] + t[1..];
    }
  }

  /** Outside the removed identifiers, a table keeps every entry: */
  lemma {:induction false} WithoutOthers(t: seq<Landmark>, ids: set<int>)
    requires forall x :: x in t ==> x.identifier !in ids
    ensures Without(t, ids) == t
  {
    if t != [] {
      assert t[0] in t;
      assert forall x :: x in t[1..] ==> x in t;
      WithoutOthers(t[1..], ids);
      assert t == [t[0]] + t[1..];
    }
  }

  /** In a table, deleting the identifier at position `i` removes exactly that position. */
  lemma {:induction false} DeleteAt(t: seq<Landmark>, i: nat)
    requires DistinctIds(t) && i < |t|
    ensures Delete(t, t[i].identifier) == t[..i] + t[i + 1..]
  {
    var id := t[i].identifier;
    if i == 0 {
      forall x | x in t[1..] ensures x.identifier !in {id} {
        var q :| 0 <= q < |t[1..]| && t[1..][q] == x;
        assert t[q + 1] == x;
      }
      WithoutOthers(t[1..], {id});
    } else {
      assert t[1..][i - 1] == t[i];
      assert DistinctIds(t[1..]);
      DeleteAt(t[1..], i - 1);
      assert t[1..][..i - 1] + t[1..][i..] == t[1..i] + t[i + 1..];
      assert t[0].identifier != id;
      assert t[..i] + t[i + 1..] == [t[0]] + (t[1..i] + t[i + 1..]);
    }
  }
}
