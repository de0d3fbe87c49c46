/**
 * Python's `sorted(xs, key=f)`: a stable sort by a real-valued key.
 * `sorted(xs, key=f, reverse=True)` is, by Python's guarantee that
 * `reverse` keeps equal elements in their original order, the same as
 * `SortBy(xs, x => -f(x))`.
 */
module StableSort {

  /** Non-decreasing in `key`. */
  ghost predicate SortedBy<T>(s: seq<T>, key: T -> real)
  {
    forall i, j :: 0 <= i < j < |s| ==> key(s[i]) <= key(s[j])
  }

  /** The elements of `s` whose key is `v`, in the order of `s`. */
  function Having<T>(s: seq<T>, key: T -> real, v: real): seq<T>
  {
    if s == [] then []
    else if key(s[0]) == v then [s[0]] + Having(s[1..], key, v)
    else Having(s[1..], key, v)
  }

  /** Puts `x` in front of the first element whose key is not smaller. */
  function Insert<T>(x: T, s: seq<T>, key: T -> real): (r: seq<T>)
    ensures multiset(r) == multiset{x} + multiset(s)
    ensures |r| == |s| + 1
  {
    if s == [] || key(x) <= key(s[0]) then [x] + s
    else
      assert s == [s[0]] + s[1..];
      [s[0]] + Insert(x, s[1..], key)
  }

  /** Insertion into a sorted sequence keeps it sorted. */
  lemma {:induction false} InsertSorted<T>(x: T, s: seq<T>, key: T -> real)
    requires SortedBy(s, key)
    ensures SortedBy(Insert(x, s, key), key)
  {
    if s != [] && key(x) > key(s[0]) {
      var rest := Insert(x, s[1..], key);
      InsertSorted(x, s[1..], key);
      forall j | 0 <= j < |rest| ensures key(s[0]) <= key(rest[j]) {
        assert rest[j] in multiset(rest);
        if rest[j] != x {
          assert rest[j] in multiset(s[1..]);
          var q :| 0 <= q < |s[1..]| && s[1..][q] == rest[j];
          assert s[q + 1] == rest[j];
        }
      }
      assert Insert(x, s, key) == [s[0]] + rest;
    }
  }

  /** Insertion sort: each element goes in front of the later ones with an equal key. */
  function SortBy<T>(s: seq<T>, key: T -> real): (r: seq<T>)
    ensures multiset(r) == multiset(s)
    ensures |r| == |s|
    ensures SortedBy(r, key)
  {
    if s == [] then []
    else
      assert s == [s[0]] + s[1..];
      var tail := SortBy(s[1..], key);
      InsertSorted(s[0], tail, key);
      Insert(s[0], tail, key)
  }

  /** Inserting `x` puts it ahead of every element with the same key. */
  lemma {:induction false} HavingInsert<T>(x: T, s: seq<T>, key: T -> real, v: real)
    ensures Having(Insert(x, s, key), key, v)
         == if key(x) == v then [x] + Having(s, key, v) else Having(s, key, v)
  {
    if s == [] || key(x) <= key(s[0]) {
      assert ([x] + s)[1..] == s;
    } else {
      var rest := Insert(x, s[1..], key);
      assert ([s[0]] + rest)[1..] == rest;
      HavingInsert(x, s[1..], key, v);
    }
  }

  /**
   * Stability: for every key value, the elements carrying it appear in the
   * sorted sequence in the order they had before.
   */
  lemma {:induction false} SortByStable<T>(s: seq<T>, key: T -> real, v: real)
    ensures Having(SortBy(s, key), key, v) == Having(s, key, v)
  {
    if s != [] {
      SortByStable(s[1..], key, v);
      HavingInsert(s[0], SortBy(s[1..], key), key, v);
    }
  }

  /** Two elements with the same key keep their relative order (distinct elements). */
  lemma {:induction false} SortByKeepsTies<T>(s: seq<T>, key: T -> real, i: nat, j: nat)
    requires forall p, q :: 0 <= p < q < |s| ==> s[p] != s[q]
    requires i < j < |SortBy(s, key)|
    requires key(SortBy(s, key)[i]) == key(SortBy(s, key)[j])
    ensures exists p, q :: 0 <= p < q < |s| && s[p] == SortBy(s, key)[i] && s[q] == SortBy(s, key)[j]
  {
    var r := SortBy(s, key);
    var v := key(r[i]);
    SortByStable(s, key, v);
    HavingOrder(r, key, v, i, j);
    var a, b :| 0 <= a < b < |Having(r, key, v)| && Having(r, key, v)[a] == r[i] && Having(r, key, v)[b] == r[j];
    HavingFrom(s, key, v, a, b);
  }

  /** Two positions of `s` with key `v` map to two ordered positions of `Having(s, key, v)`. */
  lemma {:induction false} HavingOrder<T>(s: seq<T>, key: T -> real, v: real, i: nat, j: nat)
    requires i < j < |s| && key(s[i]) == v && key(s[j]) == v
    ensures exists a, b :: 0 <= a < b < |Having(s, key, v)| && Having(s, key, v)[a] == s[i] && Having(s, key, v)[b] == s[j]
  {
    var h := Having(s[1..], key, v);
    if i == 0 {
      HavingContains(s[1..], key, v, j - 1);
      var b :| 0 <= b < |h| && h[b] == s[j];
      assert Having(s, key, v) == [s[0]] + h;
      assert Having(s, key, v)[0] == s[i] && Having(s, key, v)[b + 1] == s[j];
    } else {
      HavingOrder(s[1..], key, v, i - 1, j - 1);
      var a, b :| 0 <= a < b < |h| && h[a] == s[i] && h[b] == s[j];
      if key(s[0]) == v {
        assert Having(s, key, v) == [s[0]] + h;
        assert Having(s, key, v)[a + 1] == s[i] && Having(s, key, v)[b + 1] == s[j];
      } else {
        assert Having(s, key, v) == h;
      }
    }
  }

  lemma {:induction false} HavingContains<T>(s: seq<T>, key: T -> real, v: real, j: nat)
    requires j < |s| && key(s[j]) == v
    ensures exists b :: 0 <= b < |Having(s, key, v)| && Having(s, key, v)[b] == s[j]
  {
    var h := Having(s[1..], key, v);
    if j == 0 {
      assert Having(s, key, v)[0] == s[0];
    } else {
      HavingContains(s[1..], key, v, j - 1);
      var b :| 0 <= b < |h| && h[b] == s[j];
      if key(s[0]) == v {
        assert Having(s, key, v)[b + 1] == s[j];
      } else {
        assert Having(s, key, v) == h;
      }
    }
  }

  /** Two ordered positions of `Having(s, key, v)` come from two ordered positions of `s`. */
  lemma {:induction false} HavingFrom<T>(s: seq<T>, key: T -> real, v: real, a: nat, b: nat)
    requires a < b < |Having(s, key, v)|
    ensures exists p, q :: 0 <= p < q < |s| && s[p] == Having(s, key, v)[a] && s[q] == Having(s, key, v)[b]
  {
    var h := Having(s[1..], key, v);
    if key(s[0]) == v {
      assert Having(s, key, v) == [s[0]] + h;
      if a == 0 {
        HavingElement(s[1..], key, v, b - 1);
        var q :| 0 <= q < |s[1..]| && s[1..][q] == h[b - 1];
        assert s[0] == Having(s, key, v)[a] && s[q + 1] == Having(s, key, v)[b];
      } else {
        HavingFrom(s[1..], key, v, a - 1, b - 1);
        var p, q :| 0 <= p < q < |s[1..]| && s[1..][p] == h[a - 1] && s[1..][q] == h[b - 1];
        assert s[p + 1] == Having(s, key, v)[a] && s[q + 1] == Having(s, key, v)[b];
      }
    } else {
      assert Having(s, key, v) == h;
      HavingFrom(s[1..], key, v, a, b);
      var p, q :| 0 <= p < q < |s[1..]| && s[1..][p] == h[a] && s[1..][q] == h[b];
      assert s[p + 1] == Having(s, key, v)[a] && s[q + 1] == Having(s, key, v)[b];
    }
  }

  lemma {:induction false} HavingElement<T>(s: seq<T>, key: T -> real, v: real, b: nat)
    requires b < |Having(s, key, v)|
    ensures exists q :: 0 <= q < |s| && s[q] == Having(s, key, v)[b]
  {
    var h := Having(s[1..], key, v);
    if key(s[0]) == v {
      assert Having(s, key, v) == [s[0]] + h;
      if b == 0 {
        assert s[0] == Having(s, key, v)[0];
      } else {
        HavingElement(s[1..], key, v, b - 1);
        var q :| 0 <= q < |s[1..]| && s[1..][q] == h[b - 1];
        assert s[q + 1] == Having(s, key, v)[b];
      }
    } else {
      assert Having(s, key, v) == h;
      HavingElement(s[1..], key, v, b);
      var q :| 0 <= q < |s[1..]| && s[1..][q] == h[b];
      assert s[q + 1] == Having(s, key, v)[b];
    }
  }

  /** The sort only looks at the keys of the elements it sorts. */
  lemma {:induction false} SortByCongruent<T>(s: seq<T>, k1: T -> real, k2: T -> real)
    requires forall x :: x in s ==> k1(x) == k2(x)
    ensures SortBy(s, k1) == SortBy(s, k2)
  {
    if s != [] {
      SortByCongruent(s[1..], k1, k2);
      var t := SortBy(s[1..], k1);
      assert forall y :: y in t ==> y in multiset(s[1..]);
      InsertCongruent(s[0], t, k1, k2);
    }
  }

  lemma {:induction false} InsertCongruent<T>(x: T, s: seq<T>, k1: T -> real, k2: T -> real)
    requires k1(x) == k2(x) && forall y :: y in s ==> k1(y) == k2(y)
    ensures Insert(x, s, k1) == Insert(x, s, k2)
  {
    if s != [] && k1(x) > k1(s[0]) {
      InsertCongruent(x, s[1..], k1, k2);
    }
  }
}
