/**
 * `Array.prototype.sort` with a numeric comparator `(a, b) => key(a) - key(b)`,
 * as the source uses it on grid-line coordinates and on stored frame rows.
 * The sort is given as a stable insertion sort; what the source relies on is
 * only that the result is ordered and is a permutation of the input, and
 * `SortedPermutationUnique` shows that those two facts fix the result.
 */
module Sorting {

  predicate SortedBy<T>(s: seq<T>, key: T -> real) {
    forall i, j :: 0 <= i < j < |s| ==> key(s[i]) <= key(s[j])
  }

  predicate StrictlySortedBy<T>(s: seq<T>, key: T -> real) {
    forall i, j :: 0 <= i < j < |s| ==> key(s[i]) < key(s[j])
  }

  /** Elements of `s` with the same key are the same element. */
  ghost predicate KeyInjectiveOn<T>(s: seq<T>, key: T -> real) {
    forall i, j :: 0 <= i < |s| && 0 <= j < |s| && key(s[i]) == key(s[j]) ==> s[i] == s[j]
  }

  /** Places `x` in front of the first element whose key is not smaller. */
  function Insert<T>(x: T, s: seq<T>, key: T -> real): (r: seq<T>)
    requires SortedBy(s, key)
    ensures SortedBy(r, key)
    ensures multiset(r) == multiset(s) + multiset{x}
    ensures |r| == |s| + 1
  {
    if s == [] || key(x) <= key(s[0]) then
      [x] + s
    else
      var rest := Insert(x, s[1..], key);
      assert s == [s[0]] + s[1..];
      FrontIsLeast(s[0], s[1..], x, rest, key);
      ConsSorted(s[0], rest, key);
      assert multiset([s[0]] + rest) == multiset{s[0]} + multiset(rest);
      [s[0]] + rest
  }

  /** The head of a sorted list stays below everything once a larger element is inserted into its tail. */
  lemma FrontIsLeast<T>(h: T, t: seq<T>, x: T, rest: seq<T>, key: T -> real)
    requires SortedBy([h] + t, key) && key(h) < key(x)
    requires multiset(rest) == multiset(t) + multiset{x}
    ensures forall j :: 0 <= j < |rest| ==> key(h) <= key(rest[j])
  {
    forall j | 0 <= j < |rest| ensures key(h) <= key(rest[j]) {
      assert rest[j] in multiset(rest);
      if rest[j] != x {
        assert rest[j] in multiset(t);
        var k :| 0 <= k < |t| && t[k] == rest[j];
        assert ([h] + t)[0] == h && ([h] + t)[k + 1] == t[k];
      }
    }
  }

  /** An element no greater than every element of a sorted list can go in front of it. */
  lemma ConsSorted<T>(h: T, t: seq<T>, key: T -> real)
    requires SortedBy(t, key) && forall j :: 0 <= j < |t| ==> key(h) <= key(t[j])
    ensures SortedBy([h] + t, key)
  {
    var r := [h] + t;
    forall i, j | 0 <= i < j < |r| ensures key(r[i]) <= key(r[j]) {
      assert r[j] == t[j - 1];
      if i > 0 {
        assert r[i] == t[i - 1];
      }
    }
  }

  function SortBy<T>(s: seq<T>, key: T -> real): (r: seq<T>)
    ensures SortedBy(r, key)
    ensures multiset(r) == multiset(s)
    ensures |r| == |s|
  {
    if s == [] then []
    else
      assert s == [s[0]] + s[1..];
      Insert(s[0], SortBy(s[1..], key), key)
  }

  lemma MaxKeyIsLast<T>(s: seq<T>, key: T -> real, y: T)
    requires SortedBy(s, key) && y in multiset(s)
    ensures key(y) <= key(s[|s| - 1])
  {
    var i :| 0 <= i < |s| && s[i] == y;
  }

  lemma LastElementsAgree<T>(a: seq<T>, b: seq<T>, key: T -> real)
    requires |a| > 0 && SortedBy(a, key) && SortedBy(b, key)
    requires multiset(a) == multiset(b)
    requires KeyInjectiveOn(a, key)
    ensures |b| == |a| && b[|b| - 1] == a[|a| - 1]
  {
    assert |a| == |multiset(a)| == |multiset(b)| == |b|;
    var n := |a|;
    assert a[n - 1] in multiset(b) && b[n - 1] in multiset(a);
    MaxKeyIsLast(b, key, a[n - 1]);
    MaxKeyIsLast(a, key, b[n - 1]);
    var m :| 0 <= m < n && a[m] == b[n - 1];
  }

  lemma DropLastMultiset<T>(a: seq<T>, b: seq<T>)
    requires |a| > 0 && |a| == |b| && a[|a| - 1] == b[|b| - 1]
    requires multiset(a) == multiset(b)
    ensures multiset(a[..|a| - 1]) == multiset(b[..|b| - 1])
  {
    var n := |a|;
    assert a == a[..n - 1] + [a[n - 1]];
    assert b == b[..n - 1] + [b[n - 1]];
    calc {
      multiset(a[..n - 1]);
      multiset(a) - multiset{a[n - 1]};
      multiset(b) - multiset{b[n - 1]};
      multiset(b[..n - 1]);
    }
  }

  lemma DropLastOrdered<T>(a: seq<T>, key: T -> real)
    requires |a| > 0 && SortedBy(a, key)
    ensures SortedBy(a[..|a| - 1], key)
    ensures KeyInjectiveOn(a, key) ==> KeyInjectiveOn(a[..|a| - 1], key)
  {
  }

  /**
   * Two ordered arrangements of the same elements are equal when equal keys
   * mean equal elements: the sorted order of such a collection is unique.
   */
  lemma {:induction false} SortedPermutationUnique<T>(a: seq<T>, b: seq<T>, key: T -> real)
    requires SortedBy(a, key) && SortedBy(b, key)
    requires multiset(a) == multiset(b)
    requires KeyInjectiveOn(a, key)
    ensures a == b
  {
    assert |a| == |multiset(a)| == |multiset(b)| == |b|;
    if |a| > 0 {
      var n := |a|;
      LastElementsAgree(a, b, key);
      DropLastMultiset(a, b);
      DropLastOrdered(a, key);
      DropLastOrdered(b, key);
      SortedPermutationUnique(a[..n - 1], b[..n - 1], key);
      assert a == a[..n - 1] + [a[n - 1]];
      assert b == b[..n - 1] + [b[n - 1]];
    }
  }

  lemma StrictlySortedIsKeyInjective<T>(s: seq<T>, key: T -> real)
    requires StrictlySortedBy(s, key)
    ensures SortedBy(s, key) && KeyInjectiveOn(s, key)
  {
    forall i, j | 0 <= i < |s| && 0 <= j < |s| && key(s[i]) == key(s[j]) ensures s[i] == s[j] {
      assert i == j;
    }
  }
}
