/**
 * The two array operations the ledger views are built from: `filter`, which
 * keeps the elements a predicate accepts in their order, and a stable sort by
 * an integer key (the app sorts with a numeric comparator, and the sort of
 * JavaScript arrays is stable).
 */
module Seqs {

  /** The elements of `s` that `p` accepts, in their original order. */
  function Filter<T(==)>(s: seq<T>, p: T -> bool): (r: seq<T>)
    ensures |r| <= |s|
    ensures forall i :: 0 <= i < |r| ==> p(r[i])
  {
    if s == [] then [] else (if p(s[0]) then [s[0]] else []) + Filter(s[1..], p)
  }

  /** An element is in the filtered list iff it is in the list and accepted. */
  lemma {:induction false} FilterMembers<T>(s: seq<T>, p: T -> bool)
    ensures forall x :: x in Filter(s, p) <==> x in s && p(x)
  {
    if s != [] {
      FilterMembers(s[1..], p);
      assert s == [s[0]] + s[1..];
    }
  }

  /** Filtering keeps every accepted element as often as it occurs, and drops the others. */
  lemma {:induction false} FilterMultiset<T>(s: seq<T>, p: T -> bool)
    ensures forall x :: multiset(Filter(s, p))[x] == if p(x) then multiset(s)[x] else 0
  {
    if s != [] {
      FilterMultiset(s[1..], p);
      assert s == [s[0]] + s[1..];
    }
  }

  /** A list whose multiset holds only elements `p` accepts has only such elements. */
  lemma OnlyAccepted<T>(r: seq<T>, s: seq<T>, p: T -> bool)
    requires forall x :: multiset(r)[x] == if p(x) then multiset(s)[x] else 0
    ensures forall i :: 0 <= i < |r| ==> p(r[i])
  {
    forall i | 0 <= i < |r|
      ensures p(r[i])
    {
      assert r[i] in multiset(r);
    }
  }

  /** A filter that accepts everything changes nothing. */
  lemma {:induction false} FilterKeepsAll<T>(s: seq<T>, p: T -> bool)
    requires forall i :: 0 <= i < |s| ==> p(s[i])
    ensures Filter(s, p) == s
  {
    if s != [] {
      FilterKeepsAll(s[1..], p);
    }
  }

  /** Filtering a list with one more element in front. */
  lemma FilterCons<T>(x: T, s: seq<T>, p: T -> bool)
    ensures Filter([x] + s, p) == (if p(x) then [x] else []) + Filter(s, p)
  {
    assert ([x] + s)[0] == x && ([x] + s)[1..] == s;
  }

  /** Filtering a concatenation filters each part in place: relative order is kept. */
  lemma {:induction false} FilterConcat<T>(a: seq<T>, b: seq<T>, p: T -> bool)
    ensures Filter(a + b, p) == Filter(a, p) + Filter(b, p)
  {
    if a == [] {
      assert a + b == b;
    } else {
      var x, t := a[0], a[1..];
      var head := if p(x) then [x] else [];
      assert Filter(a + b, p) == head + Filter(t + b, p) by {
        assert a + b == [x] + (t + b);
        FilterCons(x, t + b, p);
      }
      assert Filter(a, p) == head + Filter(t, p) by {
        assert a == [x] + t;
        FilterCons(x, t, p);
      }
      FilterConcat(t, b, p);
    }
  }

  /** `s.map(f)`. */
  function Map<T, U>(s: seq<T>, f: T -> U): (r: seq<U>)
    ensures |r| == |s|
    ensures forall i :: 0 <= i < |s| ==> r[i] == f(s[i])
  {
    if s == [] then [] else [f(s[0])] + Map(s[1..], f)
  }

  /** Mapping a list with one more element at the end. */
  lemma MapSnoc<T, U>(s: seq<T>, x: T, f: T -> U)
    ensures Map(s + [x], f) == Map(s, f) + [f(x)]
  {
  }

  /** Neighbours are in non-decreasing key order. */
  ghost predicate Ordered<T>(s: seq<T>, key: T -> int) {
    forall i :: 0 <= i < |s| - 1 ==> key(s[i]) <= key(s[i + 1])
  }

  /** Every pair, not just neighbours, is in non-decreasing key order. */
  ghost predicate SortedBy<T>(s: seq<T>, key: T -> int) {
    forall i, j :: 0 <= i < j < |s| ==> key(s[i]) <= key(s[j])
  }

  lemma {:induction false} OrderedIsSorted<T>(s: seq<T>, key: T -> int)
    requires Ordered(s, key)
    ensures SortedBy(s, key)
  {
    if |s| > 1 {
      OrderedIsSorted(s[1..], key);
      forall j | 1 <= j < |s|
        ensures key(s[0]) <= key(s[j])
      {
        assert key(s[1..][0]) <= key(s[1..][j - 1]) || j == 1;
      }
    }
  }

  /** Puts `x` in front of the first element whose key is not smaller. */
  function Insert<T(==)>(x: T, s: seq<T>, key: T -> int): (r: seq<T>)
    ensures |r| == |s| + 1
    ensures multiset(r) == multiset(s) + multiset{x}
    ensures r[0] == x || (|s| > 0 && r[0] == s[0])
  {
    if s == [] || key(x) <= key(s[0]) then [x] + s
    else
      var rest := Insert(x, s[1..], key);
      assert s == [s[0]] + s[1..];
      [s[0]] + rest
  }

  /** Inserting into an ordered list keeps it ordered. */
  lemma {:induction false} InsertOrdered<T>(x: T, s: seq<T>, key: T -> int)
    requires Ordered(s, key)
    ensures Ordered(Insert(x, s, key), key)
  {
    if s != [] && key(x) > key(s[0]) {
      var rest := Insert(x, s[1..], key);
      assert Ordered(s[1..], key) by {
        forall i | 0 <= i < |s| - 2
          ensures key(s[1..][i]) <= key(s[1..][i + 1])
        {
          assert s[1..][i] == s[i + 1] && s[1..][i + 1] == s[i + 2];
        }
      }
      InsertOrdered(x, s[1..], key);
      var r := [s[0]] + rest;
      assert Insert(x, s, key) == r;
      forall i | 0 <= i < |r| - 1
        ensures key(r[i]) <= key(r[i + 1])
      {
        if i == 0 {
          assert r[1] == rest[0];
        } else {
          assert r[i] == rest[i - 1] && r[i + 1] == rest[i];
        }
      }
    }
  }

  /** Stable insertion sort by key. */
  function SortBy<T(==)>(s: seq<T>, key: T -> int): (r: seq<T>)
    ensures multiset(r) == multiset(s)
    ensures Ordered(r, key)
  {
    if s == [] then []
    else
      assert s == [s[0]] + s[1..];
      var sorted := SortBy(s[1..], key);
      InsertOrdered(s[0], sorted, key);
      Insert(s[0], sorted, key)
  }

  /** The elements whose key is `k`, in order. */
  function WithKey<T>(s: seq<T>, key: T -> int, k: int): seq<T> {
    if s == [] then [] else (if key(s[0]) == k then [s[0]] else []) + WithKey(s[1..], key, k)
  }

  lemma {:induction false} InsertStable<T>(x: T, s: seq<T>, key: T -> int, k: int)
    ensures WithKey(Insert(x, s, key), key, k) == (if key(x) == k then [x] else []) + WithKey(s, key, k)
  {
    if s == [] || key(x) <= key(s[0]) {
      assert Insert(x, s, key) == [x] + s;
      assert ([x] + s)[0] == x && ([x] + s)[1..] == s;
    } else {
      var rest := Insert(x, s[1..], key);
      InsertStable(x, s[1..], key, k);
      assert Insert(x, s, key) == [s[0]] + rest;
      assert ([s[0]] + rest)[0] == s[0] && ([s[0]] + rest)[1..] == rest;
      assert WithKey(s, key, k) == (if key(s[0]) == k then [s[0]] else []) + WithKey(s[1..], key, k);
    }
  }

  /** The sort is stable: elements with equal keys keep their relative order. */
  lemma {:induction false} SortStable<T>(s: seq<T>, key: T -> int, k: int)
    ensures WithKey(SortBy(s, key), key, k) == WithKey(s, key, k)
  {
    if s != [] {
      SortStable(s[1..], key, k);
      InsertStable(s[0], SortBy(s[1..], key), key, k);
    }
  }
}
