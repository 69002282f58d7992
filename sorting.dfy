/** Python's `sorted`: a stable sort by a total preorder, written as an
    insertion sort over sequences. */
module Sorting {

  /** `le` orders every pair and is transitive. */
  ghost predicate TotalPreorder<T(!new)>(le: (T, T) -> bool) {
    (forall a, b :: le(a, b) || le(b, a)) &&
    (forall a, b, c :: le(a, b) && le(b, c) ==> le(a, c))
  }

  predicate Sorted<T>(le: (T, T) -> bool, s: seq<T>) {
    forall i, j :: 0 <= i < j < |s| ==> le(s[i], s[j])
  }

  /** Inserts `x` in front of the first element it is at most. */
  function Insert<T>(le: (T, T) -> bool, x: T, s: seq<T>): (r: seq<T>)
    ensures |r| == |s| + 1
    ensures multiset(r) == multiset(s) + multiset{x}
  {
    if s == [] then [x]
    else if le(x, s[0]) then [x] + s
    else
      assert s == [s[0]] + s[1..];
      [s[0]] + Insert(le, x, s[1..])
  }

  /** `sorted(s, key)`. */
  function Sort<T>(le: (T, T) -> bool, s: seq<T>): (r: seq<T>)
    ensures |r| == |s|
    ensures multiset(r) == multiset(s)
  {
    if s == [] then []
    else
      assert s == [s[0]] + s[1..];
      Insert(le, s[0], Sort(le, s[1..]))
  }

  lemma {:induction false} InsertSorted<T(!new)>(le: (T, T) -> bool, x: T, s: seq<T>)
    requires TotalPreorder(le) && Sorted(le, s)
    ensures Sorted(le, Insert(le, x, s))
  {
    if s != [] && !le(x, s[0]) {
      InsertSorted(le, x, s[1..]);
      var r := Insert(le, x, s);
      var t := Insert(le, x, s[1..]);
      assert r == [s[0]] + t;
      InsertLowerBound(le, s[0], x, s[1..]);
      forall i, j | 0 <= i < j < |r| ensures le(r[i], r[j]) {
        assert r[j] == t[j - 1];
        if i > 0 {
          assert r[i] == t[i - 1];
        }
      }
    }
  }

  /** A lower bound of `x` and of every element of `s` bounds every element
      of the insertion. */
  lemma {:induction false} InsertLowerBound<T>(le: (T, T) -> bool, b: T, x: T, s: seq<T>)
    requires le(b, x) && forall i :: 0 <= i < |s| ==> le(b, s[i])
    ensures forall i :: 0 <= i < |Insert(le, x, s)| ==> le(b, Insert(le, x, s)[i])
  {
    if s != [] && !le(x, s[0]) {
      InsertLowerBound(le, b, x, s[1..]);
      assert Insert(le, x, s) == [s[0]] + Insert(le, x, s[1..]);
    }
  }

  /** The sort yields a sorted permutation. */
  lemma {:induction false} SortSorted<T(!new)>(le: (T, T) -> bool, s: seq<T>)
    requires TotalPreorder(le)
    ensures Sorted(le, Sort(le, s))
  {
    if s != [] {
      SortSorted(le, s[1..]);
      InsertSorted(le, s[0], Sort(le, s[1..]));
    }
  }

  /** The elements of `s` equivalent to `k`, in order. */
  function Equivalents<T>(le: (T, T) -> bool, s: seq<T>, k: T): (r: seq<T>)
    ensures |r| <= |s|
  {
    if s == [] then []
    else (if le(s[0], k) && le(k, s[0]) then [s[0]] else []) + Equivalents(le, s[1..], k)
  }

  lemma {:induction false} InsertStable<T(!new)>(le: (T, T) -> bool, x: T, s: seq<T>, k: T)
    requires TotalPreorder(le)
    ensures Equivalents(le, Insert(le, x, s), k) ==
      (if le(x, k) && le(k, x) then [x] else []) + Equivalents(le, s, k)
  {
    var ex := if le(x, k) && le(k, x) then [x] else [];
    if s != [] && !le(x, s[0]) {
      InsertStable(le, x, s[1..], k);
      var t := Insert(le, x, s[1..]);
      var h := s[0];
      var e0 := if le(h, k) && le(k, h) then [h] else [];
      var rest := Equivalents(le, s[1..], k);
      assert Insert(le, x, s) == [s[0]] + t;
      EquivalentsCons(le, s[0], t, k);
      assert Equivalents(le, s, k) == e0 + rest;
      // `x` and `s[0]` are not both equivalent to `k`: `x` would then be
      // at most `s[0]`, by transitivity.
      assert le(x, k) && le(k, h) ==> le(x, h);
      SwapEmpty(ex, e0, rest);
    } else if s != [] {
      assert Insert(le, x, s) == [x] + s;
      EquivalentsCons(le, x, s, k);
    }
  }

  lemma SwapEmpty<T>(a: seq<T>, b: seq<T>, c: seq<T>)
    requires a == [] || b == []
    ensures b + (a + c) == a + (b + c)
  {
  }

  lemma EquivalentsCons<T>(le: (T, T) -> bool, a: T, t: seq<T>, k: T)
    ensures Equivalents(le, [a] + t, k) == (if le(a, k) && le(k, a) then [a] else []) + Equivalents(le, t, k)
  {
    assert ([a] + t)[1..] == t;
  }

  /** Stability: equivalent elements keep their relative order. */
  lemma {:induction false} SortStable<T(!new)>(le: (T, T) -> bool, s: seq<T>, k: T)
    requires TotalPreorder(le)
    ensures Equivalents(le, Sort(le, s), k) == Equivalents(le, s, k)
  {
    if s != [] {
      SortStable(le, s[1..], k);
      InsertStable(le, s[0], Sort(le, s[1..]), k);
    }
  }

  /** Two sorted permutations of each other are equal when no two distinct
      elements are equivalent. */
  lemma {:induction false} SortedUnique<T(!new)>(le: (T, T) -> bool, a: seq<T>, b: seq<T>)
    requires Sorted(le, a) && Sorted(le, b) && multiset(a) == multiset(b)
    requires forall x, y :: x in a && y in a && le(x, y) && le(y, x) ==> x == y
    ensures a == b
  {
    if a != [] {
      assert |b| == |multiset(b)| == |a|;
      assert a[0] in multiset(b) && b[0] in multiset(a);
      var i :| 0 <= i < |b| && b[i] == a[0];
      var j :| 0 <= j < |a| && a[j] == b[0];
      if i > 0 && j > 0 {
        assert le(b[0], a[0]) && le(a[0], b[0]);
      }
      assert a[0] == b[0];
      MultisetTail(a, b);
      assert forall x :: x in a[1..] ==> x in a;
      SortedUnique(le, a[1..], b[1..]);
    }
  }

  lemma MultisetTail<T>(a: seq<T>, b: seq<T>)
    requires a != [] && b != [] && a[0] == b[0] && multiset(a) == multiset(b)
    ensures multiset(a[1..]) == multiset(b[1..])
  {
    assert a == [a[0]] + a[1..] && b == [b[0]] + b[1..];
    assert multiset(a) == multiset{a[0]} + multiset(a[1..]);
    assert multiset(b) == multiset{b[0]} + multiset(b[1..]);
    forall e ensures multiset(a[1..])[e] == multiset(b[1..])[e] {
      assert multiset(a)[e] == multiset(b)[e];
    }
  }
}
