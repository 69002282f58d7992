/** List filtering as the query layer writes it: a comprehension
    `[x for x in xs if p(x)]` whose test may raise, and the order-keeping
    "only removes elements" relation its results stand in. */
module Sifting {
  import opened Wrappers

  /** `a` is `b` with some elements removed, the rest in their order
      (matched greedily from the end). */
  predicate Subsequence<T(==)>(a: seq<T>, b: seq<T>)
    decreases |b|
  {
    if a == [] then true
    else if b == [] then false
    else if a[|a| - 1] == b[|b| - 1] then Subsequence(a[..|a| - 1], b[..|b| - 1])
    else Subsequence(a, b[..|b| - 1])
  }

  /** The elements passing `p`, in order; the first exception `p` raises
      ends the comprehension. */
  function Sift<T>(xs: seq<T>, p: T -> Result<bool>): Result<seq<T>> {
    if xs == [] then Ok([])
    else
      var pre :- Sift(xs[..|xs| - 1], p);
      var keep :- p(xs[|xs| - 1]);
      Ok(if keep then pre + [xs[|xs| - 1]] else pre)
  }

  /** A comprehension whose test never raises: exactly the passing
      elements remain, in their order. */
  lemma {:induction false} SiftKeeps<T>(xs: seq<T>, p: T -> Result<bool>)
    requires forall i :: 0 <= i < |xs| ==> p(xs[i]).Ok?
    ensures Sift(xs, p).Ok?
    ensures forall x :: x in Sift(xs, p).value <==> x in xs && p(x) == Ok(true)
    ensures Subsequence(Sift(xs, p).value, xs)
  {
    if xs != [] {
      var pre := xs[..|xs| - 1];
      var last := xs[|xs| - 1];
      assert forall i :: 0 <= i < |pre| ==> pre[i] == xs[i];
      SiftKeeps(pre, p);
      var kept := Sift(pre, p).value;
      assert xs == pre + [last];
      if p(last).value {
        assert (kept + [last])[..|kept|] == kept;
      } else {
        SubsequenceExtend(kept, pre, last);
      }
    }
  }

  /** A comprehension raises exactly when its test raises on some element,
      and then with the first such exception. */
  lemma {:induction false} SiftFails<T>(xs: seq<T>, p: T -> Result<bool>)
    ensures Sift(xs, p).Err? <==> exists i :: 0 <= i < |xs| && p(xs[i]).Err?
    ensures Sift(xs, p).Err? ==> exists i :: (0 <= i < |xs| && p(xs[i]) == Err(Sift(xs, p).error) &&
      forall j :: 0 <= j < i ==> p(xs[j]).Ok?)
  {
    if xs != [] {
      var pre := xs[..|xs| - 1];
      SiftFails(pre, p);
      if Sift(pre, p).Err? {
        var i :| 0 <= i < |pre| && p(pre[i]) == Err(Sift(pre, p).error) && forall j :: 0 <= j < i ==> p(pre[j]).Ok?;
        assert p(xs[i]) == p(pre[i]);
        forall j | 0 <= j < i ensures p(xs[j]).Ok? {
          assert xs[j] == pre[j];
        }
      } else {
        forall i | 0 <= i < |pre| ensures p(xs[i]).Ok? {
          assert xs[i] == pre[i];
        }
      }
    }
  }

  /** One more element: the comprehension over a prefix extended by one
      test. */
  lemma SiftSnoc<T>(xs: seq<T>, i: nat, p: T -> Result<bool>)
    requires i < |xs| && Sift(xs[..i], p).Ok?
    ensures Sift(xs[..i + 1], p) ==
      if p(xs[i]).Err? then Err(p(xs[i]).error)
      else if p(xs[i]).value then Ok(Sift(xs[..i], p).value + [xs[i]])
      else Sift(xs[..i], p)
  {
    assert xs[..i + 1][..i] == xs[..i];
  }

  /** An exception on a prefix is the exception of the whole
      comprehension. */
  lemma {:induction false} SiftStops<T>(xs: seq<T>, n: nat, p: T -> Result<bool>)
    requires n <= |xs| && Sift(xs[..n], p).Err?
    ensures Sift(xs, p) == Sift(xs[..n], p)
    decreases |xs|
  {
    if n < |xs| {
      var pre := xs[..|xs| - 1];
      assert pre[..n] == xs[..n];
      SiftStops(pre, n, p);
    } else {
      assert xs[..n] == xs;
    }
  }

  /** A test that passes everything keeps the whole sequence. */
  lemma {:induction false} SiftAll<T>(xs: seq<T>, p: T -> Result<bool>)
    requires forall i :: 0 <= i < |xs| ==> p(xs[i]) == Ok(true)
    ensures Sift(xs, p) == Ok(xs)
  {
    if xs != [] {
      var pre := xs[..|xs| - 1];
      var last := xs[|xs| - 1];
      forall i | 0 <= i < |pre| ensures p(pre[i]) == Ok(true) {
        assert pre[i] == xs[i];
      }
      SiftAll(pre, p);
      assert p(last) == Ok(true);
      assert Sift(xs, p) == Ok(pre + [last]);
      assert pre + [last] == xs;
    }
  }

  /** Extending the longer sequence keeps a subsequence one. */
  lemma {:induction false} SubsequenceExtend<T>(a: seq<T>, b: seq<T>, y: T)
    requires Subsequence(a, b)
    ensures Subsequence(a, b + [y])
    decreases |b|, 1
  {
    var c := b + [y];
    assert c[..|c| - 1] == b;
    if a != [] && a[|a| - 1] == y {
      SubsequenceDropLast(a, b);
    }
  }

  /** Dropping the last element of the shorter sequence keeps a
      subsequence one. */
  lemma {:induction false} SubsequenceDropLast<T>(a: seq<T>, b: seq<T>)
    requires a != [] && Subsequence(a, b)
    ensures Subsequence(a[..|a| - 1], b)
    decreases |b|, 0
  {
    var a' := a[..|a| - 1];
    var b' := b[..|b| - 1];
    assert b == b' + [b[|b| - 1]];
    if a[|a| - 1] == b[|b| - 1] {
      SubsequenceExtend(a', b', b[|b| - 1]);
    } else {
      SubsequenceDropLast(a, b');
      SubsequenceExtend(a', b', b[|b| - 1]);
    }
  }

  /** A sequence is a subsequence of itself. */
  lemma {:induction false} SubsequenceRefl<T>(a: seq<T>)
    ensures Subsequence(a, a)
  {
    if a != [] {
      SubsequenceRefl(a[..|a| - 1]);
    }
  }

  /** Removing elements twice is removing elements once. */
  lemma {:induction false} SubsequenceTrans<T>(a: seq<T>, b: seq<T>, c: seq<T>)
    requires Subsequence(a, b) && Subsequence(b, c)
    ensures Subsequence(a, c)
    decreases |c|
  {
    if a != [] {
      var c' := c[..|c| - 1];
      var x := c[|c| - 1];
      if b != [] && b[|b| - 1] == x {
        var b' := b[..|b| - 1];
        if a[|a| - 1] == b[|b| - 1] {
          SubsequenceTrans(a[..|a| - 1], b', c');
        } else {
          SubsequenceTrans(a, b', c');
        }
      } else {
        SubsequenceTrans(a, b, c');
        if a[|a| - 1] == x {
          SubsequenceDropLast(a, c');
        }
      }
    }
  }

  /** A subsequence is never longer. */
  lemma {:induction false} SubsequenceLength<T>(a: seq<T>, b: seq<T>)
    requires Subsequence(a, b)
    ensures |a| <= |b|
    decreases |b|
  {
    if a != [] {
      if a[|a| - 1] == b[|b| - 1] {
        SubsequenceLength(a[..|a| - 1], b[..|b| - 1]);
      } else {
        SubsequenceLength(a, b[..|b| - 1]);
      }
    }
  }

  /** The elements of a subsequence are elements of the whole. */
  lemma {:induction false} SubsequenceMembers<T>(a: seq<T>, b: seq<T>)
    requires Subsequence(a, b)
    ensures forall x :: x in a ==> x in b
    decreases |b|
  {
    if a != [] {
      var b' := b[..|b| - 1];
      assert b == b' + [b[|b| - 1]];
      if a[|a| - 1] == b[|b| - 1] {
        var a' := a[..|a| - 1];
        SubsequenceMembers(a', b');
        assert a == a' + [a[|a| - 1]];
      } else {
        SubsequenceMembers(a, b');
      }
    }
  }
}
