/** Failure-compatible wrappers shared by every module of the model. */
module Wrappers {

  datatype Option<+T> = None | Some(value: T) {
    function GetOr(default: T): T {
      match this
      case Some(v) => v
      case None => default
    }
  }

  /** The exceptions the source raises, by kind. */
  datatype Error =
    | IndexError(what: string)
    | ValueError(what: string)
    | KeyError(what: string)
    | TypeError(what: string)
    | AttributeError(what: string)
    | NameError(what: string)

  datatype Result<+T> = Ok(value: T) | Err(error: Error) {
    predicate IsFailure() { Err? }
    function PropagateFailure<U>(): Result<U>
      requires Err?
    {
      Err(error)
    }
    function Extract(): T
      requires Ok?
    {
      value
    }
  }

  /** `f` applied to each element in order, as a loop that stops at the
      first exception does: the values before it and the exception. */
  function MapUntilError<A, B>(xs: seq<A>, f: A -> Result<B>): (seq<B>, Option<Error>) {
    if xs == [] then ([], None)
    else
      var prev := MapUntilError(xs[..|xs| - 1], f);
      if prev.1.Some? then prev
      else
        var y := f(xs[|xs| - 1]);
        if y.Err? then (prev.0, Some(y.error)) else (prev.0 + [y.value], None)
  }

  /** Without an exception there is one value per element, in order. */
  lemma {:induction false} MapUntilErrorComplete<A, B>(xs: seq<A>, f: A -> Result<B>)
    requires MapUntilError(xs, f).1.None?
    ensures var ys := MapUntilError(xs, f).0;
      |ys| == |xs| && forall i :: 0 <= i < |xs| ==> f(xs[i]) == Ok(ys[i])
  {
    if xs != [] {
      var pre := xs[..|xs| - 1];
      MapUntilErrorComplete(pre, f);
      forall i | 0 <= i < |pre| ensures xs[i] == pre[i] {
      }
    }
  }

  /** With an exception, the values are those of the elements before the
      first failing one, which gives the exception. */
  lemma {:induction false} MapUntilErrorFails<A, B>(xs: seq<A>, f: A -> Result<B>)
    requires MapUntilError(xs, f).1.Some?
    ensures exists k :: (0 <= k < |xs| && MapUntilError(xs[..k], f) == (MapUntilError(xs, f).0, None) &&
      f(xs[k]) == Err(MapUntilError(xs, f).1.value))
  {
    var pre := xs[..|xs| - 1];
    if MapUntilError(pre, f).1.Some? {
      MapUntilErrorFails(pre, f);
      var k :| 0 <= k < |pre| && MapUntilError(pre[..k], f) == (MapUntilError(pre, f).0, None) &&
        f(pre[k]) == Err(MapUntilError(pre, f).1.value);
      assert pre[..k] == xs[..k];
    } else {
      assert xs[..|xs| - 1] == pre;
    }
  }

  /** One more element after a prefix without exception: its value is
      added, or its exception ends the loop. */
  lemma MapUntilErrorSnoc<A, B>(xs: seq<A>, i: nat, f: A -> Result<B>)
    requires i < |xs| && MapUntilError(xs[..i], f).1.None?
    ensures var prev := MapUntilError(xs[..i], f).0;
      MapUntilError(xs[..i + 1], f) == if f(xs[i]).Err? then (prev, Some(f(xs[i]).error)) else (prev + [f(xs[i]).value], None)
  {
    assert xs[..i + 1][..i] == xs[..i];
  }

  /** Once a prefix has failed, the rest of the elements change nothing. */
  lemma {:induction false} MapUntilErrorStops<A, B>(xs: seq<A>, f: A -> Result<B>, j: nat)
    requires j <= |xs| && MapUntilError(xs[..j], f).1.Some?
    ensures MapUntilError(xs, f) == MapUntilError(xs[..j], f)
  {
    if j < |xs| {
      var pre := xs[..|xs| - 1];
      assert pre[..j] == xs[..j];
      MapUntilErrorStops(pre, f, j);
    } else {
      assert xs[..j] == xs;
    }
  }

  /** After a prefix without exception, the rest is mapped on its own. */
  lemma {:induction false} MapUntilErrorAppend<A, B>(a: seq<A>, b: seq<A>, f: A -> Result<B>)
    requires MapUntilError(a, f).1.None?
    ensures MapUntilError(a + b, f) == (MapUntilError(a, f).0 + MapUntilError(b, f).0, MapUntilError(b, f).1)
  {
    if b == [] {
      assert a + b == a;
      assert MapUntilError(a, f).0 + [] == MapUntilError(a, f).0;
    } else {
      var pre := b[..|b| - 1];
      var last := b[|b| - 1];
      MapUntilErrorAppend(a, pre, f);
      assert (a + b)[..|a + b| - 1] == a + pre;
      assert (a + b)[|a + b| - 1] == last;
      var p := MapUntilError(pre, f);
      if p.1.None? && f(last).Ok? {
        AppendAssoc(MapUntilError(a, f).0, p.0, [f(last).value]);
      }
    }
  }

  /** The outputs of `f` on each element concatenated in order, as a loop
      whose bodies each add several values and which stops at the first
      exception does. */
  function ConcatUntilError<A, B>(xs: seq<A>, f: A -> (seq<B>, Option<Error>)): (seq<B>, Option<Error>) {
    if xs == [] then ([], None)
    else
      var prev := ConcatUntilError(xs[..|xs| - 1], f);
      if prev.1.Some? then prev
      else
        var step := f(xs[|xs| - 1]);
        (prev.0 + step.0, step.1)
  }

  /** Once a prefix has failed, the rest of the elements change nothing. */
  lemma {:induction false} ConcatUntilErrorStops<A, B>(xs: seq<A>, f: A -> (seq<B>, Option<Error>), j: nat)
    requires j <= |xs| && ConcatUntilError(xs[..j], f).1.Some?
    ensures ConcatUntilError(xs, f) == ConcatUntilError(xs[..j], f)
  {
    if j < |xs| {
      var pre := xs[..|xs| - 1];
      assert pre[..j] == xs[..j];
      ConcatUntilErrorStops(pre, f, j);
    } else {
      assert xs[..j] == xs;
    }
  }

  /** Without an exception every element's values are there, in order. */
  lemma {:induction false} ConcatUntilErrorComplete<A, B>(xs: seq<A>, f: A -> (seq<B>, Option<Error>))
    requires ConcatUntilError(xs, f).1.None?
    ensures forall i :: 0 <= i < |xs| ==> f(xs[i]).1.None?
    ensures |ConcatUntilError(xs, f).0| == SumLengths(xs, f)
  {
    if xs != [] {
      var pre := xs[..|xs| - 1];
      ConcatUntilErrorComplete(pre, f);
      forall i | 0 <= i < |pre| ensures xs[i] == pre[i] {
      }
    }
  }

  /** The number of values `f` gives for all elements together. */
  function SumLengths<A, B>(xs: seq<A>, f: A -> (seq<B>, Option<Error>)): nat {
    if xs == [] then 0 else SumLengths(xs[..|xs| - 1], f) + |f(xs[|xs| - 1]).0|
  }

  /** Concatenation is associative (proved for any element type, away from
      record types whose equality is costly to reason about). */
  lemma AppendAssoc<T>(a: seq<T>, b: seq<T>, c: seq<T>)
    ensures a + b + c == a + (b + c)
  {
  }
}
