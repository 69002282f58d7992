/** The memoising decorator of the older package (`ttl_cache`): results are
    kept per call key and served again until they are older than the
    decorator's time window. Times are integer seconds; the clock reading of
    each call is a parameter, and so is what the wrapped function gives when
    it is called (a value or an exception). */
module TtlCache {
  import opened Wrappers
  import opened Documents
  import Strings
  import Sorting

  /** `timedelta(seconds=…, minutes=…, hours=…, days=…)` in seconds. */
  function TimeDelta(seconds: int, minutes: int, hours: int, days: int): (r: int)
    ensures minutes == 0 && hours == 0 && days == 0 ==> r == seconds
    ensures seconds == 0 && hours == 0 && days == 0 ==> r == 60 * minutes
  {
    seconds + 60 * minutes + 3600 * hours + 86400 * days
  }

  /** A keyword argument: its name and value. */
  type KwArg = (string, Value)

  /** The cache key: `str` of every positional argument, and the keyword
      arguments sorted by name. */
  datatype Key = Key(args: seq<string>, kwargs: seq<KwArg>)

  /** The sort key of `sorted(kwargs.items(), key=lambda i: i[0])`. */
  predicate ByName(a: KwArg, b: KwArg) {
    Strings.LexLe(a.0, b.0)
  }

  lemma ByNamePreorder()
    ensures Sorting.TotalPreorder(ByName)
  {
    forall a: KwArg, b: KwArg ensures ByName(a, b) || ByName(b, a) {
      Strings.LexLeTotal(a.0, b.0);
    }
    forall a: KwArg, b: KwArg, c: KwArg | ByName(a, b) && ByName(b, c) ensures ByName(a, c) {
      Strings.LexLeTransitive(a.0, b.0, c.0);
    }
  }

  function StrAll(args: seq<Value>): (r: seq<string>)
    ensures |r| == |args|
    ensures forall i :: 0 <= i < |args| ==> r[i] == Str(args[i])
  {
    if args == [] then [] else [Str(args[0])] + StrAll(args[1..])
  }

  /** The key of a call with positional `args` and keyword `kwargs` (in the
      order the caller wrote them). */
  function KeyOf(args: seq<Value>, kwargs: seq<KwArg>): Key {
    Key(StrAll(args), Sorting.Sort(ByName, kwargs))
  }

  /** No keyword is given twice, as Python guarantees. */
  predicate DistinctNames(kwargs: seq<KwArg>) {
    forall i, j :: 0 <= i < j < |kwargs| ==> kwargs[i].0 != kwargs[j].0
  }

  /** The order in which keyword arguments are written does not change the
      key. */
  lemma {:induction false} KwargsOrderIrrelevant(args: seq<Value>, kw1: seq<KwArg>, kw2: seq<KwArg>)
    requires DistinctNames(kw1) && multiset(kw1) == multiset(kw2)
    ensures KeyOf(args, kw1) == KeyOf(args, kw2)
  {
    ByNamePreorder();
    var s1 := Sorting.Sort(ByName, kw1);
    var s2 := Sorting.Sort(ByName, kw2);
    Sorting.SortSorted(ByName, kw1);
    Sorting.SortSorted(ByName, kw2);
    forall x, y | x in s1 && y in s1 && ByName(x, y) && ByName(y, x) ensures x == y {
      assert x in multiset(s1) && y in multiset(s1);
      var i :| 0 <= i < |kw1| && kw1[i] == x;
      var j :| 0 <= j < |kw1| && kw1[j] == y;
      Strings.LexLeAntisymmetric(x.0, y.0);
    }
    Sorting.SortedUnique(ByName, s1, s2);
  }

  /** Positional arguments count only through `str`: an integer and the
      string of its digits share a key. */
  lemma StrConflatesArguments()
    ensures KeyOf([VInt(1)], []) == KeyOf([VStr("1")], [])
  {
    assert Strings.NatToString(1) == "1";
  }

  /** The two dictionaries of a decorated function: when each key was
      last (re)computed, and its last successful result. */
  datatype Memo = Memo(updates: map<Key, int>, results: map<Key, Value>)

  /** Every stored result has a timestamp: the timestamp is always set
      before the result. */
  predicate Valid(s: Memo) {
    s.results.Keys <= s.updates.Keys
  }

  /** The stored result for `key` is served at time `now`. */
  predicate Served(s: Memo, key: Key, now: int, delta: int) {
    key in s.results && !(now - (if key in s.updates then s.updates[key] else now) > delta)
  }

  /** What one call does: the new state, the call's outcome, and whether
      the wrapped function was called. */
  datatype Outcome = Outcome(state: Memo, result: Result<Value>, called: bool)

  /** One call of `do_cache` at time `now`; `f` is what the wrapped function
      gives if it is called. */
  function Step(s: Memo, key: Key, now: int, delta: int, f: Result<Value>): (o: Outcome)
    requires Valid(s)
    ensures Valid(o.state)
    ensures !o.called <==> Served(s, key, now, delta)
    ensures !o.called ==> o.state == s && o.result == Ok(s.results[key])
    ensures o.called ==> o.result == f && o.state.updates == s.updates[key := now]
    ensures o.called && f.Ok? ==> o.state.results == s.results[key := f.value]
    ensures o.called && f.Err? ==> o.state.results == s.results
  {
    if !Served(s, key, now, delta) then
      var updates := s.updates[key := now];
      match f
      case Ok(v) => Outcome(Memo(updates, s.results[key := v]), f, true)
      case Err(_) => Outcome(Memo(updates, s.results), f, true)
    else
      Outcome(s, Ok(s.results[key]), false)
  }

  /** Only the entry of the called key changes. */
  lemma OtherKeysUntouched(s: Memo, key: Key, now: int, delta: int, f: Result<Value>, other: Key)
    requires Valid(s) && other != key
    ensures var t := Step(s, key, now, delta, f).state;
      (other in t.updates <==> other in s.updates) && (other in t.results <==> other in s.results) &&
      (other in s.updates ==> t.updates[other] == s.updates[other]) &&
      (other in s.results ==> t.results[other] == s.results[other])
  {
  }

  /** A computed result is served, without calling the function, to every
      call of the same key until the window has passed since it was
      computed; the served calls do not move its timestamp. */
  lemma {:induction false} ServedWithinWindow(s: Memo, key: Key, t0: int, delta: int, v: Value, later: seq<int>, g: Result<Value>)
    requires Valid(s) && delta >= 0
    requires Step(s, key, t0, delta, Ok(v)).called
    requires forall i :: 0 <= i < |later| ==> t0 <= later[i] <= t0 + delta
    ensures var after := Run(Step(s, key, t0, delta, Ok(v)).state, key, later, delta, g);
      after.state == Step(s, key, t0, delta, Ok(v)).state &&
      (forall i :: 0 <= i < |later| ==> after.results[i] == Ok(v)) && !after.calledAny
  {
    if later != [] {
      ServedWithinWindow(s, key, t0, delta, v, later[..|later| - 1], g);
    }
  }

  /** The outcomes of calls of one key at the given times, the function
      giving `g` whenever it is called. */
  datatype Trace = Trace(state: Memo, results: seq<Result<Value>>, calledAny: bool)

  function Run(s: Memo, key: Key, times: seq<int>, delta: int, g: Result<Value>): (tr: Trace)
    requires Valid(s)
    ensures Valid(tr.state) && |tr.results| == |times|
  {
    if times == [] then Trace(s, [], false)
    else
      var prev := Run(s, key, times[..|times| - 1], delta, g);
      var o := Step(prev.state, key, times[|times| - 1], delta, g);
      Trace(o.state, prev.results + [o.result], prev.calledAny || o.called)
  }

  /** A call whose function raises stores no result: for a new key the next
      call computes again, whatever the time. */
  lemma FailureNotCached(s: Memo, key: Key, t0: int, t1: int, delta: int, e: Error, g: Result<Value>)
    requires Valid(s) && key !in s.results
    ensures var first := Step(s, key, t0, delta, Err(e));
      first.called && first.result == Err(e) && key !in first.state.results &&
      Step(first.state, key, t1, delta, g).called
  {
  }

  /** An expired entry whose recomputation raises keeps its old result but
      gets a new timestamp, so the old result is served again for another
      full window. */
  lemma ExpiredFailureServesOldResult(s: Memo, key: Key, t0: int, t1: int, delta: int, e: Error, g: Result<Value>)
    requires Valid(s) && key in s.results && t0 - s.updates[key] > delta
    requires t0 <= t1 <= t0 + delta
    ensures var first := Step(s, key, t0, delta, Err(e));
      first.called && first.result == Err(e) &&
      Step(first.state, key, t1, delta, g) == Outcome(first.state, Ok(s.results[key]), false)
  {
  }

  /** A decorated function: its time window and its two dictionaries. */
  class Cache {
    const delta: int
    var updates: map<Key, int>
    var results: map<Key, Value>

    ghost predicate Valid()
      reads this
    {
      results.Keys <= updates.Keys
    }

    function Current(): Memo
      reads this
    {
      Memo(updates, results)
    }

    /** `ttl_cache(seconds, minutes, hours, days)` applied to a function:
        both dictionaries start empty. */
    constructor (seconds: int, minutes: int, hours: int, days: int)
      ensures Valid() && delta == TimeDelta(seconds, minutes, hours, days)
      ensures updates == map[] && results == map[]
    {
      delta := TimeDelta(seconds, minutes, hours, days);
      updates := map[];
      results := map[];
    }

    /** `do_cache(*args, **kwargs)` at time `now`: a stored result that is
        not older than the window is returned; otherwise the timestamp is
        set, the function is called (giving `f`) and a value it returns is
        stored. `called` tells whether it was called. */
    method Call(args: seq<Value>, kwargs: seq<KwArg>, now: int, f: Result<Value>) returns (r: Result<Value>, called: bool)
      requires Valid()
      modifies this
      ensures Valid()
      ensures Outcome(Current(), r, called) == Step(old(Current()), KeyOf(args, kwargs), now, delta, f)
    {
      var key := Key(StrAll(args), Sorting.Sort(ByName, kwargs));
      var updated := if key in updates then updates[key] else now;
      if key !in results || now - updated > delta {
        updates := updates[key := now];
        called := true;
        r := f;
        if f.Ok? {
          results := results[key := f.value];
        }
      } else {
        called := false;
        r := Ok(results[key]);
      }
    }
  }
}
