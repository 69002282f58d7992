/** The release charts of a milestone: the open/in-progress/resolved/...
    trend lines, built by a sweep over +1/-1 interval marks placed on a
    global grid of days, and the weekly incoming/outgoing counts. */
module ReleaseChart {
  import opened Wrappers
  import opened Documents
  import Statuses
  import Sorting
  import opened Timeline

  const DaySeconds: int := 86400

  /** Midnight of the day of `t` (`replace(hour=0, minute=0, ...)`). */
  function DayStart(t: int): (r: int)
    ensures r <= t < r + DaySeconds
    ensures r % DaySeconds == 0
  {
    t - t % DaySeconds
  }

  lemma DayStartMonotone(a: int, b: int)
    requires a <= b
    ensures DayStart(a) <= DayStart(b)
  {
  }

  // ---------------------------------------------------------------------
  // Marks and their sums

  /** One `{"date", "num"}` entry of a series. */
  datatype Mark = Mark(date: int, num: int)

  /** Sum of the marks dated at most `d`: the running count a sweep has
      reached once it has passed `d`. */
  function SumUpTo(ms: seq<Mark>, d: int): int {
    if ms == [] then 0
    else (if ms[0].date <= d then ms[0].num else 0) + SumUpTo(ms[1..], d)
  }

  /** Sum of all marks. */
  function Total(ms: seq<Mark>): int {
    if ms == [] then 0 else ms[0].num + Total(ms[1..])
  }

  lemma {:induction false} SumUpToConcat(a: seq<Mark>, b: seq<Mark>, d: int)
    ensures SumUpTo(a + b, d) == SumUpTo(a, d) + SumUpTo(b, d)
  {
    if a != [] {
      assert (a + b)[1..] == a[1..] + b;
      SumUpToConcat(a[1..], b, d);
    } else {
      assert a + b == b;
    }
  }

  lemma {:induction false} TotalConcat(a: seq<Mark>, b: seq<Mark>)
    ensures Total(a + b) == Total(a) + Total(b)
  {
    if a != [] {
      assert (a + b)[1..] == a[1..] + b;
      TotalConcat(a[1..], b);
    } else {
      assert a + b == b;
    }
  }

  /** When every mark is dated at most `d`, the sum up to `d` is the total. */
  lemma {:induction false} SumUpToAll(ms: seq<Mark>, d: int)
    requires forall i :: 0 <= i < |ms| ==> ms[i].date <= d
    ensures SumUpTo(ms, d) == Total(ms)
  {
    if ms != [] {
      SumUpToAll(ms[1..], d);
    }
  }

  /** No mark dated in `(d1, d2]` leaves the sum unchanged. */
  lemma {:induction false} SumUpToFlat(ms: seq<Mark>, d1: int, d2: int)
    requires d1 <= d2
    requires forall i :: 0 <= i < |ms| ==> !(d1 < ms[i].date <= d2)
    ensures SumUpTo(ms, d1) == SumUpTo(ms, d2)
  {
    if ms != [] {
      SumUpToFlat(ms[1..], d1, d2);
    }
  }

  /** `(date, -num)` ordering of marks. */
  predicate MarkLe(a: Mark, b: Mark) {
    a.date < b.date || (a.date == b.date && -a.num <= -b.num)
  }

  lemma MarkLeTotalPreorder()
    ensures Sorting.TotalPreorder(MarkLe)
  {
  }

  lemma {:induction false} SumUpToInsert(x: Mark, s: seq<Mark>, d: int)
    ensures SumUpTo(Sorting.Insert(MarkLe, x, s), d) == SumUpTo([x] + s, d)
    ensures Total(Sorting.Insert(MarkLe, x, s)) == Total([x] + s)
  {
    if s != [] && !MarkLe(x, s[0]) {
      SumUpToInsert(x, s[1..], d);
      var t := Sorting.Insert(MarkLe, x, s[1..]);
      assert Sorting.Insert(MarkLe, x, s) == [s[0]] + t;
      assert ([s[0]] + t)[1..] == t;
      assert ([x] + s)[1..] == s && ([x] + s[1..])[1..] == s[1..];
    }
  }

  /** Sorting the marks changes neither their sums nor their total. */
  lemma {:induction false} SumUpToSort(ms: seq<Mark>, d: int)
    ensures SumUpTo(Sorting.Sort(MarkLe, ms), d) == SumUpTo(ms, d)
    ensures Total(Sorting.Sort(MarkLe, ms)) == Total(ms)
  {
    if ms != [] {
      SumUpToSort(ms[1..], d);
      SumUpToInsert(ms[0], Sorting.Sort(MarkLe, ms[1..]), d);
      assert ([ms[0]] + Sorting.Sort(MarkLe, ms[1..]))[1..] == Sorting.Sort(MarkLe, ms[1..]);
    }
  }

  /** The earliest date of a non-empty series. */
  function MinDate(ms: seq<Mark>): (r: int)
    requires ms != []
    ensures exists i :: 0 <= i < |ms| && ms[i].date == r
    ensures forall i :: 0 <= i < |ms| ==> r <= ms[i].date
  {
    if |ms| == 1 then ms[0].date
    else
      var m := MinDate(ms[1..]);
      assert forall i :: 1 <= i < |ms| ==> ms[i] == ms[1..][i - 1];
      if ms[0].date <= m then ms[0].date else m
  }

  lemma MinDatePermutation(a: seq<Mark>, b: seq<Mark>)
    requires a != [] && multiset(a) == multiset(b)
    ensures b != [] && MinDate(a) == MinDate(b)
  {
    assert |b| == |multiset(b)| == |multiset(a)| == |a|;
    var i :| 0 <= i < |a| && a[i].date == MinDate(a);
    var j :| 0 <= j < |b| && b[j].date == MinDate(b);
    assert a[i] in multiset(b);
    assert b[j] in multiset(a);
  }

  /** The value a series shows at grid date `d`: the sum of the marks up to
      `d`, where a date before the first mark shows the first mark's value;
      an empty series shows 0. */
  function Level(ms: seq<Mark>, d: int): int {
    if ms == [] then 0
    else
      var m := MinDate(ms);
      SumUpTo(ms, if d < m then m else d)
  }

  lemma LevelSort(ms: seq<Mark>, d: int)
    ensures Level(Sorting.Sort(MarkLe, ms), d) == Level(ms, d)
  {
    var s := Sorting.Sort(MarkLe, ms);
    if ms != [] {
      MinDatePermutation(ms, s);
      SumUpToSort(ms, if d < MinDate(ms) then MinDate(ms) else d);
    }
  }

  // ---------------------------------------------------------------------
  // The sweep over one series

  predicate Increasing(a: seq<int>) {
    forall i, j :: 0 <= i < j < |a| ==> a[i] < a[j]
  }

  /** `bisect_left(a, x)`. */
  method BisectLeft(a: seq<int>, x: int) returns (lo: int)
    requires Increasing(a)
    ensures 0 <= lo <= |a|
    ensures forall i :: 0 <= i < lo ==> a[i] < x
    ensures forall i :: lo <= i < |a| ==> x <= a[i]
  {
    lo := 0;
    var hi := |a|;
    while lo < hi
      invariant 0 <= lo <= hi <= |a|
      invariant forall i :: 0 <= i < lo ==> a[i] < x
      invariant forall i :: hi <= i < |a| ==> x <= a[i]
    {
      var mid := (lo + hi) / 2;
      if a[mid] < x {
        lo := mid + 1;
      } else {
        hi := mid;
      }
    }
  }

  /** A value of the grid is found where `bisect_left` points. */
  lemma BisectFinds(a: seq<int>, x: int, lo: int)
    requires Increasing(a) && 0 <= lo <= |a|
    requires forall i :: 0 <= i < lo ==> a[i] < x
    requires forall i :: lo <= i < |a| ==> x <= a[i]
    ensures x in a <==> lo < |a| && a[lo] == x
  {
  }

  predicate HasDate(ms: seq<Mark>, d: int) {
    exists i :: 0 <= i < |ms| && ms[i].date == d
  }

  predicate DatesIn(ms: seq<Mark>, grid: seq<int>) {
    forall i :: 0 <= i < |ms| ==> ms[i].date in grid
  }

  predicate DateSortedMarks(ms: seq<Mark>) {
    forall i, j :: 0 <= i < j < |ms| ==> ms[i].date <= ms[j].date
  }

  /** What the sweep has stored after the first `p` sorted marks. */
  function Stored(s: seq<Mark>, p: nat, g: int): Option<int>
    requires p <= |s|
  {
    if HasDate(s[..p], g) then Some(SumUpTo(s[..p], g)) else None
  }

  /** One step of the sweep: the mark at `p` stores the running total at its
      date and leaves every other grid date as it was. */
  lemma SweepStep(s: seq<Mark>, p: nat, g: int)
    requires p < |s| && DateSortedMarks(s)
    ensures g == s[p].date ==> Stored(s, p + 1, g) == Some(Total(s[..p + 1]))
    ensures g != s[p].date ==> Stored(s, p + 1, g) == Stored(s, p, g)
  {
    assert s[..p + 1] == s[..p] + [s[p]];
    SumUpToConcat(s[..p], [s[p]], g);
    assert SumUpTo([s[p]], g) == if s[p].date <= g then s[p].num else 0 by {
      assert [s[p]][1..] == [];
    }
    if g == s[p].date {
      var t := s[..p + 1];
      assert forall i :: 0 <= i < |t| ==> t[i].date <= g;
      SumUpToAll(t, g);
      assert s[..p + 1][p].date == g;
    } else {
      assert HasDate(s[..p + 1], g) == HasDate(s[..p], g) by {
        if HasDate(s[..p + 1], g) {
          var i :| 0 <= i < p + 1 && s[..p + 1][i].date == g;
          assert s[..p][i] == s[..p + 1][i];
        }
        if HasDate(s[..p], g) {
          var i :| 0 <= i < p && s[..p][i].date == g;
          assert s[..p + 1][i] == s[..p][i];
        }
      }
      if HasDate(s[..p], g) {
        var i :| 0 <= i < p && s[..p][i].date == g;
        assert s[i].date <= s[p].date;
      }
    }
  }

  /** The per-date loop: each sorted mark adds to the running count, is
      located on the grid by binary search and stores the count there. A
      mark whose date is past the grid raises `IndexError`; one between grid
      dates raises `ValueError`. */
  method Sweep(grid: seq<int>, s: seq<Mark>) returns (r: Result<array<Option<int>>>)
    requires Increasing(grid) && DateSortedMarks(s)
    ensures r.Ok? <==> DatesIn(s, grid)
    ensures r.Ok? ==> fresh(r.value) && r.value.Length == |grid|
    ensures r.Ok? ==> forall k :: 0 <= k < |grid| ==> r.value[k] == Stored(s, |s|, grid[k])
  {
    var values := new Option<int>[|grid|](_ => None);
    var count := 0;
    var p := 0;
    while p < |s|
      invariant 0 <= p <= |s|
      invariant count == Total(s[..p])
      invariant forall i :: 0 <= i < p ==> s[i].date in grid
      invariant forall k :: 0 <= k < |grid| ==> values[k] == Stored(s, p, grid[k])
    {
      assert s[..p + 1] == s[..p] + [s[p]];
      TotalConcat(s[..p], [s[p]]);
      assert Total([s[p]]) == s[p].num by {
        assert [s[p]][1..] == [];
      }
      count := count + s[p].num;
      var idx := BisectLeft(grid, s[p].date);
      BisectFinds(grid, s[p].date, idx);
      if idx == |grid| {
        return Err(IndexError("list index out of range"));
      }
      if grid[idx] != s[p].date {
        return Err(ValueError("Date not found in array using binary search"));
      }
      forall k | 0 <= k < |grid| ensures (if k == idx then Some(count) else values[k]) == Stored(s, p + 1, grid[k]) {
        SweepStep(s, p, grid[k]);
      }
      values[idx] := Some(count);
      p := p + 1;
    }
    assert s[..p] == s;
    return Ok(values);
  }

  // ---------------------------------------------------------------------
  // Forward fill

  /** The last defined slot at or before `k`. */
  function LastDefined(vals: seq<Option<int>>, k: nat): (r: Option<nat>)
    requires k < |vals|
    ensures r.Some? ==> r.value <= k && vals[r.value].Some? && forall i :: r.value < i <= k ==> vals[i].None?
    ensures r.None? ==> forall i :: 0 <= i <= k ==> vals[i].None?
  {
    if vals[k].Some? then Some(k) else if k == 0 then None else LastDefined(vals, k - 1)
  }

  /** The first defined slot. */
  function FirstDefined(vals: seq<Option<int>>): (r: Option<nat>)
    ensures r.Some? ==> r.value < |vals| && vals[r.value].Some? && forall i :: 0 <= i < r.value ==> vals[i].None?
    ensures r.None? ==> forall i :: 0 <= i < |vals| ==> vals[i].None?
  {
    if vals == [] then None
    else if vals[0].Some? then Some(0)
    else
      var r := FirstDefined(vals[1..]);
      assert forall i :: 1 <= i < |vals| ==> vals[i] == vals[1..][i - 1];
      if r.Some? then Some(r.value + 1) else None
  }

  /** The value leading empty slots take: the first defined value, else 0. */
  function Lead(vals: seq<Option<int>>): int {
    match FirstDefined(vals)
    case Some(j) => vals[j].value
    case None => 0
  }

  /** What slot `k` holds after the fill: the last defined value at or
      before it, else the lead value. */
  function FillValue(vals: seq<Option<int>>, k: nat): int
    requires k < |vals|
  {
    match LastDefined(vals, k)
    case Some(j) => vals[j].value
    case None => Lead(vals)
  }

  /** The two fill loops: find the first defined value, then carry the
      last seen value into every empty slot. */
  method ForwardFill(values: array<Option<int>>)
    modifies values
    ensures forall k :: 0 <= k < values.Length ==> values[k] == Some(FillValue(old(values[..]), k))
  {
    ghost var v0 := values[..];
    var n := values.Length;
    var prev := 0;
    var idx := 0;
    while idx < n
      invariant 0 <= idx <= n
      invariant forall i :: 0 <= i < idx ==> v0[i].None?
    {
      if values[idx].Some? {
        prev := values[idx].value;
        break;
      }
      idx := idx + 1;
    }
    assert prev == Lead(v0);
    idx := 0;
    while idx < n
      invariant 0 <= idx <= n
      invariant forall k :: 0 <= k < idx ==> values[k] == Some(FillValue(v0, k))
      invariant forall k :: idx <= k < n ==> values[k] == v0[k]
      invariant idx == 0 ==> prev == Lead(v0)
      invariant idx > 0 ==> prev == FillValue(v0, idx - 1)
    {
      if values[idx].None? {
        values[idx] := Some(prev);
      } else {
        prev := values[idx].value;
      }
      idx := idx + 1;
    }
  }

  /** The slots the sweep leaves: defined exactly at the dates of marks,
      holding the sum up to that date. */
  predicate SweptSlots(grid: seq<int>, s: seq<Mark>, vals: seq<Option<int>>) {
    |vals| == |grid| &&
    (forall i :: 0 <= i < |grid| ==> (vals[i].Some? <==> HasDate(s, grid[i]))) &&
    (forall i :: 0 <= i < |grid| && vals[i].Some? ==> vals[i].value == SumUpTo(s, grid[i]))
  }

  lemma FillAfterMark(grid: seq<int>, s: seq<Mark>, vals: seq<Option<int>>, j: nat, k: nat)
    requires Increasing(grid) && DatesIn(s, grid) && SweptSlots(grid, s, vals)
    requires j <= k < |grid| && vals[j].Some? && forall i :: j < i <= k ==> vals[i].None?
    ensures vals[j].value == Level(s, grid[k])
  {
    var w :| 0 <= w < |s| && s[w].date == grid[j];
    assert MinDate(s) <= grid[j] <= grid[k];
    forall i | 0 <= i < |s| ensures !(grid[j] < s[i].date <= grid[k]) {
      var q :| 0 <= q < |grid| && grid[q] == s[i].date;
    }
    SumUpToFlat(s, grid[j], grid[k]);
  }

  lemma FillBeforeMarks(grid: seq<int>, s: seq<Mark>, vals: seq<Option<int>>, j: nat, k: nat)
    requires Increasing(grid) && DatesIn(s, grid) && SweptSlots(grid, s, vals)
    requires k < j < |grid| && vals[j].Some? && forall i :: 0 <= i < j ==> vals[i].None?
    ensures vals[j].value == Level(s, grid[k])
  {
    var w :| 0 <= w < |s| && s[w].date == grid[j];
    var m := MinDate(s);
    var u :| 0 <= u < |s| && s[u].date == m;
    var q :| 0 <= q < |grid| && grid[q] == m;
    assert vals[q].Some?;
    assert q >= j && m <= grid[j];
    assert grid[q] == grid[j];
  }

  /** On the swept grid, the filled value of a slot is the level of the
      series at that date. */
  lemma FillIsLevel(grid: seq<int>, s: seq<Mark>, vals: seq<Option<int>>, k: nat)
    requires Increasing(grid) && DatesIn(s, grid) && SweptSlots(grid, s, vals) && k < |grid|
    ensures FillValue(vals, k) == Level(s, grid[k])
  {
    match LastDefined(vals, k)
    case Some(j) =>
      FillAfterMark(grid, s, vals, j, k);
    case None =>
      match FirstDefined(vals)
      case Some(j) =>
        FillBeforeMarks(grid, s, vals, j, k);
      case None =>
  }

  lemma DatesInPermutation(a: seq<Mark>, b: seq<Mark>, grid: seq<int>)
    requires multiset(a) == multiset(b)
    ensures DatesIn(a, grid) <==> DatesIn(b, grid)
  {
    if DatesIn(a, grid) {
      forall i | 0 <= i < |b| ensures b[i].date in grid {
        assert b[i] in multiset(a);
        var j :| 0 <= j < |a| && a[j] == b[i];
      }
    }
    if DatesIn(b, grid) {
      forall i | 0 <= i < |a| ensures a[i].date in grid {
        assert a[i] in multiset(b);
        var j :| 0 <= j < |b| && b[j] == a[i];
      }
    }
  }

  /** What the sort by `(date, -num)` keeps of a series: its dates and its
      level on every day. */
  lemma SortedMarks(ms: seq<Mark>, grid: seq<int>)
    ensures DateSortedMarks(Sorting.Sort(MarkLe, ms))
    ensures DatesIn(Sorting.Sort(MarkLe, ms), grid) <==> DatesIn(ms, grid)
    ensures forall d :: Level(Sorting.Sort(MarkLe, ms), d) == Level(ms, d)
  {
    MarkLeTotalPreorder();
    Sorting.SortSorted(MarkLe, ms);
    DatesInPermutation(ms, Sorting.Sort(MarkLe, ms), grid);
    forall d ensures Level(Sorting.Sort(MarkLe, ms), d) == Level(ms, d) {
      LevelSort(ms, d);
    }
  }

  /** The sweep and the fill of one series over date-sorted marks: every
      grid slot ends up holding the level of the series on that date. */
  method SweepAndFill(grid: seq<int>, s: seq<Mark>) returns (r: Result<array<Option<int>>>)
    requires Increasing(grid) && DateSortedMarks(s)
    ensures r.Ok? <==> DatesIn(s, grid)
    ensures r.Ok? ==> fresh(r.value) && r.value.Length == |grid|
    ensures r.Ok? ==> forall k :: 0 <= k < |grid| ==> r.value[k] == Some(Level(s, grid[k]))
  {
    var swept := Sweep(grid, s);
    if swept.Err? {
      return Err(swept.error);
    }
    var values := swept.value;
    assert s[..|s|] == s;
    ghost var vals := values[..];
    assert SweptSlots(grid, s, vals);
    ForwardFill(values);
    forall k | 0 <= k < |grid| ensures values[k] == Some(Level(s, grid[k])) {
      FillIsLevel(grid, s, vals, k);
    }
    return Ok(values);
  }

  /** One series of the trend chart: the marks sorted by `(date, -num)`,
      swept onto the grid, forward-filled, and turned into
      `[milliseconds, value]` points for every grid date but the last. */
  method SeriesPoints(grid: seq<int>, ms: seq<Mark>) returns (r: Result<seq<(int, int)>>)
    requires Increasing(grid)
    ensures r.Ok? <==> DatesIn(ms, grid)
    ensures r.Ok? ==> r.value == LevelPoints(ms, grid)
  {
    var s := Sorting.Sort(MarkLe, ms);
    SortedMarks(ms, grid);
    var filled := SweepAndFill(grid, s);
    if filled.Err? {
      return Err(filled.error);
    }
    var values := filled.value;
    var points: seq<(int, int)> := [];
    var idx := 0;
    while idx < |grid| - 1
      invariant 0 <= idx <= |grid| && |points| == idx
      invariant |grid| > 0 ==> idx <= |grid| - 1
      invariant forall k :: 0 <= k < idx ==> points[k] == (grid[k] * 1000, Level(ms, grid[k]))
    {
      assert values[idx] == Some(Level(s, grid[idx]));
      points := points + [(grid[idx] * 1000, values[idx].value)];
      idx := idx + 1;
    }
    return Ok(points);
  }

  // ---------------------------------------------------------------------
  // Intervals of the bugs' timelines

  /** The days one event's state lasted, in the series of its kind. */
  datatype Span = Span(kind: Kind, start: int, end: int)

  /** The span contributed by event `i`, which lasts until the next event or
      the end of the window; nothing when the next event is earlier. */
  function SpanAt(es: seq<Event>, windowEnd: int, i: nat): (r: seq<Span>)
    requires i < |es|
    ensures |r| <= 1
    ensures forall k :: 0 <= k < |r| ==> r[k].kind == es[i].kind && r[k].start <= r[k].end
  {
    var d1 := es[i].date;
    var d2 := if i + 1 < |es| then es[i + 1].date else windowEnd;
    if d1 <= d2 then
      DayStartMonotone(d1, d2);
      [Span(es[i].kind, DayStart(d1), DayStart(d2))]
    else []
  }

  /** The spans of the first `i` events of a timeline. */
  function PairSpans(es: seq<Event>, windowEnd: int, i: nat): seq<Span>
    requires i <= |es|
  {
    if i == 0 then [] else PairSpans(es, windowEnd, i - 1) + SpanAt(es, windowEnd, i - 1)
  }

  /** The spans of every timeline, in order. */
  function AllSpans(ts: seq<seq<Event>>, windowEnd: int): seq<Span> {
    if ts == [] then []
    else
      var es := ts[|ts| - 1];
      AllSpans(ts[..|ts| - 1], windowEnd) + PairSpans(es, windowEnd, |es|)
  }

  /** The spans of one kind. */
  function OfKind(sps: seq<Span>, t: Kind): seq<Span> {
    if sps == [] then []
    else
      var last := sps[|sps| - 1];
      OfKind(sps[..|sps| - 1], t) + (if last.kind == t then [last] else [])
  }

  /** `+1` at the start and `-1` at the end of every span. */
  function MarksOf(sps: seq<Span>): seq<Mark> {
    if sps == [] then []
    else
      var last := sps[|sps| - 1];
      MarksOf(sps[..|sps| - 1]) + [Mark(last.start, 1), Mark(last.end, -1)]
  }

  /** Every day a span starts or ends on, as the source adds them to its
      set of dates. */
  function Endpoints(sps: seq<Span>): seq<int> {
    if sps == [] then []
    else
      var last := sps[|sps| - 1];
      Endpoints(sps[..|sps| - 1]) + [last.start, last.end]
  }

  predicate Ordered(sps: seq<Span>) {
    forall k :: 0 <= k < |sps| ==> sps[k].start <= sps[k].end
  }

  /** How many spans cover day `d`. */
  function Coverage(sps: seq<Span>, d: int): (r: nat) {
    if sps == [] then 0
    else
      var last := sps[|sps| - 1];
      Coverage(sps[..|sps| - 1], d) + (if last.start <= d < last.end then 1 else 0)
  }

  lemma {:induction false} OfKindOrdered(sps: seq<Span>, t: Kind)
    requires Ordered(sps)
    ensures Ordered(OfKind(sps, t))
  {
    if sps != [] {
      OfKindOrdered(sps[..|sps| - 1], t);
    }
  }

  /** The sum of the marks up to a day counts the spans covering it, and
      all the marks together cancel out. */
  lemma {:induction false} MarksCount(sps: seq<Span>, d: int)
    requires Ordered(sps)
    ensures SumUpTo(MarksOf(sps), d) == Coverage(sps, d)
    ensures Total(MarksOf(sps)) == 0
  {
    if sps != [] {
      var pre := sps[..|sps| - 1];
      var last := sps[|sps| - 1];
      assert Ordered(pre) by {
        forall k | 0 <= k < |pre| ensures pre[k].start <= pre[k].end {
          assert pre[k] == sps[k];
        }
      }
      MarksCount(pre, d);
      var two := [Mark(last.start, 1), Mark(last.end, -1)];
      assert MarksOf(sps) == MarksOf(pre) + two;
      SumUpToConcat(MarksOf(pre), two, d);
      TotalConcat(MarksOf(pre), two);
      assert two[1..] == [Mark(last.end, -1)] && two[1..][1..] == [];
      assert SumUpTo(two[1..], d) == (if last.end <= d then -1 else 0);
      assert Total(two[1..]) == -1;
      assert last.start <= last.end;
      assert SumUpTo(two, d) == (if last.start <= d < last.end then 1 else 0);
      assert Total(two) == 0;
    }
  }

  /** The dates of the marks are among the endpoints. */
  lemma {:induction false} MarksOnEndpoints(sps: seq<Span>, t: Kind)
    ensures forall m :: m in MarksOf(OfKind(sps, t)) ==> m.date in Endpoints(sps)
  {
    if sps != [] {
      var pre := sps[..|sps| - 1];
      MarksOnEndpoints(pre, t);
      var last := sps[|sps| - 1];
      assert Endpoints(sps) == Endpoints(pre) + [last.start, last.end];
      if last.kind == t {
        var ok := OfKind(sps, t);
        assert ok == OfKind(pre, t) + [last];
        assert ok[..|ok| - 1] == OfKind(pre, t) && ok[|ok| - 1] == last;
        assert MarksOf(ok) == MarksOf(OfKind(pre, t)) + [Mark(last.start, 1), Mark(last.end, -1)];
        forall m | m in MarksOf(ok) ensures m.date in Endpoints(sps) {
          if m in MarksOf(OfKind(pre, t)) {
            assert m.date in Endpoints(pre);
          } else {
            assert m == Mark(last.start, 1) || m == Mark(last.end, -1);
          }
        }
      } else {
        assert OfKind(sps, t) == OfKind(pre, t);
        forall m | m in MarksOf(OfKind(sps, t)) ensures m.date in Endpoints(sps) {
          assert m.date in Endpoints(pre);
        }
      }
    }
  }

  /** Every point of a trend series counts spans, so it is never negative. */
  lemma LevelIsCoverage(sps: seq<Span>, d: int)
    requires Ordered(sps)
    ensures MarksOf(sps) == [] ==> Level(MarksOf(sps), d) == 0
    ensures MarksOf(sps) != [] ==>
      var m := MinDate(MarksOf(sps));
      Level(MarksOf(sps), d) == Coverage(sps, if d < m then m else d)
    ensures Level(MarksOf(sps), d) >= 0
  {
    var ms := MarksOf(sps);
    if ms != [] {
      var m := MinDate(ms);
      MarksCount(sps, if d < m then m else d);
    }
  }

  /** On a day no span outlasts, every series is back to zero: this is the
      last grid date, which the chart leaves out. */
  lemma LevelPastEnd(sps: seq<Span>, d: int)
    requires Ordered(sps)
    requires forall k :: 0 <= k < |sps| ==> sps[k].end <= d
    ensures Level(MarksOf(sps), d) == 0
  {
    LevelIsCoverage(sps, d);
    NoCoverage(sps, d);
  }

  lemma {:induction false} NoCoverage(sps: seq<Span>, d: int)
    requires forall k :: 0 <= k < |sps| ==> sps[k].end <= d
    ensures forall e :: d <= e ==> Coverage(sps, e) == 0
  {
    if sps != [] {
      NoCoverage(sps[..|sps| - 1], d);
    }
  }

  lemma {:induction false} PairSpansOrdered(es: seq<Event>, windowEnd: int, i: nat)
    requires i <= |es|
    ensures Ordered(PairSpans(es, windowEnd, i))
  {
    if i > 0 {
      PairSpansOrdered(es, windowEnd, i - 1);
    }
  }

  lemma {:induction false} AllSpansOrdered(ts: seq<seq<Event>>, windowEnd: int)
    ensures Ordered(AllSpans(ts, windowEnd))
  {
    if ts != [] {
      AllSpansOrdered(ts[..|ts| - 1], windowEnd);
      PairSpansOrdered(ts[|ts| - 1], windowEnd, |ts[|ts| - 1]|);
    }
  }

  // ---------------------------------------------------------------------
  // The grid

  /** Inserts `x` into an increasing sequence unless it is already there. */
  function InsertDistinct(x: int, s: seq<int>): (r: seq<int>)
    requires Increasing(s)
    ensures Increasing(r)
    ensures forall y :: y in r <==> y == x || y in s
    ensures |r| <= |s| + 1
  {
    if s == [] then [x]
    else if x < s[0] then [x] + s
    else if x == s[0] then s
    else
      var rest := InsertDistinct(x, s[1..]);
      forall i | 0 <= i < |rest| ensures s[0] < rest[i] {
        assert rest[i] in rest;
        if rest[i] != x {
          var j :| 0 <= j < |s[1..]| && s[1..][j] == rest[i];
          assert s[j + 1] == rest[i];
        }
      }
      [s[0]] + rest
  }

  /** `sorted(set(xs))`: the distinct values of `xs` in increasing order. */
  function SortedDistinct(xs: seq<int>): (r: seq<int>)
    ensures Increasing(r)
    ensures forall y :: y in r <==> y in xs
  {
    if xs == [] then []
    else
      var rest := SortedDistinct(xs[..|xs| - 1]);
      assert forall y :: y in xs <==> y in xs[..|xs| - 1] || y == xs[|xs| - 1] by {
        assert xs == xs[..|xs| - 1] + [xs[|xs| - 1]];
      }
      InsertDistinct(xs[|xs| - 1], rest)
  }

  // ---------------------------------------------------------------------
  // The bugs of a chart

  /** The bugs of every status group, one query per group, concatenated. */
  function BugsOfGroups(getBugs: seq<string> -> seq<Doc>, names: seq<string>): (r: seq<Doc>)
    requires forall n :: n in names ==> n in Statuses.GroupNames
  {
    if names == [] then []
    else BugsOfGroups(getBugs, names[..|names| - 1]) + getBugs(Statuses.Group(names[|names| - 1]))
  }

  /** The records whose status is one of `statuses`, as the status
      condition of a bug query keeps them. */
  function WithStatus(records: seq<Doc>, statuses: seq<string>): (r: seq<Doc>)
    ensures forall b :: b in r <==> b in records && StatusIn(BugStatus(b), statuses)
  {
    if records == [] then []
    else
      var last := records[|records| - 1];
      assert records == records[..|records| - 1] + [last];
      WithStatus(records[..|records| - 1], statuses) + (if StatusIn(BugStatus(last), statuses) then [last] else [])
  }

  /** How many of the named groups hold `status`. */
  function GroupsHolding(names: seq<string>, status: Option<string>): (n: nat)
    requires forall n :: n in names ==> n in Statuses.GroupNames
    ensures n <= |names|
  {
    if names == [] then 0
    else GroupsHolding(names[..|names| - 1], status) + (if StatusIn(status, Statuses.Group(names[|names| - 1])) then 1 else 0)
  }

  /** A bug's status, as `get_bugs` compares it. */
  function BugStatus(b: Doc): Option<string> {
    StrOf(Get(b, "status"))
  }

  function Occurrences(bs: seq<Doc>, b: Doc): (n: nat)
    ensures n <= |bs|
  {
    if bs == [] then 0
    else Occurrences(bs[..|bs| - 1], b) + (if bs[|bs| - 1] == b then 1 else 0)
  }

  lemma {:induction false} OccurrencesConcat(a: seq<Doc>, c: seq<Doc>, b: Doc)
    ensures Occurrences(a + c, b) == Occurrences(a, b) + Occurrences(c, b)
  {
    if c != [] {
      assert (a + c)[..|a + c| - 1] == a + c[..|c| - 1];
      OccurrencesConcat(a, c[..|c| - 1], b);
    } else {
      assert a + c == a;
    }
  }

  lemma {:induction false} OccurrencesWithStatus(records: seq<Doc>, statuses: seq<string>, b: Doc)
    ensures Occurrences(WithStatus(records, statuses), b) ==
      if StatusIn(BugStatus(b), statuses) then Occurrences(records, b) else 0
  {
    if records != [] {
      var pre := records[..|records| - 1];
      var last := records[|records| - 1];
      OccurrencesWithStatus(pre, statuses, b);
      OccurrencesConcat(WithStatus(pre, statuses), if StatusIn(BugStatus(last), statuses) then [last] else [], b);
      if StatusIn(BugStatus(last), statuses) {
        assert Occurrences([last], b) == (if last == b then 1 else 0) by {
          assert [last][..0] == [];
        }
      }
    }
  }

  /** When every group is queried by status, a bug comes back once for every
      group that holds its status. */
  lemma {:induction false} GroupMultiplicity(records: seq<Doc>, names: seq<string>, b: Doc)
    requires forall n :: n in names ==> n in Statuses.GroupNames
    ensures Occurrences(BugsOfGroups(st => WithStatus(records, st), names), b) ==
      Occurrences(records, b) * GroupsHolding(names, BugStatus(b))
  {
    if names != [] {
      var pre := names[..|names| - 1];
      var q := (st: seq<string>) => WithStatus(records, st);
      assert forall n :: n in pre ==> n in names;
      GroupMultiplicity(records, pre, b);
      var g := Statuses.Group(names[|names| - 1]);
      assert BugsOfGroups(q, names) == BugsOfGroups(q, pre) + q(g);
      OccurrencesConcat(BugsOfGroups(q, pre), q(g), b);
      OccurrencesWithStatus(records, g, b);
      var o := Occurrences(records, b);
      var m := GroupsHolding(pre, BugStatus(b));
      var h := if StatusIn(BugStatus(b), g) then 1 else 0;
      assert GroupsHolding(names, BugStatus(b)) == m + h;
      assert Occurrences(q(g), b) == o * h;
      MulDistributes(o, m, h);
    }
  }

  lemma MulDistributes(o: int, m: int, h: int)
    ensures o * (m + h) == o * m + o * h
  {
  }

  /** An Incomplete bug is in three groups: Incomplete, Closed and All. */
  lemma IncompleteInThreeGroups()
    ensures GroupsHolding(Statuses.GroupNames, Some("Incomplete")) == 3
  {
    var ns := Statuses.GroupNames;
    var st := Some("Incomplete");
    assert GroupsHolding(ns[..1], st) == 0 by { assert ns[..1][..0] == []; }
    assert GroupsHolding(ns[..2], st) == 1 by { assert ns[..2][..1] == ns[..1]; }
    assert GroupsHolding(ns[..3], st) == 1 by { assert ns[..3][..2] == ns[..2]; }
    assert GroupsHolding(ns[..4], st) == 2 by { assert ns[..4][..3] == ns[..3]; }
    assert GroupsHolding(ns[..5], st) == 3 by { assert ns[..5][..4] == ns[..4]; }
    assert GroupsHolding(ns[..6], st) == 3 by { assert ns[..6][..5] == ns[..5]; }
    assert ns[..|ns| - 1] == ns[..6];
  }

  // ---------------------------------------------------------------------
  // Specifications of the two charts

  /** The timelines of all bugs, failing with the first failing one. */
  function AllTimelines(bugs: seq<Doc>): (r: Result<seq<seq<Event>>>)
    ensures r.Ok? ==> |r.value| == |bugs|
  {
    if bugs == [] then Ok([])
    else
      var pre :- AllTimelines(bugs[..|bugs| - 1]);
      var b := bugs[|bugs| - 1];
      var es :- Timeline.Timeline(BugStatus(b), DatesOf(b));
      Ok(pre + [es])
  }

  /** Series keys, from the bottom of the chart to the top. */
  const TrendKinds: seq<Kind> := [Verified, Resolved, InProgress, Open, Incomplete]

  datatype Series = Series(key: string, values: seq<(int, int)>)

  /** The points a trend series must have over the grid of `sps`. */
  predicate TrendSeries(sps: seq<Span>, grid: seq<int>, t: Kind, series: Series) {
    series == Series(KindName(t), LevelPoints(MarksOf(OfKind(sps, t)), grid))
  }

  /** The points of a series of marks over a grid: all grid days but the
      last, each in milliseconds with the level of the series on that day. */
  function LevelPoints(ms: seq<Mark>, grid: seq<int>): (values: seq<(int, int)>)
    ensures |values| == (if |grid| == 0 then 0 else |grid| - 1)
    ensures forall k :: 0 <= k < |values| ==> values[k] == (grid[k] * 1000, Level(ms, grid[k]))
  {
    var n := if |grid| == 0 then 0 else |grid| - 1;
    seq(n, k requires 0 <= k < n => (grid[k] * 1000, Level(ms, grid[k])))
  }

  /** Monday, midnight, of the week of `d` (the epoch fell on a Thursday). */
  function Monday(d: int): (r: int)
    ensures r <= d < r + 7 * DaySeconds
    ensures r % DaySeconds == 0 && (r / DaySeconds + 3) % 7 == 0
  {
    var day := d / DaySeconds;
    (day - (day + 3) % 7) * DaySeconds
  }

  /** The events of all timelines, bug after bug. */
  function Flatten(ts: seq<seq<Event>>): seq<Event> {
    if ts == [] then [] else Flatten(ts[..|ts| - 1]) + ts[|ts| - 1]
  }

  /** How many events of kind `t` fall in the week starting on `w`. */
  function WeekCount(es: seq<Event>, t: Kind, w: int): nat {
    if es == [] then 0
    else
      var last := es[|es| - 1];
      WeekCount(es[..|es| - 1], t, w) + (if last.kind == t && Monday(last.date) == w then 1 else 0)
  }

  /** The weeks of the Open and Resolved events, as the source adds them to
      its set of dates. */
  function Weeks(es: seq<Event>): seq<int> {
    if es == [] then []
    else
      var last := es[|es| - 1];
      Weeks(es[..|es| - 1]) + (if last.kind == Open || last.kind == Resolved then [Monday(last.date)] else [])
  }

  predicate WeeklySeries(es: seq<Event>, grid: seq<int>, key: string, t: Kind, series: Series) {
    series.key == key && |series.values| == |grid| &&
    forall k :: 0 <= k < |grid| ==> series.values[k] == (grid[k] * 1000, WeekCount(es, t, grid[k]))
  }

  /** Every week on the incoming/outgoing grid has an event. */
  lemma {:induction false} WeeksCounted(es: seq<Event>, w: int)
    requires w in Weeks(es)
    ensures WeekCount(es, Open, w) + WeekCount(es, Resolved, w) > 0
  {
    var pre := es[..|es| - 1];
    var last := es[|es| - 1];
    if w in Weeks(pre) {
      WeeksCounted(pre, w);
    }
  }

  /** No event of a kind in a week counts zero. */
  lemma {:induction false} WeekCountZero(es: seq<Event>, t: Kind, w: int)
    requires forall i :: 0 <= i < |es| ==> es[i].kind != t || Monday(es[i].date) != w
    ensures WeekCount(es, t, w) == 0
  {
    if es != [] {
      WeekCountZero(es[..|es| - 1], t, w);
    }
  }

  // ---------------------------------------------------------------------
  // The chart object

  class Chart {
    /** The bugs of the milestone, one entry per group that returned them,
        each held by its attribute dictionary. */
    var bugs: seq<Doc>

    /** Queries every status group of the project's milestone. */
    constructor (getBugs: seq<string> -> seq<Doc>)
      ensures bugs == BugsOfGroups(getBugs, Statuses.GroupNames)
    {
      var found: seq<Doc> := [];
      var i := 0;
      while i < |Statuses.GroupNames|
        invariant 0 <= i <= |Statuses.GroupNames|
        invariant found == BugsOfGroups(getBugs, Statuses.GroupNames[..i])
      {
        assert Statuses.GroupNames[..i + 1][..i] == Statuses.GroupNames[..i];
        found := found + getBugs(Statuses.Group(Statuses.GroupNames[i]));
        i := i + 1;
      }
      assert Statuses.GroupNames[..i] == Statuses.GroupNames;
      bugs := found;
    }

    /** `get_trends_data`: one series per kind, bottom to top, each giving
        for every grid day but the last how many bugs were in that state. */
    method GetTrendsData(now: int) returns (r: Result<seq<Series>>)
      ensures r.Ok? <==> AllTimelines(bugs).Ok?
      ensures r.Ok? ==>
        var sps := AllSpans(AllTimelines(bugs).value, now + DaySeconds);
        var grid := SortedDistinct(Endpoints(sps));
        |r.value| == |TrendKinds| &&
        forall i :: 0 <= i < |TrendKinds| ==> TrendSeries(sps, grid, TrendKinds[i], r.value[i])
    {
      var windowEnd := now + DaySeconds;
      var data: map<Kind, seq<Mark>> :=
        map[Verified := [], Resolved := [], InProgress := [], Open := [], Incomplete := []];
      var allDates: seq<int> := [];
      ghost var ts: seq<seq<Event>> := [];
      CollectedEmpty(data, windowEnd);
      var j := 0;
      while j < |bugs|
        invariant 0 <= j <= |bugs|
        invariant AllTimelines(bugs[..j]) == Ok(ts)
        invariant Collected(data, allDates, AllSpans(ts, windowEnd))
      {
        var err;
        err, data, allDates, ts := TrendStep(bugs, j, windowEnd, data, allDates, ts);
        if err.Some? {
          return Err(err.value);
        }
        j := j + 1;
      }
      assert bugs[..j] == bugs;
      var grid := SortedDistinct(allDates);
      var chart := TrendChart(grid, data, AllSpans(ts, windowEnd));
      return Ok(chart);
    }

    /** `get_incoming_outgoing_data`: per week, how many events opened a bug
        (Incoming) and how many resolved one (Outgoing). */
    method GetIncomingOutgoingData() returns (r: Result<seq<Series>>)
      ensures r.Ok? <==> AllTimelines(bugs).Ok?
      ensures r.Ok? ==>
        var es := Flatten(AllTimelines(bugs).value);
        var grid := SortedDistinct(Weeks(es));
        |r.value| == 2 &&
        WeeklySeries(es, grid, "Incoming", Open, r.value[0]) &&
        WeeklySeries(es, grid, "Outgoing", Resolved, r.value[1])
    {
      var incoming: map<int, nat> := map[];
      var outgoing: map<int, nat> := map[];
      var allDates: seq<int> := [];
      ghost var ts: seq<seq<Event>> := [];
      var j := 0;
      while j < |bugs|
        invariant 0 <= j <= |bugs|
        invariant AllTimelines(bugs[..j]) == Ok(ts)
        invariant Tallied(incoming, outgoing, allDates, Flatten(ts))
      {
        var err;
        err, incoming, outgoing, allDates, ts := WeeklyStep(bugs, j, incoming, outgoing, allDates, ts);
        if err.Some? {
          return Err(err.value);
        }
        j := j + 1;
      }
      assert bugs[..j] == bugs;
      var grid := SortedDistinct(allDates);
      var inValues := WeeklyValues(grid, incoming, Flatten(ts), Open);
      var outValues := WeeklyValues(grid, outgoing, Flatten(ts), Resolved);
      return Ok([Series("Incoming", inValues), Series("Outgoing", outValues)]);
    }
  }

  /** No bug yet: empty series and no dates. */
  lemma CollectedEmpty(data: map<Kind, seq<Mark>>, windowEnd: int)
    requires data == map[Verified := [], Resolved := [], InProgress := [], Open := [], Incomplete := []]
    ensures Collected(data, [], AllSpans([], windowEnd))
  {
    forall t ensures t in data && data[t] == MarksOf(OfKind(AllSpans([], windowEnd), t)) {
      match t
      case Open =>
      case InProgress =>
      case Resolved =>
      case Verified =>
      case Incomplete =>
    }
  }

  /** One pass of the trend chart's outer loop: the timeline of bug `j`
      and its spans, or the error that stops the chart. */
  method TrendStep(bugs: seq<Doc>, j: nat, windowEnd: int, data0: map<Kind, seq<Mark>>, dates0: seq<int>,
                   ghost ts0: seq<seq<Event>>)
    returns (err: Option<Error>, data: map<Kind, seq<Mark>>, allDates: seq<int>, ghost ts: seq<seq<Event>>)
    requires j < |bugs| && AllTimelines(bugs[..j]) == Ok(ts0)
    requires Collected(data0, dates0, AllSpans(ts0, windowEnd))
    ensures err.Some? ==> AllTimelines(bugs).Err?
    ensures err.None? ==> AllTimelines(bugs[..j + 1]) == Ok(ts) && Collected(data, allDates, AllSpans(ts, windowEnd))
  {
    var b := bugs[j];
    assert bugs[..j + 1][..j] == bugs[..j] && bugs[..j + 1][j] == b;
    var events := Timeline.StatusChanges(BugStatus(b), DatesOf(b));
    if events.Err? {
      TimelinesFailFrom(bugs, j + 1);
      return Some(events.error), data0, dates0, ts0;
    }
    data, allDates := AddSpans(events.value, windowEnd, data0, dates0, AllSpans(ts0, windowEnd));
    AllSpansAppend(ts0, events.value, windowEnd);
    ts := ts0 + [events.value];
    err := None;
  }

  /** The weekly counts and the weeks gathered so far are those of the
      events `es`. */
  ghost predicate Tallied(incoming: map<int, nat>, outgoing: map<int, nat>, allDates: seq<int>, es: seq<Event>) {
    (forall w :: CountOf(incoming, w) == WeekCount(es, Open, w)) &&
    (forall w :: CountOf(outgoing, w) == WeekCount(es, Resolved, w)) &&
    allDates == Weeks(es)
  }

  /** One pass of the weekly chart's outer loop. */
  method WeeklyStep(bugs: seq<Doc>, j: nat, in0: map<int, nat>, out0: map<int, nat>, dates0: seq<int>,
                    ghost ts0: seq<seq<Event>>)
    returns (err: Option<Error>, incoming: map<int, nat>, outgoing: map<int, nat>, allDates: seq<int>,
             ghost ts: seq<seq<Event>>)
    requires j < |bugs| && AllTimelines(bugs[..j]) == Ok(ts0)
    requires Tallied(in0, out0, dates0, Flatten(ts0))
    ensures err.Some? ==> AllTimelines(bugs).Err?
    ensures err.None? ==> AllTimelines(bugs[..j + 1]) == Ok(ts) && Tallied(incoming, outgoing, allDates, Flatten(ts))
  {
    var b := bugs[j];
    assert bugs[..j + 1][..j] == bugs[..j] && bugs[..j + 1][j] == b;
    var events := Timeline.StatusChanges(BugStatus(b), DatesOf(b));
    if events.Err? {
      TimelinesFailFrom(bugs, j + 1);
      return Some(events.error), in0, out0, dates0, ts0;
    }
    incoming, outgoing, allDates := AddWeeks(events.value, in0, out0, dates0, Flatten(ts0));
    ts := ts0 + [events.value];
    assert ts[..|ts0|] == ts0;
    assert Flatten(ts) == Flatten(ts0) + events.value;
    err := None;
  }

  /** The inner loop of the trend chart over one bug's timeline (with the
      window end as the date after its last event): a `+1`/`-1` pair and two
      dates for every pair of consecutive events that are in order. */
  method AddSpans(es: seq<Event>, windowEnd: int, data0: map<Kind, seq<Mark>>, dates0: seq<int>, ghost base: seq<Span>)
    returns (data: map<Kind, seq<Mark>>, allDates: seq<int>)
    requires Collected(data0, dates0, base)
    ensures Collected(data, allDates, base + PairSpans(es, windowEnd, |es|))
  {
    data, allDates := data0, dates0;
    var i := 0;
    assert base + PairSpans(es, windowEnd, 0) == base;
    while i < |es|
      invariant 0 <= i <= |es|
      invariant Collected(data, allDates, base + PairSpans(es, windowEnd, i))
    {
      data, allDates := AddSpanAt(es, windowEnd, i, data, allDates, base + PairSpans(es, windowEnd, i));
      AppendAssoc(base, PairSpans(es, windowEnd, i), SpanAt(es, windowEnd, i));
      i := i + 1;
    }
  }

  /** The body of the inner loop of the trend chart: the span of event `i`,
      when it has one. */
  method AddSpanAt(es: seq<Event>, windowEnd: int, i: nat, data0: map<Kind, seq<Mark>>, dates0: seq<int>,
                   ghost before: seq<Span>)
    returns (data: map<Kind, seq<Mark>>, allDates: seq<int>)
    requires i < |es| && Collected(data0, dates0, before)
    ensures Collected(data, allDates, before + SpanAt(es, windowEnd, i))
  {
    var d1 := es[i].date;
    var d2 := if i + 1 < |es| then es[i + 1].date else windowEnd;
    if d1 <= d2 {
      var t := es[i].kind;
      ghost var sp := Span(t, DayStart(d1), DayStart(d2));
      assert SpanAt(es, windowEnd, i) == [sp];
      CollectedStep(data0, dates0, before, sp);
      data := data0[t := data0[t] + [Mark(DayStart(d1), 1), Mark(DayStart(d2), -1)]];
      allDates := dates0 + [DayStart(d1), DayStart(d2)];
    } else {
      assert SpanAt(es, windowEnd, i) == [];
      assert before + [] == before;
      data, allDates := data0, dates0;
    }
  }

  /** The series and the dates gathered so far are those of the spans
      `sps`. */
  predicate Collected(data: map<Kind, seq<Mark>>, allDates: seq<int>, sps: seq<Span>) {
    (forall t :: t in data && data[t] == MarksOf(OfKind(sps, t))) &&
    allDates == Endpoints(sps)
  }

  lemma CollectedStep(data: map<Kind, seq<Mark>>, allDates: seq<int>, sps: seq<Span>, sp: Span)
    requires Collected(data, allDates, sps)
    ensures Collected(data[sp.kind := data[sp.kind] + [Mark(sp.start, 1), Mark(sp.end, -1)]],
      allDates + [sp.start, sp.end], sps + [sp])
  {
    AppendSpan(sps, sp);
  }

  /** The series of the trend chart, in `TrendKinds` order. */
  method TrendChart(grid: seq<int>, data: map<Kind, seq<Mark>>, ghost sps: seq<Span>) returns (chart: seq<Series>)
    requires grid == SortedDistinct(Endpoints(sps))
    requires forall t :: t in data && data[t] == MarksOf(OfKind(sps, t))
    ensures |chart| == |TrendKinds|
    ensures forall i :: 0 <= i < |TrendKinds| ==> TrendSeries(sps, grid, TrendKinds[i], chart[i])
  {
    chart := [];
    var k := 0;
    while k < |TrendKinds|
      invariant 0 <= k <= |TrendKinds| && |chart| == k
      invariant forall i :: 0 <= i < k ==> TrendSeries(sps, grid, TrendKinds[i], chart[i])
    {
      var series := TrendSeriesOf(grid, data[TrendKinds[k]], sps, TrendKinds[k]);
      chart := chart + [series];
      k := k + 1;
    }
  }

  /** The series of one kind. */
  method TrendSeriesOf(grid: seq<int>, ms: seq<Mark>, ghost sps: seq<Span>, t: Kind) returns (series: Series)
    requires grid == SortedDistinct(Endpoints(sps))
    requires ms == MarksOf(OfKind(sps, t))
    ensures TrendSeries(sps, grid, t, series)
  {
    MarksOnGrid(sps, t, grid);
    var points := SeriesPoints(grid, ms);
    series := Series(KindName(t), points.value);
  }

  /** The inner loop of the weekly chart over one bug's timeline. */
  method AddWeeks(es: seq<Event>, in0: map<int, nat>, out0: map<int, nat>, dates0: seq<int>, ghost base: seq<Event>)
    returns (incoming: map<int, nat>, outgoing: map<int, nat>, allDates: seq<int>)
    requires Tallied(in0, out0, dates0, base)
    ensures Tallied(incoming, outgoing, allDates, base + es)
  {
    incoming, outgoing, allDates := in0, out0, dates0;
    var i := 0;
    assert base + es[..0] == base;
    while i < |es|
      invariant 0 <= i <= |es|
      invariant Tallied(incoming, outgoing, allDates, base + es[..i])
    {
      incoming, outgoing, allDates := AddWeek(es[i], incoming, outgoing, allDates, base + es[..i]);
      assert es[..i + 1] == es[..i] + [es[i]];
      AppendAssoc(base, es[..i], [es[i]]);
      i := i + 1;
    }
    assert es[..i] == es;
  }

  /** The body of the inner loop of the weekly chart: one event counted in
      its week when it is Open or Resolved. */
  method AddWeek(e: Event, in0: map<int, nat>, out0: map<int, nat>, dates0: seq<int>, ghost before: seq<Event>)
    returns (incoming: map<int, nat>, outgoing: map<int, nat>, allDates: seq<int>)
    requires Tallied(in0, out0, dates0, before)
    ensures Tallied(incoming, outgoing, allDates, before + [e])
  {
    incoming, outgoing, allDates := in0, out0, dates0;
    var date := Monday(e.date);
    WeekStep(before, e);
    if e.kind == Open {
      incoming := incoming[date := CountOf(incoming, date) + 1];
      allDates := allDates + [date];
    } else if e.kind == Resolved {
      outgoing := outgoing[date := CountOf(outgoing, date) + 1];
      allDates := allDates + [date];
    }
  }

  /** The points of one weekly series: every grid week with its count. */
  method WeeklyValues(grid: seq<int>, counts: map<int, nat>, ghost es: seq<Event>, ghost t: Kind)
    returns (values: seq<(int, int)>)
    requires forall w :: CountOf(counts, w) == WeekCount(es, t, w)
    ensures |values| == |grid|
    ensures forall i :: 0 <= i < |grid| ==> values[i] == (grid[i] * 1000, WeekCount(es, t, grid[i]))
  {
    values := [];
    var k := 0;
    while k < |grid|
      invariant 0 <= k <= |grid| && |values| == k
      invariant forall i :: 0 <= i < k ==> values[i] == (grid[i] * 1000, WeekCount(es, t, grid[i]))
    {
      values := values + [(grid[k] * 1000, CountOf(counts, grid[k]))];
      k := k + 1;
    }
  }

  /** One more event adds one to the count of its kind in its week, and its
      week to the dates when it is Open or Resolved. */
  lemma WeekStep(es: seq<Event>, e: Event)
    ensures forall t, w :: (WeekCount(es + [e], t, w) ==
      WeekCount(es, t, w) + (if e.kind == t && Monday(e.date) == w then 1 else 0))
    ensures Weeks(es + [e]) == Weeks(es) + (if e.kind == Open || e.kind == Resolved then [Monday(e.date)] else [])
  {
    assert (es + [e])[..|es|] == es;
  }

  /** `counts[w]` of a `defaultdict(int)`. */
  function CountOf(counts: map<int, nat>, w: int): nat {
    if w in counts then counts[w] else 0
  }

  /** A failing bug makes the whole list of timelines fail. */
  lemma {:induction false} TimelinesFailFrom(bugs: seq<Doc>, j: nat)
    requires j <= |bugs| && AllTimelines(bugs[..j]).Err?
    ensures AllTimelines(bugs).Err?
  {
    if j < |bugs| {
      var pre := bugs[..|bugs| - 1];
      assert pre[..j] == bugs[..j];
      TimelinesFailFrom(pre, j);
    } else {
      assert bugs[..j] == bugs;
    }
  }

  lemma AllSpansAppend(ts: seq<seq<Event>>, es: seq<Event>, windowEnd: int)
    ensures AllSpans(ts + [es], windowEnd) == AllSpans(ts, windowEnd) + PairSpans(es, windowEnd, |es|)
  {
    assert (ts + [es])[..|ts|] == ts;
  }

  /** Every mark of a series is dated on the grid. */
  lemma MarksOnGrid(sps: seq<Span>, t: Kind, grid: seq<int>)
    requires grid == SortedDistinct(Endpoints(sps))
    ensures DatesIn(MarksOf(OfKind(sps, t)), grid)
  {
    var ms := MarksOf(OfKind(sps, t));
    MarksOnEndpoints(sps, t);
    forall i | 0 <= i < |ms| ensures ms[i].date in grid {
      assert ms[i] in ms;
    }
  }

  lemma OfKindAppend(sps: seq<Span>, sp: Span, t: Kind)
    ensures OfKind(sps + [sp], t) == OfKind(sps, t) + (if sp.kind == t then [sp] else [])
  {
    assert (sps + [sp])[..|sps|] == sps;
  }

  lemma MarksOfAppend(sps: seq<Span>, sp: Span)
    ensures MarksOf(sps + [sp]) == MarksOf(sps) + [Mark(sp.start, 1), Mark(sp.end, -1)]
  {
    assert (sps + [sp])[..|sps|] == sps;
  }

  /** Adding one span adds its two marks to its kind's series and its two
      endpoints to the dates. */
  lemma AppendSpan(sps: seq<Span>, sp: Span)
    ensures forall t :: (MarksOf(OfKind(sps + [sp], t)) ==
      MarksOf(OfKind(sps, t)) + (if sp.kind == t then [Mark(sp.start, 1), Mark(sp.end, -1)] else []))
    ensures Endpoints(sps + [sp]) == Endpoints(sps) + [sp.start, sp.end]
  {
    assert (sps + [sp])[..|sps|] == sps;
    forall t ensures MarksOf(OfKind(sps + [sp], t)) ==
      MarksOf(OfKind(sps, t)) + (if sp.kind == t then [Mark(sp.start, 1), Mark(sp.end, -1)] else [])
    {
      OfKindAppend(sps, sp, t);
      if sp.kind == t {
        MarksOfAppend(OfKind(sps, t), sp);
      } else {
        assert OfKind(sps, t) + [] == OfKind(sps, t);
      }
    }
  }

  // ---------------------------------------------------------------------
  // What the trend chart shows

  lemma {:induction false} OfKindSubset(sps: seq<Span>, t: Kind)
    ensures forall sp :: sp in OfKind(sps, t) ==> sp in sps && sp.kind == t
  {
    if sps != [] {
      OfKindSubset(sps[..|sps| - 1], t);
    }
  }

  lemma {:induction false} EndsAreEndpoints(sps: seq<Span>)
    ensures forall sp :: sp in sps ==> sp.end in Endpoints(sps)
  {
    if sps != [] {
      var pre := sps[..|sps| - 1];
      EndsAreEndpoints(pre);
      assert sps == pre + [sps[|sps| - 1]];
    }
  }

  /** Every point of a trend series is a number of bugs, never negative,
      and the marks of every series cancel out. */
  lemma TrendCounts(ts: seq<seq<Event>>, windowEnd: int, t: Kind, d: int)
    ensures Level(MarksOf(OfKind(AllSpans(ts, windowEnd), t)), d) >= 0
    ensures Total(MarksOf(OfKind(AllSpans(ts, windowEnd), t))) == 0
  {
    var sps := OfKind(AllSpans(ts, windowEnd), t);
    AllSpansOrdered(ts, windowEnd);
    OfKindOrdered(AllSpans(ts, windowEnd), t);
    LevelIsCoverage(sps, d);
    MarksCount(sps, d);
  }

  /** On the last grid day every series is back to zero, which is why the
      chart stops one day short of it. */
  lemma LastGridDayEmpty(ts: seq<seq<Event>>, windowEnd: int, t: Kind)
    requires SortedDistinct(Endpoints(AllSpans(ts, windowEnd))) != []
    ensures var grid := SortedDistinct(Endpoints(AllSpans(ts, windowEnd)));
      Level(MarksOf(OfKind(AllSpans(ts, windowEnd), t)), grid[|grid| - 1]) == 0
  {
    var all := AllSpans(ts, windowEnd);
    var grid := SortedDistinct(Endpoints(all));
    var last := grid[|grid| - 1];
    var sps := OfKind(all, t);
    OfKindSubset(all, t);
    EndsAreEndpoints(all);
    forall k | 0 <= k < |sps| ensures sps[k].end <= last {
      assert sps[k] in sps;
      var j :| 0 <= j < |grid| && grid[j] == sps[k].end;
    }
    AllSpansOrdered(ts, windowEnd);
    OfKindOrdered(all, t);
    LevelPastEnd(sps, last);
  }
}
