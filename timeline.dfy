/** The status timeline of a bug (`get_status_changes`): five dated
    lifecycle events, undated ones dropped, out-of-line ones dropped, cut at
    the first event that matches the bug's current status. Both bug wrappers
    run this same algorithm. */
module Timeline {
  import opened Wrappers
  import Statuses
  import opened Documents

  /** The lifecycle events, in the order the source builds them. */
  datatype Kind = Open | InProgress | Resolved | Verified | Incomplete

  /** The event's `type` string. */
  function KindName(k: Kind): string {
    match k
    case Open => "Open"
    case InProgress => "In Progress"
    case Resolved => "Resolved"
    case Verified => "Verified"
    case Incomplete => "Incomplete"
  }

  /** Position of a kind in construction order. */
  function Rank(k: Kind): nat {
    match k
    case Open => 0
    case InProgress => 1
    case Resolved => 2
    case Verified => 3
    case Incomplete => 4
  }

  /** A dated event: `{"date", "type", "matches"}`. */
  datatype Event = Event(date: int, kind: Kind, matches: seq<string>)

  /** An event before undated ones are dropped. */
  datatype Candidate = Candidate(date: Option<int>, kind: Kind, matches: seq<string>)

  /** The bug's lifecycle timestamps that the timeline reads. */
  datatype LifecycleDates = LifecycleDates(
    triaged: Option<int>, confirmed: Option<int>, leftNew: Option<int>, assignedAt: Option<int>,
    inProgress: Option<int>, fixCommitted: Option<int>, closed: Option<int>,
    fixReleased: Option<int>, incomplete: Option<int>)

  /** The lifecycle dates a bug's attributes carry; a value that is not a
      parsed date counts as absent. */
  function DatesOf(attrs: Doc): LifecycleDates {
    LifecycleDates(
      DateOf(Get(attrs, "date_triaged")), DateOf(Get(attrs, "date_confirmed")),
      DateOf(Get(attrs, "date_left_new")), DateOf(Get(attrs, "date_assigned")),
      DateOf(Get(attrs, "date_in_progress")), DateOf(Get(attrs, "date_fix_committed")),
      DateOf(Get(attrs, "date_closed")), DateOf(Get(attrs, "date_fix_released")),
      DateOf(Get(attrs, "date_incomplete")))
  }

  /** `status in group` where a status that is not a string is never a member. */
  predicate StatusIn(status: Option<string>, group: seq<string>) {
    status.Some? && status.value in group
  }

  /** `min(d for d in ds if d is not None)`; `None` when every entry is `None`
      (where the source raises). */
  function MinPresent(ds: seq<Option<int>>): (r: Option<int>)
    ensures r.None? <==> forall i :: 0 <= i < |ds| ==> ds[i].None?
    ensures r.Some? ==> Some(r.value) in ds
    ensures r.Some? ==> forall i :: 0 <= i < |ds| && ds[i].Some? ==> r.value <= ds[i].value
  {
    if ds == [] then None
    else
      var rest := MinPresent(ds[1..]);
      assert forall i :: 1 <= i < |ds| ==> ds[i] == ds[1..][i - 1];
      if ds[0].None? then rest
      else if rest.None? || ds[0].value <= rest.value then ds[0]
      else rest
  }

  /** `next((d for d in ds if d is not None), None)`. */
  function FirstPresent(ds: seq<Option<int>>): (r: Option<int>)
    ensures r.None? <==> forall i :: 0 <= i < |ds| ==> ds[i].None?
    ensures r.Some? ==> exists k :: 0 <= k < |ds| && ds[k] == r && forall i :: 0 <= i < k ==> ds[i].None?
  {
    if ds == [] then None
    else if ds[0].Some? then ds[0]
    else
      var rest := FirstPresent(ds[1..]);
      assert forall i :: 1 <= i < |ds| ==> ds[i] == ds[1..][i - 1];
      if rest.Some? then
        var k :| 0 <= k < |ds[1..]| && ds[1..][k] == rest && forall i :: 0 <= i < k ==> ds[1..][i].None?;
        assert ds[k + 1] == rest && forall i :: 0 <= i < k + 1 ==> ds[i].None?;
        rest
      else rest
  }

  /** The statuses each event stands for. */
  const OpenMatches: seq<string> := ["Triaged", "Confirmed"]
  const InProgressMatches: seq<string> := ["In Progress"]
  const ResolvedMatches: seq<string> := ["Fix Committed", "Won't Fix", "Invalid", "Expired", "Opinion", "Incomplete"]
  const VerifiedMatches: seq<string> := ["Fix Released"]

  lemma MatchesFromGroups()
    ensures forall s :: s in OpenMatches <==> s in Statuses.Open && s != "In Progress"
    ensures forall s :: s in ResolvedMatches <==> s in Statuses.Closed && s != "Fix Released"
    ensures Statuses.Incomplete == ["Incomplete"]
  {
  }

  /** The four dates whose minimum is the Open date. */
  function OpenDates(d: LifecycleDates): seq<Option<int>> {
    [d.triaged, d.confirmed, d.leftNew, d.assignedAt]
  }

  /** The Resolved date: fix committed if set, else closed. */
  function ResolvedDate(d: LifecycleDates): (r: Option<int>)
    ensures d.fixCommitted.Some? ==> r == d.fixCommitted
    ensures d.fixCommitted.None? ==> r == d.closed
  {
    var ds := [d.fixCommitted, d.closed];
    assert ds[1..] == [d.closed] && [d.closed][1..] == [];
    assert FirstPresent([d.closed]) == d.closed;
    assert FirstPresent(ds) == if d.fixCommitted.Some? then d.fixCommitted else FirstPresent([d.closed]);
    FirstPresent(ds)
  }

  /** The five events in construction order, before undated ones are dropped. */
  function Candidates(d: LifecycleDates, openDate: int): (cs: seq<Candidate>)
    ensures |cs| == 5
    ensures forall i :: 0 <= i < 5 ==> Rank(cs[i].kind) == i
  {
    [ Candidate(Some(openDate), Open, OpenMatches),
      Candidate(d.inProgress, InProgress, InProgressMatches),
      Candidate(ResolvedDate(d), Resolved, ResolvedMatches),
      Candidate(d.fixReleased, Verified, VerifiedMatches),
      Candidate(d.incomplete, Incomplete, Statuses.Incomplete) ]
  }

  /** `[e for e in result if e["date"] is not None]`. */
  function Dated(cs: seq<Candidate>): (es: seq<Event>)
    ensures |es| <= |cs|
    ensures forall e :: e in es ==> Candidate(Some(e.date), e.kind, e.matches) in cs
  {
    if cs == [] then []
    else
      var rest := Dated(cs[1..]);
      if cs[0].date.Some? then [Event(cs[0].date.value, cs[0].kind, cs[0].matches)] + rest
      else rest
  }

  /** Strictly increasing kinds: events keep construction order. */
  predicate RankIncreasing(es: seq<Event>) {
    forall i, j :: 0 <= i < j < |es| ==> Rank(es[i].kind) < Rank(es[j].kind)
  }

  /** Non-decreasing dates. */
  predicate DateSorted(es: seq<Event>) {
    forall i, j :: 0 <= i < j < |es| ==> es[i].date <= es[j].date
  }

  predicate CandidatesRankIncreasing(cs: seq<Candidate>) {
    forall i, j :: 0 <= i < j < |cs| ==> Rank(cs[i].kind) < Rank(cs[j].kind)
  }

  /** A lower bound on the kinds of the candidates bounds the kinds of the dated events. */
  lemma {:induction false} DatedRanksAbove(cs: seq<Candidate>, lo: int)
    requires forall i :: 0 <= i < |cs| ==> lo < Rank(cs[i].kind)
    ensures forall i :: 0 <= i < |Dated(cs)| ==> lo < Rank(Dated(cs)[i].kind)
  {
    if cs != [] {
      DatedRanksAbove(cs[1..], lo);
    }
  }

  lemma {:induction false} DatedKeepsOrder(cs: seq<Candidate>)
    requires CandidatesRankIncreasing(cs)
    ensures RankIncreasing(Dated(cs))
  {
    if cs != [] {
      var tail := cs[1..];
      assert CandidatesRankIncreasing(tail) by {
        forall i, j | 0 <= i < j < |tail| ensures Rank(tail[i].kind) < Rank(tail[j].kind) {
          assert tail[i] == cs[i + 1] && tail[j] == cs[j + 1];
        }
      }
      DatedKeepsOrder(tail);
      assert forall i :: 0 <= i < |tail| ==> Rank(cs[0].kind) < Rank(tail[i].kind) by {
        forall i | 0 <= i < |tail| ensures Rank(cs[0].kind) < Rank(tail[i].kind) {
          assert tail[i] == cs[i + 1];
        }
      }
      DatedRanksAbove(tail, Rank(cs[0].kind));
      if cs[0].date.Some? {
        var head := Event(cs[0].date.value, cs[0].kind, cs[0].matches);
        assert Dated(cs) == [head] + Dated(tail);
        ConsRankIncreasing(head, Dated(tail));
      } else {
        assert Dated(cs) == Dated(tail);
      }
    }
  }

  lemma ConsRankIncreasing(head: Event, rest: seq<Event>)
    requires RankIncreasing(rest)
    requires forall i :: 0 <= i < |rest| ==> Rank(head.kind) < Rank(rest[i].kind)
    ensures RankIncreasing([head] + rest)
  {
    var es := [head] + rest;
    forall i, j | 0 <= i < j < |es| ensures Rank(es[i].kind) < Rank(es[j].kind) {
      assert es[j] == rest[j - 1];
      if i > 0 {
        assert es[i] == rest[i - 1];
      }
    }
  }

  /** An entry is obsolete when some later entry has a strictly earlier date. */
  predicate Obsolete(es: seq<Event>, i: nat)
    requires i < |es|
  {
    exists j | i < j < |es| :: es[j].date < es[i].date
  }

  /** The obsolete marks of all entries. */
  function ObsoleteMarks(es: seq<Event>): (m: seq<bool>)
    ensures |m| == |es|
    ensures forall i :: 0 <= i < |es| ==> m[i] == Obsolete(es, i)
  {
    seq(|es|, i requires 0 <= i < |es| => Obsolete(es, i))
  }

  /** `[e for e in result if not "obsolete" in e]`. */
  function Unmarked(es: seq<Event>, marks: seq<bool>): (r: seq<Event>)
    requires |marks| == |es|
    ensures |r| <= |es|
    ensures forall e :: e in r ==> e in es
  {
    if es == [] then [] else (if marks[0] then [] else [es[0]]) + Unmarked(es[1..], marks[1..])
  }

  /** The entries left after obsolete removal. */
  function Survivors(es: seq<Event>): seq<Event> {
    Unmarked(es, ObsoleteMarks(es))
  }

  lemma SurvivorsStep(es: seq<Event>)
    requires es != []
    ensures Survivors(es) == (if Obsolete(es, 0) then [] else [es[0]]) + Survivors(es[1..])
  {
    var m := ObsoleteMarks(es);
    forall i | 0 <= i < |es| - 1 ensures m[1..][i] == ObsoleteMarks(es[1..])[i] {
      if Obsolete(es, i + 1) {
        var j :| i + 1 < j < |es| && es[j].date < es[i + 1].date;
        assert es[1..][j - 1] == es[j];
      }
      if Obsolete(es[1..], i) {
        var j :| i < j < |es[1..]| && es[1..][j].date < es[1..][i].date;
        assert es[j + 1] == es[1..][j];
      }
    }
    assert m[1..] == ObsoleteMarks(es[1..]);
  }

  /** After obsolete removal the dates are non-decreasing and the kinds keep
      their construction order. */
  lemma {:induction false} SurvivorsSorted(es: seq<Event>)
    requires RankIncreasing(es)
    ensures DateSorted(Survivors(es)) && RankIncreasing(Survivors(es))
  {
    if es != [] {
      SurvivorsStep(es);
      var tail := es[1..];
      TailRankIncreasing(es);
      SurvivorsSorted(tail);
      var rest := Survivors(tail);
      if !Obsolete(es, 0) {
        forall i | 0 <= i < |rest| ensures es[0].date <= rest[i].date && Rank(es[0].kind) < Rank(rest[i].kind) {
          assert rest[i] in rest;
          assert rest[i] in tail;
          var k :| 0 <= k < |tail| && tail[k] == rest[i];
          assert es[k + 1] == rest[i];
        }
        ConsSorted(es[0], rest);
      }
    }
  }

  lemma TailRankIncreasing(es: seq<Event>)
    requires es != [] && RankIncreasing(es)
    ensures RankIncreasing(es[1..])
  {
    var tail := es[1..];
    forall i, j | 0 <= i < j < |tail| ensures Rank(tail[i].kind) < Rank(tail[j].kind) {
      assert tail[i] == es[i + 1] && tail[j] == es[j + 1];
    }
  }

  /** An event dated no later and ranked below every event of a sorted
      list can go in front of it. */
  lemma ConsSorted(head: Event, rest: seq<Event>)
    requires DateSorted(rest) && RankIncreasing(rest)
    requires forall i :: 0 <= i < |rest| ==> head.date <= rest[i].date && Rank(head.kind) < Rank(rest[i].kind)
    ensures DateSorted([head] + rest) && RankIncreasing([head] + rest)
  {
    var s := [head] + rest;
    forall i, j | 0 <= i < j < |s|
      ensures s[i].date <= s[j].date && Rank(s[i].kind) < Rank(s[j].kind)
    {
      assert s[j] == rest[j - 1];
      if i > 0 {
        assert s[i] == rest[i - 1];
      }
    }
  }

  /** Index of the first event whose `matches` contains the status. */
  function FirstMatch(es: seq<Event>, status: Option<string>): (r: Option<nat>)
    ensures r.Some? ==> r.value < |es| && StatusIn(status, es[r.value].matches)
    ensures r.Some? ==> forall i :: 0 <= i < r.value ==> !StatusIn(status, es[i].matches)
    ensures r.None? <==> forall i :: 0 <= i < |es| ==> !StatusIn(status, es[i].matches)
  {
    if es == [] then None
    else if StatusIn(status, es[0].matches) then Some(0)
    else
      match FirstMatch(es[1..], status)
      case None =>
        assert forall i :: 1 <= i < |es| ==> es[i] == es[1..][i - 1];
        None
      case Some(k) =>
        assert forall i :: 1 <= i < |es| ==> es[i] == es[1..][i - 1];
        Some(k + 1)
  }

  /** `result[:idx + 1]` for the first match, `[]` when none matches. */
  function Cut(es: seq<Event>, status: Option<string>): seq<Event> {
    match FirstMatch(es, status)
    case None => []
    case Some(k) => es[..k + 1]
  }

  /** Cutting keeps sortedness and order, and ends at the first match. */
  lemma CutShape(s: seq<Event>, status: Option<string>)
    requires DateSorted(s) && RankIncreasing(s)
    ensures var es := Cut(s, status);
      DateSorted(es) && RankIncreasing(es) && es <= s &&
      (es != [] ==> StatusIn(status, es[|es| - 1].matches)) &&
      (forall i :: 0 <= i < |es| - 1 ==> !StatusIn(status, es[i].matches))
  {
  }

  /** The whole of `get_status_changes`. */
  function Timeline(status: Option<string>, d: LifecycleDates): Result<seq<Event>> {
    if StatusIn(status, Statuses.New) then Ok([])
    else
      match MinPresent(OpenDates(d))
      case None => Err(ValueError("min() arg is an empty sequence"))
      case Some(openDate) => Ok(Cut(Survivors(Dated(Candidates(d, openDate))), status))
  }

  /** The nested loop that marks every entry for which some later entry has
      a strictly earlier date. */
  method MarkObsolete(es: seq<Event>) returns (obsolete: array<bool>)
    ensures fresh(obsolete)
    ensures obsolete[..] == ObsoleteMarks(es)
  {
    var n := |es|;
    obsolete := new bool[n](_ => false);
    var i := 0;
    while i < n
      invariant 0 <= i <= n && obsolete.Length == n
      invariant forall k :: 0 <= k < i ==> obsolete[k] == Obsolete(es, k)
      invariant forall k :: i <= k < n ==> !obsolete[k]
    {
      var j := i + 1;
      while j < n
        invariant i + 1 <= j <= n
        invariant forall k :: 0 <= k < i ==> obsolete[k] == Obsolete(es, k)
        invariant forall k :: i < k < n ==> !obsolete[k]
        invariant obsolete[i] <==> exists jj :: i < jj < j && es[jj].date < es[i].date
      {
        if es[i].date > es[j].date {
          obsolete[i] := true;
        }
        j := j + 1;
      }
      i := i + 1;
    }
  }

  /** The scan for the first event whose `matches` contains the status;
      `-1` when there is none. */
  method FindFirstMatch(es: seq<Event>, status: Option<string>) returns (idx: int)
    ensures idx == match FirstMatch(es, status) case None => -1 case Some(k) => k
  {
    idx := -1;
    var i := 0;
    while i < |es|
      invariant 0 <= i <= |es|
      invariant idx == -1
      invariant forall k :: 0 <= k < i ==> !StatusIn(status, es[k].matches)
    {
      if status.Some? && status.value in es[i].matches {
        idx := i;
        break;
      }
      i := i + 1;
    }
  }

  /** Runs the source's loops: the nested obsolete marking over an array of
      flags, the removal, and the scan for the first matching event. */
  method StatusChanges(status: Option<string>, d: LifecycleDates) returns (r: Result<seq<Event>>)
    ensures r == Timeline(status, d)
  {
    if StatusIn(status, Statuses.New) {
      return Ok([]);
    }
    var openDate := MinPresent(OpenDates(d));
    if openDate.None? {
      return Err(ValueError("min() arg is an empty sequence"));
    }
    var result: seq<Candidate> := [];
    result := result + [Candidate(openDate, Open, OpenMatches)];
    result := result + [Candidate(d.inProgress, InProgress, InProgressMatches)];
    result := result + [Candidate(ResolvedDate(d), Resolved, ResolvedMatches)];
    result := result + [Candidate(d.fixReleased, Verified, VerifiedMatches)];
    result := result + [Candidate(d.incomplete, Incomplete, Statuses.Incomplete)];
    assert result == Candidates(d, openDate.value);
    var es := Dated(result);

    var obsolete := MarkObsolete(es);
    var kept := Unmarked(es, obsolete[..]);
    var idx := FindFirstMatch(kept, status);
    if idx < 0 {
      return Ok([]);
    }
    return Ok(kept[..idx + 1]);
  }

  /** A bug whose status is in the "New" group has no timeline. */
  lemma NewHasNoEvents(status: Option<string>, d: LifecycleDates)
    requires StatusIn(status, Statuses.New)
    ensures Timeline(status, d) == Ok([])
  {
  }

  /** The timeline fails exactly when the bug is not "New" and none of the
      four dates that open it is set; otherwise it starts from their minimum. */
  lemma FailsWithoutOpenDate(status: Option<string>, d: LifecycleDates)
    ensures Timeline(status, d).Err? <==>
      !StatusIn(status, Statuses.New) &&
      d.triaged.None? && d.confirmed.None? && d.leftNew.None? && d.assignedAt.None?
  {
    var ds := OpenDates(d);
    assert ds[0] == d.triaged && ds[1] == d.confirmed && ds[2] == d.leftNew && ds[3] == d.assignedAt;
  }

  /** A returned timeline is date-sorted, keeps the construction order of
      kinds, is a prefix of the surviving events, ends at the first event that
      matches the status, and no earlier event matches. */
  lemma {:induction false} TimelineShape(status: Option<string>, d: LifecycleDates)
    requires Timeline(status, d).Ok?
    ensures var es := Timeline(status, d).value;
      DateSorted(es) && RankIncreasing(es) &&
      (es != [] ==> StatusIn(status, es[|es| - 1].matches)) &&
      (forall i :: 0 <= i < |es| - 1 ==> !StatusIn(status, es[i].matches))
  {
    if !StatusIn(status, Statuses.New) {
      var o := MinPresent(OpenDates(d)).value;
      var cs := Candidates(d, o);
      DatedKeepsOrder(cs);
      var s := Survivors(Dated(cs));
      SurvivorsSorted(Dated(cs));
      CutShape(s, status);
      assert Timeline(status, d).value == Cut(s, status);
    }
  }

  /** The timeline is the shortest prefix of the surviving events that ends
      with a matching event, and empty exactly when none matches. */
  lemma {:induction false} TimelineIsShortestMatchingPrefix(status: Option<string>, d: LifecycleDates, openDate: int)
    requires !StatusIn(status, Statuses.New)
    requires MinPresent(OpenDates(d)) == Some(openDate)
    ensures var s := Survivors(Dated(Candidates(d, openDate)));
      var es := Timeline(status, d).value;
      es <= s &&
      (es == [] <==> forall i :: 0 <= i < |s| ==> !StatusIn(status, s[i].matches)) &&
      (forall k :: 0 <= k < |es| - 1 ==> !StatusIn(status, s[k].matches))
  {
  }
}
