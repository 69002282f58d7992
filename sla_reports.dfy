/** The SLA reports: the bugs of some projects that a report's criteria
    flag, each annotated with the names of the criteria it meets and their
    hints, ranked by importance; and the data of a whole report, one part
    per team when the report is grouped by team. The stored bugs, the team
    rosters, the configuration and the bugs a logged-in client sees are
    given as values; the clock is the `ago` parameter of the criteria. */
module SlaReports {
  import opened Wrappers
  import opened Documents
  import opened Store
  import Strings
  import Sorting
  import Criterias
  import SlaConfig
  import LpBug

  const Teams: seq<string> := ["Fuel", "Partners", "mos-linux", "mos-openstack", "Unknown"]

  const BugImportance: seq<string> := [
    "Essential", "Critical", "High", "Medium", "Low", "Wishlist", "Unknown", "Undecided"]

  const BugStatuses: seq<string> := [
    "New", "Incomplete", "Invalid", "Won't Fix", "Confirmed", "Triaged", "In Progress", "Opinion", "Expired"]

  const UnknownTeam: string := "Unknown"

  /** A report's `options` dictionary: lists of values by name. */
  type Options = map<string, seq<Value>>

  /** `if not options:` fills an empty dictionary with every status and
      every importance; a dictionary with any entry is left as it is. */
  function FillOptions(options: Options): Options {
    if |options| == 0 then DefaultOptions else options
  }

  const DefaultOptions: Options := map["status" := VStrs(BugStatuses), "importance" := VStrs(BugImportance)]

  /** Filling is done once: an empty dictionary gets both lists, and
      filling again changes nothing. */
  lemma FillOptionsIdempotent(options: Options)
    ensures FillOptions(FillOptions(options)) == FillOptions(options)
    ensures |options| == 0 ==> "status" in FillOptions(options) && "importance" in FillOptions(options)
  {
    if |options| == 0 {
      DefaultOptionsKeys();
      assert FillOptions(options) == DefaultOptions;
    }
  }

  lemma DefaultOptionsKeys()
    ensures "status" in DefaultOptions && "importance" in DefaultOptions && |DefaultOptions| != 0
  {
  }

  /** `options[key]`. */
  function OptionList(options: Options, key: string): (r: Result<seq<Value>>)
    ensures r.Ok? <==> key in options
    ensures r.Ok? ==> r.value == options[key]
    ensures r.Err? ==> r.error == KeyError(key)
  {
    if key in options then Ok(options[key]) else Err(KeyError(key))
  }

  /** The assignee rosters: the `Members` of the first roster document of
      each team. */
  type Rosters = map<string, seq<Value>>

  /** `get_team_members(team)`: `IndexError` when the team has no roster. */
  function TeamMembers(rosters: Rosters, team: string): (r: Result<seq<Value>>)
    ensures r.Ok? <==> team in rosters
    ensures r.Ok? ==> r.value == rosters[team]
    ensures r.Err? ==> r.error.IndexError?
  {
    if team in rosters then Ok(rosters[team]) else Err(IndexError(team))
  }

  /** The members of every listed team other than `Unknown`, in order. */
  function OtherMembers(rosters: Rosters, teams: seq<string>): Result<seq<Value>> {
    if teams == [] then Ok([])
    else
      var pre :- OtherMembers(rosters, teams[..|teams| - 1]);
      var t := teams[|teams| - 1];
      if t == UnknownTeam then Ok(pre)
      else
        var m :- TeamMembers(rosters, t);
        Ok(pre + m)
  }

  /** The pooled members are exactly those of the named teams, and pooling
      fails exactly when a named team has no roster. */
  lemma {:induction false} OtherMembersSpec(rosters: Rosters, teams: seq<string>)
    ensures OtherMembers(rosters, teams).Ok? <==>
      forall i :: 0 <= i < |teams| && teams[i] != UnknownTeam ==> teams[i] in rosters
    ensures OtherMembers(rosters, teams).Ok? ==> forall x ::
      x in OtherMembers(rosters, teams).value <==>
      exists i :: 0 <= i < |teams| && teams[i] != UnknownTeam && teams[i] in rosters && x in rosters[teams[i]]
  {
    if teams != [] {
      var pre := teams[..|teams| - 1];
      var t := teams[|teams| - 1];
      OtherMembersSpec(rosters, pre);
      assert forall i :: 0 <= i < |pre| ==> pre[i] == teams[i];
      if OtherMembers(rosters, teams).Ok? {
        var all := OtherMembers(rosters, teams).value;
        var before := OtherMembers(rosters, pre).value;
        forall x ensures x in all <==>
          exists i :: 0 <= i < |teams| && teams[i] != UnknownTeam && teams[i] in rosters && x in rosters[teams[i]]
        {
          if x in before {
            var i :| 0 <= i < |pre| && pre[i] != UnknownTeam && pre[i] in rosters && x in rosters[pre[i]];
            assert teams[i] == pre[i];
          }
          if t != UnknownTeam && x in rosters[t] {
            assert teams[|teams| - 1] == t;
          }
        }
      }
    }
  }

  /** Which assignees a report for one team keeps. */
  datatype AssigneeRule = AnyAssignee | Among(members: seq<Value>) | NoneOf(members: seq<Value>)

  /** No team: every assignee; a named team: its members; `Unknown`: no
      member of any other team. */
  function TeamRule(rosters: Rosters, team: Option<string>): Result<AssigneeRule> {
    match team
    case None => Ok(AnyAssignee)
    case Some(t) =>
      if t != UnknownTeam then
        var m :- TeamMembers(rosters, t);
        Ok(Among(m))
      else
        var m :- OtherMembers(rosters, Teams);
        Ok(NoneOf(m))
  }

  /** The report for the `Unknown` team keeps exactly the assignees who are
      in no other team's roster; it needs all four other rosters. */
  lemma UnknownTeamRule(rosters: Rosters)
    ensures TeamRule(rosters, Some(UnknownTeam)).Ok? <==>
      "Fuel" in rosters && "Partners" in rosters && "mos-linux" in rosters && "mos-openstack" in rosters
    ensures TeamRule(rosters, Some(UnknownTeam)).Ok? ==>
      var rule := TeamRule(rosters, Some(UnknownTeam)).value;
      rule.NoneOf? && forall x :: x in rule.members <==>
        exists i :: 0 <= i < |Teams| && Teams[i] != UnknownTeam && Teams[i] in rosters && x in rosters[Teams[i]]
  {
    OtherMembersSpec(rosters, Teams);
    assert Teams[0] == "Fuel" && Teams[1] == "Partners" && Teams[2] == "mos-linux" && Teams[3] == "mos-openstack";
    assert Teams[4] == UnknownTeam && |Teams| == 5;
  }

  /** A bug the client sees privately passes the team rule; reading its
      assignee can raise. */
  function Admits(rule: AssigneeRule, bug: Doc): Result<bool> {
    match rule
    case AnyAssignee => Ok(true)
    case Among(m) =>
      var a :- Attr(bug, "assignee");
      Ok(a in m)
    case NoneOf(m) =>
      var a :- Attr(bug, "assignee");
      Ok(a !in m)
  }

  /** The private bugs a team rule keeps, in order; the first unreadable
      assignee raises. */
  function KeepAssigned(bugs: seq<Doc>, rule: AssigneeRule): (r: Result<seq<Doc>>)
    ensures r.Ok? <==> forall i :: 0 <= i < |bugs| ==> Admits(rule, bugs[i]).Ok?
    ensures r.Ok? ==> forall d :: d in r.value <==> d in bugs && Admits(rule, d) == Ok(true)
  {
    if bugs == [] then Ok([])
    else
      var pre :- KeepAssigned(bugs[..|bugs| - 1], rule);
      var last := bugs[|bugs| - 1];
      var keep :- Admits(rule, last);
      Ok(pre + if keep then [last] else [])
  }

  /** Every private bug is marked as such. */
  function MarkPrivate(bugs: seq<Doc>): (r: seq<Doc>)
    ensures |r| == |bugs|
    ensures forall i :: 0 <= i < |bugs| ==> r[i] == bugs[i]["information_type" := VStr("Private")]
  {
    if bugs == [] then [] else [bugs[0]["information_type" := VStr("Private")]] + MarkPrivate(bugs[1..])
  }

  /** The store query `{"$and": filters}`: status and importance among the
      options, the milestone when one is given, and the team rule on the
      assignee (`$in` / `$nin`). */
  predicate Wanted(d: Doc, statuses: seq<Value>, importances: seq<Value>, milestone: Option<string>, rule: AssigneeRule) {
    FieldIn(d, "status", statuses) && FieldIn(d, "importance", importances) &&
    (milestone.Some? ==> FieldIs(d, "milestone", VStr(milestone.value))) &&
    match rule
    case AnyAssignee => true
    case Among(m) => FieldIn(d, "assignee", m)
    case NoneOf(m) => !FieldIn(d, "assignee", m)
  }

  /** The stored records of one collection the query finds, in order. */
  function Found(docs: seq<Doc>, statuses: seq<Value>, importances: seq<Value>, milestone: Option<string>, rule: AssigneeRule): (r: seq<Doc>)
    ensures |r| <= |docs|
    ensures forall d :: d in r <==> d in docs && Wanted(d, statuses, importances, milestone, rule)
  {
    if docs == [] then []
    else
      var last := docs[|docs| - 1];
      Found(docs[..|docs| - 1], statuses, importances, milestone, rule) +
        if Wanted(last, statuses, importances, milestone, rule) then [last] else []
  }

  /** `[Bug(b) for b in …]`: the attributes of a wrapper of each record. */
  function Wrapped(records: seq<Doc>): (r: seq<Doc>)
    ensures |r| == |records|
    ensures forall i :: 0 <= i < |records| ==> r[i] == LpBug.CopiedAttrs(records[i], LpBug.FieldsToCopy)
  {
    if records == [] then [] else [LpBug.CopiedAttrs(records[0], LpBug.FieldsToCopy)] + Wrapped(records[1..])
  }

  /** The stored bugs of every project, project by project. */
  function StoredBugs(db: Collections, projects: seq<string>, statuses: seq<Value>, importances: seq<Value>,
                      milestone: Option<string>, rule: AssigneeRule): seq<Doc>
  {
    if projects == [] then []
    else
      StoredBugs(db, projects[..|projects| - 1], statuses, importances, milestone, rule) +
        Wrapped(Found(Coll(db, projects[|projects| - 1]), statuses, importances, milestone, rule))
  }

  /** Every stored bug of the report wraps a record of one of its projects
      that the query finds. */
  lemma {:induction false} StoredBugsFound(db: Collections, projects: seq<string>, statuses: seq<Value>, importances: seq<Value>,
                                           milestone: Option<string>, rule: AssigneeRule, d: Doc)
    requires d in StoredBugs(db, projects, statuses, importances, milestone, rule)
    ensures exists p, b :: (p in projects && b in Coll(db, p) && Wanted(b, statuses, importances, milestone, rule) &&
      d == LpBug.CopiedAttrs(b, LpBug.FieldsToCopy))
  {
    var pre := projects[..|projects| - 1];
    var p := projects[|projects| - 1];
    var here := Found(Coll(db, p), statuses, importances, milestone, rule);
    if d in StoredBugs(db, pre, statuses, importances, milestone, rule) {
      StoredBugsFound(db, pre, statuses, importances, milestone, rule, d);
      var q, b :| q in pre && b in Coll(db, q) && Wanted(b, statuses, importances, milestone, rule) &&
        d == LpBug.CopiedAttrs(b, LpBug.FieldsToCopy);
      assert q in projects;
    } else {
      var k :| 0 <= k < |Wrapped(here)| && Wrapped(here)[k] == d;
      assert here[k] in here;
    }
  }

  /** The bugs a report considers: the private ones the team rule keeps,
      then the stored ones of each project. Options are read (`KeyError`)
      before the rosters (`IndexError`), then the private assignees. */
  function AllBugs(projects: seq<string>, milestone: Option<string>, team: Option<string>, options: Options,
                   privateBugs: seq<Doc>, db: Collections, rosters: Rosters): Result<seq<Doc>>
  {
    var statuses :- OptionList(options, "status");
    var importances :- OptionList(options, "importance");
    var rule :- TeamRule(rosters, team);
    var kept :- KeepAssigned(MarkPrivate(privateBugs), rule);
    Ok(kept + StoredBugs(db, projects, statuses, importances, milestone, rule))
  }

  /** A private bug among the report's bugs is marked private and passes
      the team rule. */
  lemma PrivateBugsMarked(projects: seq<string>, milestone: Option<string>, team: Option<string>, options: Options,
                          privateBugs: seq<Doc>, db: Collections, rosters: Rosters)
    requires AllBugs(projects, milestone, team, options, privateBugs, db, rosters).Ok?
    ensures var rule := TeamRule(rosters, team).value;
      var kept := KeepAssigned(MarkPrivate(privateBugs), rule).value;
      forall d :: d in kept ==> Get(d, "information_type") == VStr("Private") && Admits(rule, d) == Ok(true)
  {
  }

  /** A criterion flagging a bug: the bug's position among the report's
      bugs, the criterion's name and the hint shown for it. */
  datatype Hit = Hit(bug: nat, name: string, hint: string)

  /** The hint of a flagged bug: the formatted `hint-text` followed by the
      criterion's name in parentheses; any exception while formatting, or
      an empty text, gives no hint. */
  function HintFor(impl: Criterias.Criterion, criteria: SlaConfig.CriteriaConfig, bug: Doc): string {
    var text := match Criterias.GetHintText(impl, bug, criteria.hintText)
      case Ok(t) => t
      case Err(_) => "";
    if text != "" then text + " (" + criteria.name + ")" else ""
  }

  /** The bugs one criterion flags, in order; an exception of its rule
      propagates. */
  function BugHits(impl: Criterias.Criterion, criteria: SlaConfig.CriteriaConfig, bugs: seq<Doc>, ago: int -> int): Result<seq<Hit>> {
    if bugs == [] then Ok([])
    else
      var pre :- BugHits(impl, criteria, bugs[..|bugs| - 1], ago);
      var last := bugs[|bugs| - 1];
      var flagged :- Criterias.IsSatisfied(impl, last, ago);
      Ok(pre + if flagged then [Hit(|bugs| - 1, criteria.name, HintFor(impl, criteria, last))] else [])
  }

  /** A criterion's hits fail exactly when its rule raises on some bug. */
  lemma {:induction false} BugHitsFail(impl: Criterias.Criterion, criteria: SlaConfig.CriteriaConfig, bugs: seq<Doc>, ago: int -> int)
    ensures BugHits(impl, criteria, bugs, ago).Ok? <==>
      forall j :: 0 <= j < |bugs| ==> Criterias.IsSatisfied(impl, bugs[j], ago).Ok?
  {
    if bugs != [] {
      var pre := bugs[..|bugs| - 1];
      BugHitsFail(impl, criteria, pre, ago);
      assert forall j :: 0 <= j < |pre| ==> pre[j] == bugs[j];
    }
  }

  /** A criterion lists only bugs its rule holds for, with its name and
      hint. */
  lemma {:induction false} BugHitsSound(impl: Criterias.Criterion, criteria: SlaConfig.CriteriaConfig, bugs: seq<Doc>, ago: int -> int)
    requires BugHits(impl, criteria, bugs, ago).Ok?
    ensures var hits := BugHits(impl, criteria, bugs, ago).value;
      forall i :: 0 <= i < |hits| ==> (hits[i].bug < |bugs| &&
        Criterias.IsSatisfied(impl, bugs[hits[i].bug], ago) == Ok(true) &&
        hits[i] == Hit(hits[i].bug, criteria.name, HintFor(impl, criteria, bugs[hits[i].bug])))
  {
    if bugs != [] {
      var pre := bugs[..|bugs| - 1];
      BugHitsSound(impl, criteria, pre, ago);
      assert forall j :: 0 <= j < |pre| ==> pre[j] == bugs[j];
    }
  }

  /** A criterion lists each bug at most once, in the order of the bugs. */
  lemma {:induction false} BugHitsOrdered(impl: Criterias.Criterion, criteria: SlaConfig.CriteriaConfig, bugs: seq<Doc>, ago: int -> int)
    requires BugHits(impl, criteria, bugs, ago).Ok?
    ensures var hits := BugHits(impl, criteria, bugs, ago).value;
      (forall i :: 0 <= i < |hits| ==> hits[i].bug < |bugs|) &&
      (forall i, k :: 0 <= i < k < |hits| ==> hits[i].bug < hits[k].bug)
  {
    if bugs != [] {
      BugHitsOrdered(impl, criteria, bugs[..|bugs| - 1], ago);
    }
  }

  /** A criterion lists every bug its rule holds for. */
  lemma {:induction false} BugHitsComplete(impl: Criterias.Criterion, criteria: SlaConfig.CriteriaConfig, bugs: seq<Doc>, ago: int -> int, j: nat)
    requires BugHits(impl, criteria, bugs, ago).Ok?
    requires j < |bugs| && Criterias.IsSatisfied(impl, bugs[j], ago) == Ok(true)
    ensures exists i :: 0 <= i < |BugHits(impl, criteria, bugs, ago).value| && BugHits(impl, criteria, bugs, ago).value[i].bug == j
  {
    var pre := bugs[..|bugs| - 1];
    var hits := BugHits(impl, criteria, bugs, ago).value;
    var before := BugHits(impl, criteria, pre, ago).value;
    if j < |pre| {
      assert pre[j] == bugs[j];
      BugHitsComplete(impl, criteria, pre, ago, j);
      var i :| 0 <= i < |before| && before[i].bug == j;
      assert hits[i] == before[i];
    } else {
      assert hits[|hits| - 1].bug == j;
    }
  }

  /** The hits of one criterion of a report: its implementation is built
      (and its configuration looked up) before any bug is examined. */
  function CritHits(conf: seq<SlaConfig.CriteriaConfig>, crit: SlaConfig.ReportCriterion, milestone: Option<string>,
                    bugs: seq<Doc>, ago: int -> int): Result<seq<Hit>>
  {
    var impl :- SlaConfig.Implementation(conf, crit, milestone);
    var criteria :- SlaConfig.GetCriteriaByName(conf, crit.name);
    BugHits(impl, criteria, bugs, ago)
  }

  /** The hits of all criteria, criterion by criterion. */
  function AllHits(conf: seq<SlaConfig.CriteriaConfig>, crits: seq<SlaConfig.ReportCriterion>, milestone: Option<string>,
                   bugs: seq<Doc>, ago: int -> int): Result<seq<Hit>>
  {
    if crits == [] then Ok([])
    else
      var pre :- AllHits(conf, crits[..|crits| - 1], milestone, bugs, ago);
      var here :- CritHits(conf, crits[|crits| - 1], milestone, bugs, ago);
      Ok(pre + here)
  }

  /** Every hit is of one of the report's bugs. */
  lemma {:induction false} AllHitsBounded(conf: seq<SlaConfig.CriteriaConfig>, crits: seq<SlaConfig.ReportCriterion>,
                                          milestone: Option<string>, bugs: seq<Doc>, ago: int -> int)
    requires AllHits(conf, crits, milestone, bugs, ago).Ok?
    ensures forall h :: h in AllHits(conf, crits, milestone, bugs, ago).value ==> h.bug < |bugs|
  {
    if crits != [] {
      var pre := crits[..|crits| - 1];
      var crit := crits[|crits| - 1];
      AllHitsBounded(conf, pre, milestone, bugs, ago);
      var impl := SlaConfig.Implementation(conf, crit, milestone).value;
      var criteria := SlaConfig.GetCriteriaByName(conf, crit.name).value;
      BugHitsOrdered(impl, criteria, bugs, ago);
    }
  }

  /** A line of the result: a bug, the names of the criteria it meets and
      their hints, one per line. */
  datatype Entry = Entry(bug: nat, criteria: string, hints: string)

  /** `result.index(bug)`: where the bug's line is, if it has one. */
  function Position(es: seq<Entry>, bug: nat): (r: Option<nat>)
    ensures r.Some? ==> r.value < |es| && es[r.value].bug == bug
    ensures r.None? <==> forall k :: 0 <= k < |es| ==> es[k].bug != bug
  {
    if es == [] then None
    else if es[0].bug == bug then Some(0)
    else
      var rest := Position(es[1..], bug);
      if rest.Some? then Some(rest.value + 1) else None
  }

  /** One hit recorded: appended to the bug's line, or a new line. */
  function Record(es: seq<Entry>, h: Hit): seq<Entry> {
    match Position(es, h.bug)
    case Some(k) => es[k := Entry(h.bug, es[k].criteria + "\n" + h.name, es[k].hints + "\n" + h.hint)]
    case None => es + [Entry(h.bug, h.name, h.hint)]
  }

  function Merge(hits: seq<Hit>): seq<Entry> {
    if hits == [] then [] else Record(Merge(hits[..|hits| - 1]), hits[|hits| - 1])
  }

  /** The names of the criteria that flag `bug`, in order. */
  function NamesFor(hits: seq<Hit>, bug: nat): seq<string> {
    if hits == [] then []
    else NamesFor(hits[..|hits| - 1], bug) + if hits[|hits| - 1].bug == bug then [hits[|hits| - 1].name] else []
  }

  /** The hints of the criteria that flag `bug`, in order. */
  function HintsFor(hits: seq<Hit>, bug: nat): seq<string> {
    if hits == [] then []
    else HintsFor(hits[..|hits| - 1], bug) + if hits[|hits| - 1].bug == bug then [hits[|hits| - 1].hint] else []
  }

  /** `es` holds one line per flagged bug, whose texts join the names and
      the hints of the criteria flagging it. */
  ghost predicate Merged(es: seq<Entry>, hits: seq<Hit>) {
    (forall i, j :: 0 <= i < j < |es| ==> es[i].bug != es[j].bug) &&
    (forall b: nat :: Position(es, b).Some? <==> NamesFor(hits, b) != []) &&
    (forall k :: 0 <= k < |es| ==>
      es[k].criteria == Strings.Join("\n", NamesFor(hits, es[k].bug)) &&
      es[k].hints == Strings.Join("\n", HintsFor(hits, es[k].bug)))
  }

  /** Merging gives every flagged bug one line, listing the names of the
      criteria that flag it and their hints in the order they were met. */
  lemma {:induction false} MergeSpec(hits: seq<Hit>)
    ensures Merged(Merge(hits), hits)
  {
    if hits != [] {
      var pre := hits[..|hits| - 1];
      var h := hits[|hits| - 1];
      MergeSpec(pre);
      MergeStep(Merge(pre), pre, h);
      assert hits == pre + [h];
    }
  }

  lemma MergeStep(es: seq<Entry>, pre: seq<Hit>, h: Hit)
    requires Merged(es, pre)
    ensures Merged(Record(es, h), pre + [h])
  {
    match Position(es, h.bug)
    case Some(k) => MergeFound(es, pre, h, k);
    case None => MergeNew(es, pre, h);
  }

  lemma ForSnoc(pre: seq<Hit>, h: Hit, b: nat)
    ensures NamesFor(pre + [h], b) == NamesFor(pre, b) + if h.bug == b then [h.name] else []
    ensures HintsFor(pre + [h], b) == HintsFor(pre, b) + if h.bug == b then [h.hint] else []
  {
    assert (pre + [h])[..|pre|] == pre;
  }

  /** Lines with the same bugs in the same places have the same lookups. */
  lemma SameBugs(es: seq<Entry>, r: seq<Entry>, b: nat)
    requires |es| == |r| && forall i :: 0 <= i < |r| ==> r[i].bug == es[i].bug
    ensures Position(r, b).Some? <==> Position(es, b).Some?
  {
    if Position(r, b).Some? {
      assert es[Position(r, b).value].bug == b;
    }
    if Position(es, b).Some? {
      assert r[Position(es, b).value].bug == b;
    }
  }

  /** A hit of a bug with a line extends that line. */
  lemma MergeFound(es: seq<Entry>, pre: seq<Hit>, h: Hit, k: nat)
    requires Merged(es, pre) && Position(es, h.bug) == Some(k)
    ensures Merged(Record(es, h), pre + [h])
  {
    var hits := pre + [h];
    var r := Record(es, h);
    assert r == es[k := Entry(h.bug, es[k].criteria + "\n" + h.name, es[k].hints + "\n" + h.hint)];
    assert forall i :: 0 <= i < |r| ==> r[i].bug == es[i].bug;
    forall b: nat ensures Position(r, b).Some? <==> NamesFor(hits, b) != [] {
      ForSnoc(pre, h, b);
      SameBugs(es, r, b);
    }
    forall i | 0 <= i < |r|
      ensures r[i].criteria == Strings.Join("\n", NamesFor(hits, r[i].bug))
      ensures r[i].hints == Strings.Join("\n", HintsFor(hits, r[i].bug))
    {
      MergeFoundText(es, pre, h, k, i);
    }
  }

  lemma MergeFoundText(es: seq<Entry>, pre: seq<Hit>, h: Hit, k: nat, i: nat)
    requires Merged(es, pre) && Position(es, h.bug) == Some(k) && i < |es|
    ensures var r := Record(es, h);
      r[i].criteria == Strings.Join("\n", NamesFor(pre + [h], r[i].bug)) &&
      r[i].hints == Strings.Join("\n", HintsFor(pre + [h], r[i].bug))
  {
    var r := Record(es, h);
    assert r == es[k := Entry(h.bug, es[k].criteria + "\n" + h.name, es[k].hints + "\n" + h.hint)];
    ForSnoc(pre, h, es[i].bug);
    if i == k {
      HintsForLength(pre, h.bug);
      Strings.JoinAppend("\n", NamesFor(pre, h.bug), h.name);
      Strings.JoinAppend("\n", HintsFor(pre, h.bug), h.hint);
    } else {
      assert es[i].bug != h.bug;
    }
  }

  /** A hit of a bug without a line starts one. */
  lemma MergeNew(es: seq<Entry>, pre: seq<Hit>, h: Hit)
    requires Merged(es, pre) && Position(es, h.bug).None?
    ensures Merged(Record(es, h), pre + [h])
  {
    var hits := pre + [h];
    var r := es + [Entry(h.bug, h.name, h.hint)];
    assert Record(es, h) == r;
    forall i, j | 0 <= i < j < |r| ensures r[i].bug != r[j].bug {
      assert r[i] == es[i];
      if j < |es| {
        assert r[j] == es[j];
      }
    }
    forall b: nat ensures Position(r, b).Some? <==> NamesFor(hits, b) != [] {
      MergeNewPosition(es, pre, h, b);
    }
    forall i | 0 <= i < |r|
      ensures r[i].criteria == Strings.Join("\n", NamesFor(hits, r[i].bug))
      ensures r[i].hints == Strings.Join("\n", HintsFor(hits, r[i].bug))
    {
      MergeNewText(es, pre, h, i);
    }
  }

  lemma MergeNewPosition(es: seq<Entry>, pre: seq<Hit>, h: Hit, b: nat)
    requires Merged(es, pre) && Position(es, h.bug).None?
    ensures Position(Record(es, h), b).Some? <==> NamesFor(pre + [h], b) != []
  {
    var r := Record(es, h);
    assert r == es + [Entry(h.bug, h.name, h.hint)];
    ForSnoc(pre, h, b);
    if b == h.bug {
      assert r[|es|].bug == b;
    } else {
      if Position(r, b).Some? {
        assert r[Position(r, b).value] == es[Position(r, b).value];
      }
      if Position(es, b).Some? {
        assert r[Position(es, b).value] == es[Position(es, b).value];
      }
    }
  }

  lemma MergeNewText(es: seq<Entry>, pre: seq<Hit>, h: Hit, i: nat)
    requires Merged(es, pre) && Position(es, h.bug).None? && i <= |es|
    ensures var r := Record(es, h);
      r[i].criteria == Strings.Join("\n", NamesFor(pre + [h], r[i].bug)) &&
      r[i].hints == Strings.Join("\n", HintsFor(pre + [h], r[i].bug))
  {
    var r := Record(es, h);
    assert r == es + [Entry(h.bug, h.name, h.hint)];
    ForSnoc(pre, h, r[i].bug);
    if i < |es| {
      var b := es[i].bug;
      assert r[i] == es[i] && b != h.bug;
      assert NamesFor(pre, b) + [] == NamesFor(pre, b);
      assert HintsFor(pre, b) + [] == HintsFor(pre, b);
    } else {
      HintsForLength(pre, h.bug);
      assert NamesFor(pre, h.bug) == [];
      assert NamesFor(pre + [h], h.bug) == [h.name] && HintsFor(pre + [h], h.bug) == [h.hint];
    }
  }

  /** A bug has as many hints as criteria names. */
  lemma {:induction false} HintsForLength(hits: seq<Hit>, b: nat)
    ensures |HintsFor(hits, b)| == |NamesFor(hits, b)|
  {
    if hits != [] {
      HintsForLength(hits[..|hits| - 1], b);
    }
  }

  /** A bug with a line is a bug some hit flags, hence one of the report's
      bugs. */
  lemma {:induction false} NamesForBounded(hits: seq<Hit>, n: nat, b: nat)
    requires forall h :: h in hits ==> h.bug < n
    requires NamesFor(hits, b) != []
    ensures b < n
  {
    var pre := hits[..|hits| - 1];
    if hits[|hits| - 1].bug != b {
      assert forall h :: h in pre ==> h in hits;
      NamesForBounded(pre, n, b);
    }
  }

  /** Every line is of a bug some hit flags. */
  lemma MergeBounded(hits: seq<Hit>, n: nat)
    requires forall h :: h in hits ==> h.bug < n
    ensures forall e :: e in Merge(hits) ==> e.bug < n
  {
    MergeSpec(hits);
    var es := Merge(hits);
    forall e | e in es ensures e.bug < n {
      assert Position(es, e.bug).Some?;
      NamesForBounded(hits, n, e.bug);
    }
  }

  /** The sort key `(BUG_IMPORTANCE.index(importance), not customer-found)`. */
  datatype Rank = Rank(importance: nat, notCustomerFound: bool)

  /** Tuples compare by their first field, then their second (`False`
      first). */
  predicate RankLe(a: Rank, b: Rank) {
    a.importance < b.importance || (a.importance == b.importance && (!a.notCustomerFound || b.notCustomerFound))
  }

  /** `xs.index(v)`: the first position of `v`, `ValueError` when absent. */
  function IndexOf(xs: seq<string>, v: Value): Result<nat> {
    if xs == [] then Err(ValueError("index"))
    else if VStr(xs[0]) == v then Ok(0)
    else
      var rest :- IndexOf(xs[1..], v);
      Ok(rest + 1)
  }

  /** The index found is the first position of the value; `ValueError`
      exactly when the value is absent. */
  lemma {:induction false} IndexOfSpec(xs: seq<string>, v: Value)
    ensures var r := IndexOf(xs, v);
      (r.Ok? ==> (r.value < |xs| && VStr(xs[r.value]) == v && forall j :: 0 <= j < r.value ==> VStr(xs[j]) != v)) &&
      (r.Err? <==> forall j :: 0 <= j < |xs| ==> VStr(xs[j]) != v) &&
      (r.Err? ==> r.error.ValueError?)
  {
    if xs != [] && VStr(xs[0]) != v {
      IndexOfSpec(xs[1..], v);
    }
  }

  /** The sort key of a bug; an importance outside the known ones raises
      `ValueError`. */
  function SortKey(bug: Doc): Result<Rank> {
    var importance :- Attr(bug, "importance");
    var position :- IndexOf(BugImportance, importance);
    var customerFound :- Criterias.CustomerFound(bug);
    Ok(Rank(position, !customerFound))
  }

  type Ranked = (Rank, Doc)

  predicate RankedLe(a: Ranked, b: Ranked) {
    RankLe(a.0, b.0)
  }

  lemma RankedPreorder()
    ensures Sorting.TotalPreorder(RankedLe)
  {
  }

  /** The keys of all bugs (`key` is the `key=` argument of `sorted`),
      computed in order before sorting; the first key that raises stops
      the sort. */
  function Keyed(docs: seq<Doc>, key: Doc -> Result<Rank>): (r: Result<seq<Ranked>>)
    ensures r.Ok? <==> forall i :: 0 <= i < |docs| ==> key(docs[i]).Ok?
    ensures r.Ok? ==> |r.value| == |docs| && forall i :: 0 <= i < |docs| ==> r.value[i] == (key(docs[i]).value, docs[i])
  {
    if docs == [] then Ok([])
    else
      var pre :- Keyed(docs[..|docs| - 1], key);
      var rank :- key(docs[|docs| - 1]);
      Ok(pre + [(rank, docs[|docs| - 1])])
  }

  function Seconds(s: seq<Ranked>): (r: seq<Doc>)
    ensures |r| == |s| && forall i :: 0 <= i < |s| ==> r[i] == s[i].1
  {
    if s == [] then [] else [s[0].1] + Seconds(s[1..])
  }

  /** `sorted(result, key=…)`. */
  function Ordered(docs: seq<Doc>): Result<seq<Doc>> {
    var keyed :- Keyed(docs, SortKey);
    Ok(Seconds(Sorting.Sort(RankedLe, keyed)))
  }

  lemma {:induction false} SecondsInsert(x: Ranked, s: seq<Ranked>)
    ensures multiset(Seconds(Sorting.Insert(RankedLe, x, s))) == multiset(Seconds(s)) + multiset{x.1}
  {
    if s != [] && !RankedLe(x, s[0]) {
      SecondsInsert(x, s[1..]);
      var t := Sorting.Insert(RankedLe, x, s[1..]);
      assert Seconds([s[0]] + t) == [s[0].1] + Seconds(t);
      assert Seconds(s) == [s[0].1] + Seconds(s[1..]);
    } else if s != [] {
      assert Seconds([x] + s) == [x.1] + Seconds(s);
    }
  }

  lemma {:induction false} SecondsSort(s: seq<Ranked>)
    ensures multiset(Seconds(Sorting.Sort(RankedLe, s))) == multiset(Seconds(s))
  {
    if s != [] {
      SecondsSort(s[1..]);
      SecondsInsert(s[0], Sorting.Sort(RankedLe, s[1..]));
      assert Seconds(s) == [s[0].1] + Seconds(s[1..]);
    }
  }

  /** Each key pairs a bug with its own rank. */
  ghost predicate KeysOwn(s: seq<Ranked>) {
    forall i :: 0 <= i < |s| ==> SortKey(s[i].1) == Ok(s[i].0)
  }

  lemma KeysOwnSorted(s: seq<Ranked>)
    requires KeysOwn(s)
    ensures KeysOwn(Sorting.Sort(RankedLe, s))
  {
    var sorted := Sorting.Sort(RankedLe, s);
    forall i | 0 <= i < |sorted| ensures SortKey(sorted[i].1) == Ok(sorted[i].0) {
      assert sorted[i] in multiset(s);
      var k :| 0 <= k < |s| && s[k] == sorted[i];
    }
  }

  /** The ranked bugs are the given ones, each with a key, in order of
      importance and, within one importance, customer-found bugs first. */
  lemma OrderedSpec(docs: seq<Doc>)
    requires Keyed(docs, SortKey).Ok?
    ensures Ordered(docs).Ok?
    ensures var r := Ordered(docs).value;
      multiset(r) == multiset(docs) &&
      (forall i :: 0 <= i < |r| ==> SortKey(r[i]).Ok?) &&
      (forall i, j :: 0 <= i < j < |r| ==> RankLe(SortKey(r[i]).value, SortKey(r[j]).value))
  {
    var keyed := Keyed(docs, SortKey).value;
    var sorted := Sorting.Sort(RankedLe, keyed);
    RankedPreorder();
    Sorting.SortSorted(RankedLe, keyed);
    SecondsSort(keyed);
    assert Seconds(keyed) == docs;
    assert KeysOwn(keyed);
    KeysOwnSorted(keyed);
  }

  /** Bugs of the same rank keep the order they had. */
  lemma OrderedStable(docs: seq<Doc>, k: Ranked)
    requires Keyed(docs, SortKey).Ok?
    ensures Sorting.Equivalents(RankedLe, Sorting.Sort(RankedLe, Keyed(docs, SortKey).value), k) ==
      Sorting.Equivalents(RankedLe, Keyed(docs, SortKey).value, k)
  {
    RankedPreorder();
    Sorting.SortStable(RankedLe, Keyed(docs, SortKey).value, k);
  }

  /** A flagged bug as the report lists it: with the criteria names and
      hints of its line. Every line is of one of the bugs (`MergeBounded`),
      so the empty document is never used. */
  function Annotate(bugs: seq<Doc>, e: Entry): Doc {
    var bug := if e.bug < |bugs| then bugs[e.bug] else map[];
    bug["criteria" := VStr(e.criteria)]["criteria_hint_text" := VStr(e.hints)]
  }

  function Annotated(bugs: seq<Doc>, es: seq<Entry>): (r: seq<Doc>)
    ensures |r| == |es| && forall k :: 0 <= k < |es| ==> r[k] == Annotate(bugs, es[k])
  {
    if es == [] then [] else [Annotate(bugs, es[0])] + Annotated(bugs, es[1..])
  }

  /** `get_bugs_by_criteria(criterias, projects, milestone_name, team,
      options, user_agent)` with `options` already filled: the report's
      bugs, flagged by its criteria, merged per bug, ranked. */
  function BugsByCriteria(conf: seq<SlaConfig.CriteriaConfig>, crits: seq<SlaConfig.ReportCriterion>, projects: seq<string>,
                          milestone: Option<string>, team: Option<string>, options: Options, privateBugs: seq<Doc>,
                          db: Collections, rosters: Rosters, ago: int -> int): Result<seq<Doc>>
  {
    var bugs :- AllBugs(projects, milestone, team, options, privateBugs, db, rosters);
    var hits :- AllHits(conf, crits, milestone, bugs, ago);
    Ordered(Annotated(bugs, Merge(hits)))
  }

  lemma BugHitsStep(impl: Criterias.Criterion, criteria: SlaConfig.CriteriaConfig, bugs: seq<Doc>, ago: int -> int, j: nat)
    requires j < |bugs|
    ensures BugHits(impl, criteria, bugs[..j + 1], ago) ==
      var pre := BugHits(impl, criteria, bugs[..j], ago);
      var flagged := Criterias.IsSatisfied(impl, bugs[j], ago);
      if pre.Err? then pre
      else if flagged.Err? then Err(flagged.error)
      else Ok(pre.value + if flagged.value then [Hit(j, criteria.name, HintFor(impl, criteria, bugs[j]))] else [])
  {
    assert bugs[..j + 1][..j] == bugs[..j];
  }

  /** Once a rule raises, the criterion's hits are that exception. */
  lemma {:induction false} BugHitsErrExtends(impl: Criterias.Criterion, criteria: SlaConfig.CriteriaConfig, bugs: seq<Doc>, ago: int -> int, j: nat)
    requires j <= |bugs| && BugHits(impl, criteria, bugs[..j], ago).Err?
    ensures BugHits(impl, criteria, bugs, ago) == BugHits(impl, criteria, bugs[..j], ago)
  {
    if j < |bugs| {
      var pre := bugs[..|bugs| - 1];
      assert pre[..j] == bugs[..j];
      BugHitsErrExtends(impl, criteria, pre, ago, j);
    } else {
      assert bugs[..j] == bugs;
    }
  }

  lemma AllHitsStep(conf: seq<SlaConfig.CriteriaConfig>, crits: seq<SlaConfig.ReportCriterion>, milestone: Option<string>,
                    bugs: seq<Doc>, ago: int -> int, c: nat)
    requires c < |crits|
    ensures AllHits(conf, crits[..c + 1], milestone, bugs, ago) ==
      var pre := AllHits(conf, crits[..c], milestone, bugs, ago);
      var here := CritHits(conf, crits[c], milestone, bugs, ago);
      if pre.Err? then pre
      else if here.Err? then Err(here.error)
      else Ok(pre.value + here.value)
  {
    assert crits[..c + 1][..c] == crits[..c];
  }

  /** Once a criterion raises, the report's hits are that exception. */
  lemma {:induction false} AllHitsErrExtends(conf: seq<SlaConfig.CriteriaConfig>, crits: seq<SlaConfig.ReportCriterion>,
                                             milestone: Option<string>, bugs: seq<Doc>, ago: int -> int, c: nat)
    requires c <= |crits| && AllHits(conf, crits[..c], milestone, bugs, ago).Err?
    ensures AllHits(conf, crits, milestone, bugs, ago) == AllHits(conf, crits[..c], milestone, bugs, ago)
  {
    if c < |crits| {
      var pre := crits[..|crits| - 1];
      assert pre[..c] == crits[..c];
      AllHitsErrExtends(conf, pre, milestone, bugs, ago, c);
    } else {
      assert crits[..c] == crits;
    }
  }

  /** The report's `options` dictionary, shared by every call for the
      report and filled in place by the first. */
  class OptionsDict {
    var entries: Options

    constructor (entries: Options)
      ensures this.entries == entries
    {
      this.entries := entries;
    }
  }

  /** `if bug in result: … else: … result.append(bug)`: a hit appended
      to its bug's line, or a new line. */
  method RecordHit(lines: seq<Entry>, h: Hit, ghost hits: seq<Hit>) returns (r: seq<Entry>)
    requires lines == Merge(hits)
    ensures r == Merge(hits + [h])
  {
    r := lines;
    match Position(r, h.bug)
    case Some(k) =>
      r := r[k := Entry(h.bug, r[k].criteria + "\n" + h.name, r[k].hints + "\n" + h.hint)];
    case None =>
      r := r + [Entry(h.bug, h.name, h.hint)];
    assert (hits + [h])[..|hits|] == hits;
  }

  /** The inner loop for one criterion: each bug its rule holds for is
      recorded, in place, in the lines built so far. */
  method MatchCriterion(impl: Criterias.Criterion, criteria: SlaConfig.CriteriaConfig, bugs: seq<Doc>, ago: int -> int,
                        lines: seq<Entry>, ghost done: seq<Hit>) returns (r: Result<seq<Entry>>)
    requires lines == Merge(done)
    ensures r == (var hits := BugHits(impl, criteria, bugs, ago);
      if hits.Ok? then Ok(Merge(done + hits.value)) else Err(hits.error))
  {
    var result := lines;
    ghost var found: seq<Hit> := [];
    assert done + found == done;
    for j := 0 to |bugs|
      invariant BugHits(impl, criteria, bugs[..j], ago) == Ok(found)
      invariant result == Merge(done + found)
    {
      BugHitsStep(impl, criteria, bugs, ago, j);
      var flagged := Criterias.IsSatisfied(impl, bugs[j], ago);
      if flagged.Err? {
        BugHitsErrExtends(impl, criteria, bugs, ago, j + 1);
        return Err(flagged.error);
      }
      if flagged.value {
        var h := Hit(j, criteria.name, HintFor(impl, criteria, bugs[j]));
        result := RecordHit(result, h, done + found);
        AppendAssoc(done, found, [h]);
        found := found + [h];
      } else {
        assert found + [] == found;
      }
    }
    assert bugs[..|bugs|] == bugs;
    r := Ok(result);
  }

  /** The loops over the criteria and the bugs: the lines of every flagged
      bug, or the first exception. */
  method MatchAll(conf: seq<SlaConfig.CriteriaConfig>, crits: seq<SlaConfig.ReportCriterion>, milestone: Option<string>,
                  bugs: seq<Doc>, ago: int -> int) returns (r: Result<seq<Entry>>)
    ensures r == (var hits := AllHits(conf, crits, milestone, bugs, ago);
      if hits.Ok? then Ok(Merge(hits.value)) else Err(hits.error))
  {
    var result: seq<Entry> := [];
    ghost var done: seq<Hit> := [];
    for c := 0 to |crits|
      invariant AllHits(conf, crits[..c], milestone, bugs, ago) == Ok(done)
      invariant result == Merge(done)
    {
      AllHitsStep(conf, crits, milestone, bugs, ago, c);
      var impl := SlaConfig.Implementation(conf, crits[c], milestone);
      if impl.Err? {
        AllHitsErrExtends(conf, crits, milestone, bugs, ago, c + 1);
        return Err(impl.error);
      }
      var criteria := SlaConfig.GetCriteriaByName(conf, crits[c].name).value;
      var matched := MatchCriterion(impl.value, criteria, bugs, ago, result, done);
      if matched.Err? {
        AllHitsErrExtends(conf, crits, milestone, bugs, ago, c + 1);
        return Err(matched.error);
      }
      result := matched.value;
      done := done + BugHits(impl.value, criteria, bugs, ago).value;
    }
    assert crits[..|crits|] == crits;
    r := Ok(result);
  }

  /** `get_bugs_by_criteria(criterias, projects, milestone_name, team,
      options, user_agent)`: fills `options` when empty, then gives the
      report's flagged bugs. */
  method GetBugsByCriteria(conf: seq<SlaConfig.CriteriaConfig>, crits: seq<SlaConfig.ReportCriterion>, projects: seq<string>,
                           milestone: Option<string>, team: Option<string>, options: OptionsDict, privateBugs: seq<Doc>,
                           db: Collections, rosters: Rosters, ago: int -> int) returns (r: Result<seq<Doc>>)
    modifies options
    ensures options.entries == FillOptions(old(options.entries))
    ensures r == BugsByCriteria(conf, crits, projects, milestone, team, options.entries, privateBugs, db, rosters, ago)
  {
    options.entries := FillOptions(options.entries);
    var all := AllBugs(projects, milestone, team, options.entries, privateBugs, db, rosters);
    if all.Err? {
      return Err(all.error);
    }
    var bugs := all.value;
    var matched := MatchAll(conf, crits, milestone, bugs, ago);
    if matched.Err? {
      return Err(matched.error);
    }
    r := Ordered(Annotated(bugs, matched.value));
  }

  /** A report of the configuration: `group-by`, `display-trigger-criterias`
      and `options` are optional. */
  datatype Report = Report(
    name: string, text: string, parameter: Value, groupBy: Option<Value>, displayCriterias: Option<Value>,
    criterias: seq<SlaConfig.ReportCriterion>, options: Option<Options>)

  /** One part of a report's data. */
  datatype ReportData = ReportData(
    name: string, displayName: string, parameter: Value, displayCriterias: Value, bugs: seq<Doc>, legend: string)

  /** `{"DATA": …, "PROPERTIES": …}`. */
  datatype ReportsData = ReportsData(data: seq<ReportData>, properties: Options)

  /** The first report with the name; `ValueError` when there is none. */
  function FindReport(reports: seq<Report>, name: string): (r: Result<Report>)
    ensures r.Err? <==> forall i :: 0 <= i < |reports| ==> reports[i].name != name
    ensures r.Err? ==> r.error.ValueError?
    ensures r.Ok? ==> exists i :: (0 <= i < |reports| && reports[i] == r.value && r.value.name == name &&
      forall j :: 0 <= j < i ==> reports[j].name != name)
  {
    if reports == [] then Err(ValueError(name))
    else if reports[0].name == name then Ok(reports[0])
    else
      var rest := FindReport(reports[1..], name);
      if rest.Ok? then
        var i :| 0 <= i < |reports[1..]| && reports[1..][i] == rest.value && rest.value.name == name &&
          forall j :: 0 <= j < i ==> reports[1..][j].name != name;
        assert reports[i + 1] == rest.value;
        rest
      else rest
  }

  /** `[cr['name'] for cr in report['criterias']]`. */
  function CriteriaNames(crits: seq<SlaConfig.ReportCriterion>): (r: seq<string>)
    ensures |r| == |crits| && forall i :: 0 <= i < |crits| ==> r[i] == crits[i].name
  {
    if crits == [] then [] else [crits[0].name] + CriteriaNames(crits[1..])
  }

  /** `"%s for %s team" % (report['name'], team)`. */
  function TeamTitle(report: string, team: string): string {
    report + " for " + team + " team"
  }

  /** The bugs of each team's part. */
  function TeamBugs(conf: seq<SlaConfig.CriteriaConfig>, crits: seq<SlaConfig.ReportCriterion>, projects: seq<string>,
                    milestone: Option<string>, options: Options, privateBugs: seq<Doc>, db: Collections,
                    rosters: Rosters, ago: int -> int): string -> Result<seq<Doc>>
  {
    team => BugsByCriteria(conf, crits, projects, milestone, Some(team), options, privateBugs, db, rosters, ago)
  }

  /** One team's part: the team's bugs (`bugsOf`), then the legend. */
  function TeamPart(report: Report, team: string, bugsOf: string -> Result<seq<Doc>>, legend: Result<string>): Result<ReportData> {
    var bugs :- bugsOf(team);
    var text :- legend;
    Ok(ReportData(TeamTitle(report.name, team), team, report.parameter, report.displayCriterias.GetOr(VBool(false)), bugs, text))
  }

  /** The parts of a report grouped by team, team by team. */
  function TeamParts(report: Report, teams: seq<string>, bugsOf: string -> Result<seq<Doc>>, legend: Result<string>): Result<seq<ReportData>> {
    if teams == [] then Ok([])
    else
      var pre :- TeamParts(report, teams[..|teams| - 1], bugsOf, legend);
      var part :- TeamPart(report, teams[|teams| - 1], bugsOf, legend);
      Ok(pre + [part])
  }

  /** The single part of a report not grouped by team: all assignees, no
      private bugs. */
  function SinglePart(conf: seq<SlaConfig.CriteriaConfig>, report: Report, projects: seq<string>, milestone: Option<string>,
                      options: Options, db: Collections, rosters: Rosters, ago: int -> int): Result<ReportData>
  {
    var bugs :- BugsByCriteria(conf, report.criterias, projects, milestone, None, options, [], db, rosters, ago);
    var text :- SlaConfig.GetCriteriaDescription(conf, report.criterias, milestone);
    Ok(ReportData(report.name, report.text, report.parameter, report.displayCriterias.GetOr(VBool(false)), bugs, text))
  }

  /** The parts of a report, with its options filled. */
  function Parts(conf: seq<SlaConfig.CriteriaConfig>, report: Report, projects: seq<string>, milestone: Option<string>,
                 options: Options, privateBugs: seq<Doc>, db: Collections, rosters: Rosters, ago: int -> int): Result<seq<ReportData>>
  {
    if report.groupBy == Some(VStr("team")) then
      TeamParts(report, Teams, TeamBugs(conf, report.criterias, projects, milestone, options, privateBugs, db, rosters, ago),
                SlaConfig.GetCriteriaDescription(conf, report.criterias, milestone))
    else
      var part :- SinglePart(conf, report, projects, milestone, options, db, rosters, ago);
      Ok([part])
  }

  /** `get_reports_data(report_name, projects, milestone_name, user_agent)`:
      one part per team for a report grouped by team (the only one that
      asks the client for private bugs), one part otherwise; every part
      reads the same filled options; the properties are those options
      with the criteria names. */
  function ReportsFor(reports: seq<Report>, conf: seq<SlaConfig.CriteriaConfig>, name: string, projects: seq<string>,
                      milestone: Option<string>, privateBugs: seq<Doc>, db: Collections, rosters: Rosters,
                      ago: int -> int): Result<ReportsData>
  {
    var report :- FindReport(reports, name);
    var options := FillOptions(report.options.GetOr(map[]));
    var parts :- Parts(conf, report, projects, milestone, options, privateBugs, db, rosters, ago);
    Ok(ReportsData(parts, options["criterias" := VStrs(CriteriaNames(report.criterias))]))
  }

  /** The team parts follow the teams: one per team, in order, each titled
      for its team and listing that team's bugs. */
  lemma {:induction false} TeamPartsShape(report: Report, teams: seq<string>, bugsOf: string -> Result<seq<Doc>>, legend: Result<string>)
    requires TeamParts(report, teams, bugsOf, legend).Ok?
    ensures var parts := TeamParts(report, teams, bugsOf, legend).value;
      |parts| == |teams| &&
      forall i :: 0 <= i < |teams| ==> (parts[i].displayName == teams[i] && parts[i].name == TeamTitle(report.name, teams[i]) &&
        bugsOf(teams[i]) == Ok(parts[i].bugs) && legend == Ok(parts[i].legend))
  {
    if teams != [] {
      var pre := teams[..|teams| - 1];
      TeamPartsShape(report, pre, bugsOf, legend);
      assert forall i :: 0 <= i < |pre| ==> pre[i] == teams[i];
    }
  }

  /** The properties of a report list its filled options and the names
      of its criteria. */
  lemma ReportsProperties(reports: seq<Report>, conf: seq<SlaConfig.CriteriaConfig>, name: string, projects: seq<string>,
                          milestone: Option<string>, privateBugs: seq<Doc>, db: Collections, rosters: Rosters, ago: int -> int)
    requires ReportsFor(reports, conf, name, projects, milestone, privateBugs, db, rosters, ago).Ok?
    ensures var report := FindReport(reports, name).value;
      var r := ReportsFor(reports, conf, name, projects, milestone, privateBugs, db, rosters, ago).value;
      r.properties == FillOptions(report.options.GetOr(map[]))["criterias" := VStrs(CriteriaNames(report.criterias))]
  {
  }

  /** A report grouped by team has five parts, one per team in the order
      of `TEAMS`, each listing the bugs of its team. */
  lemma TeamReportShape(reports: seq<Report>, conf: seq<SlaConfig.CriteriaConfig>, name: string, projects: seq<string>,
                        milestone: Option<string>, privateBugs: seq<Doc>, db: Collections, rosters: Rosters, ago: int -> int, i: nat)
    requires ReportsFor(reports, conf, name, projects, milestone, privateBugs, db, rosters, ago).Ok?
    requires FindReport(reports, name).value.groupBy == Some(VStr("team")) && i < 5
    ensures var report := FindReport(reports, name).value;
      var r := ReportsFor(reports, conf, name, projects, milestone, privateBugs, db, rosters, ago).value;
      |r.data| == 5 && r.data[i].displayName == Teams[i] &&
      Ok(r.data[i].bugs) == BugsByCriteria(conf, report.criterias, projects, milestone, Some(Teams[i]),
                                           FillOptions(report.options.GetOr(map[])), privateBugs, db, rosters, ago)
  {
    var report := FindReport(reports, name).value;
    var options := FillOptions(report.options.GetOr(map[]));
    var bugsOf := TeamBugs(conf, report.criterias, projects, milestone, options, privateBugs, db, rosters, ago);
    TeamPartsShape(report, Teams, bugsOf, SlaConfig.GetCriteriaDescription(conf, report.criterias, milestone));
  }

  /** Any other report has one part, named by its text, that sees no
      private bugs. */
  lemma SingleReportShape(reports: seq<Report>, conf: seq<SlaConfig.CriteriaConfig>, name: string, projects: seq<string>,
                          milestone: Option<string>, privateBugs: seq<Doc>, db: Collections, rosters: Rosters, ago: int -> int)
    requires ReportsFor(reports, conf, name, projects, milestone, privateBugs, db, rosters, ago).Ok?
    requires FindReport(reports, name).value.groupBy != Some(VStr("team"))
    ensures var report := FindReport(reports, name).value;
      var r := ReportsFor(reports, conf, name, projects, milestone, privateBugs, db, rosters, ago).value;
      |r.data| == 1 && r.data[0].displayName == report.text &&
      Ok(r.data[0].bugs) == BugsByCriteria(conf, report.criterias, projects, milestone, None,
                                           FillOptions(report.options.GetOr(map[])), [], db, rosters, ago)
  {
  }

  /** One iteration of the loop over the teams; `bugsOf(team)` is the
      team's query over the filled options. */
  method CollectTeamPart(conf: seq<SlaConfig.CriteriaConfig>, report: Report, projects: seq<string>, milestone: Option<string>,
                         options: OptionsDict, privateBugs: seq<Doc>, db: Collections, rosters: Rosters, ago: int -> int, team: string,
                         ghost filled: Options, ghost bugsOf: string -> Result<seq<Doc>>)
    returns (r: Result<ReportData>)
    requires FillOptions(options.entries) == filled
    requires bugsOf(team) == BugsByCriteria(conf, report.criterias, projects, milestone, Some(team), filled, privateBugs, db, rosters, ago)
    modifies options
    ensures options.entries == filled
    ensures r == TeamPart(report, team, bugsOf, SlaConfig.GetCriteriaDescription(conf, report.criterias, milestone))
  {
    var bugs := GetBugsByCriteria(conf, report.criterias, projects, milestone, Some(team), options, privateBugs, db, rosters, ago);
    if bugs.Err? {
      return Err(bugs.error);
    }
    var legend := SlaConfig.GetCriteriaDescription(conf, report.criterias, milestone);
    if legend.Err? {
      return Err(legend.error);
    }
    r := Ok(ReportData(TeamTitle(report.name, team), team, report.parameter,
                       report.displayCriterias.GetOr(VBool(false)), bugs.value, legend.value));
  }

  /** The loop over the teams, sharing one options dictionary. */
  method CollectTeamParts(conf: seq<SlaConfig.CriteriaConfig>, report: Report, projects: seq<string>, milestone: Option<string>,
                          options: OptionsDict, privateBugs: seq<Doc>, db: Collections, rosters: Rosters, ago: int -> int,
                          ghost filled: Options, ghost bugsOf: string -> Result<seq<Doc>>)
    returns (r: Result<seq<ReportData>>)
    requires FillOptions(options.entries) == filled
    requires forall team {:trigger BugsByCriteria(conf, report.criterias, projects, milestone, Some(team), filled, privateBugs, db, rosters, ago)} ::
      bugsOf(team) == BugsByCriteria(conf, report.criterias, projects, milestone, Some(team), filled, privateBugs, db, rosters, ago)
    modifies options
    ensures options.entries == filled
    ensures r == TeamParts(report, Teams, bugsOf, SlaConfig.GetCriteriaDescription(conf, report.criterias, milestone))
  {
    ghost var legend := SlaConfig.GetCriteriaDescription(conf, report.criterias, milestone);
    FillOptionsIdempotent(options.entries);
    var parts: seq<ReportData> := [];
    for i := 0 to |Teams|
      invariant FillOptions(options.entries) == filled
      invariant i > 0 ==> options.entries == filled
      invariant TeamParts(report, Teams[..i], bugsOf, legend) == Ok(parts)
    {
      TeamPartsStep(report, Teams, bugsOf, legend, i);
      var part := CollectTeamPart(conf, report, projects, milestone, options, privateBugs, db, rosters, ago, Teams[i], filled, bugsOf);
      if part.Err? {
        TeamPartsErrExtends(report, Teams, bugsOf, legend, i + 1);
        return Err(part.error);
      }
      parts := parts + [part.value];
    }
    assert Teams[..|Teams|] == Teams;
    r := Ok(parts);
  }

  lemma TeamPartsStep(report: Report, teams: seq<string>, bugsOf: string -> Result<seq<Doc>>, legend: Result<string>, i: nat)
    requires i < |teams|
    ensures TeamParts(report, teams[..i + 1], bugsOf, legend) ==
      var pre := TeamParts(report, teams[..i], bugsOf, legend);
      var part := TeamPart(report, teams[i], bugsOf, legend);
      if pre.Err? then pre else if part.Err? then Err(part.error) else Ok(pre.value + [part.value])
  {
    assert teams[..i + 1][..i] == teams[..i];
  }

  /** Once a team's part raises, the report raises that exception. */
  lemma {:induction false} TeamPartsErrExtends(report: Report, teams: seq<string>, bugsOf: string -> Result<seq<Doc>>, legend: Result<string>, i: nat)
    requires i <= |teams| && TeamParts(report, teams[..i], bugsOf, legend).Err?
    ensures TeamParts(report, teams, bugsOf, legend) == TeamParts(report, teams[..i], bugsOf, legend)
  {
    if i < |teams| {
      var pre := teams[..|teams| - 1];
      assert pre[..i] == teams[..i];
      TeamPartsErrExtends(report, pre, bugsOf, legend, i);
    } else {
      assert teams[..i] == teams;
    }
  }

  /** The part of a report not grouped by team. */
  method CollectSinglePart(conf: seq<SlaConfig.CriteriaConfig>, report: Report, projects: seq<string>, milestone: Option<string>,
                           options: OptionsDict, db: Collections, rosters: Rosters, ago: int -> int)
    returns (r: Result<ReportData>)
    modifies options
    ensures options.entries == FillOptions(old(options.entries))
    ensures r == SinglePart(conf, report, projects, milestone, options.entries, db, rosters, ago)
  {
    var bugs := GetBugsByCriteria(conf, report.criterias, projects, milestone, None, options, [], db, rosters, ago);
    if bugs.Err? {
      return Err(bugs.error);
    }
    var legend := SlaConfig.GetCriteriaDescription(conf, report.criterias, milestone);
    if legend.Err? {
      return Err(legend.error);
    }
    r := Ok(ReportData(report.name, report.text, report.parameter,
                       report.displayCriterias.GetOr(VBool(false)), bugs.value, legend.value));
  }

  /** The parts of a report, read through its shared options dictionary. */
  method CollectParts(conf: seq<SlaConfig.CriteriaConfig>, report: Report, projects: seq<string>, milestone: Option<string>,
                      options: OptionsDict, privateBugs: seq<Doc>, db: Collections, rosters: Rosters, ago: int -> int)
    returns (r: Result<seq<ReportData>>)
    modifies options
    ensures options.entries == FillOptions(old(options.entries))
    ensures r == Parts(conf, report, projects, milestone, options.entries, privateBugs, db, rosters, ago)
  {
    if report.groupBy == Some(VStr("team")) {
      ghost var filled := FillOptions(options.entries);
      r := CollectTeamParts(conf, report, projects, milestone, options, privateBugs, db, rosters, ago,
                            filled, TeamBugs(conf, report.criterias, projects, milestone, filled, privateBugs, db, rosters, ago));
    } else {
      var part := CollectSinglePart(conf, report, projects, milestone, options, db, rosters, ago);
      if part.Err? {
        return Err(part.error);
      }
      r := Ok([part.value]);
    }
  }

  /** `get_reports_data`, reading the report's options through one shared
      dictionary: the calls fill it, and the criteria names are added to
      it last. */
  method GetReportsData(reports: seq<Report>, conf: seq<SlaConfig.CriteriaConfig>, name: string, projects: seq<string>,
                        milestone: Option<string>, privateBugs: seq<Doc>, db: Collections, rosters: Rosters, ago: int -> int)
    returns (r: Result<ReportsData>)
    ensures r == ReportsFor(reports, conf, name, projects, milestone, privateBugs, db, rosters, ago)
  {
    var found := FindReport(reports, name);
    if found.Err? {
      return Err(found.error);
    }
    var report := found.value;
    var names := CriteriaNames(report.criterias);
    var options := new OptionsDict(report.options.GetOr(map[]));
    var parts := CollectParts(conf, report, projects, milestone, options, privateBugs, db, rosters, ago);
    if parts.Err? {
      return Err(parts.error);
    }
    options.entries := options.entries["criterias" := VStrs(names)];
    r := Ok(ReportsData(parts.value, options.entries));
  }
}
