/** The query layer of the current reporting package: the OAuth
    authorisation URL, the bug searches of the anonymous and the
    authenticated data sources, the common milestones, the distinct-id
    counts, and the filtering of a report's team tables. The store and the
    tracker's search results are given as values. */
module LpData {
  import opened Wrappers
  import opened Documents
  import opened Sifting
  import Store
  import Strings
  import LpBug
  import Statuses
  import SyncUtil

  // ---------------------------------------------------------------------
  // authorization_url

  /** The tracker's token authorisation page. */
  const AuthorizeTokenPage: string := "+authorize-token"

  /** The access levels asked for when the caller names none. */
  const DefaultAccessLevels: seq<string> := ["DESKTOP_INTEGRATION"]

  const AllowPermission: string := "&allow_permission="

  /** Where the host of `scheme://host/path` starts: just after the `//`
      that follows the scheme's `:`. */
  function HostStart(root: string): Option<nat> {
    match Strings.FirstIndex(root, ':')
    case None => None
    case Some(i) => if i + 3 <= |root| && root[i + 1..i + 3] == "//" then Some(i + 3) else None
  }

  /** The root names a host and no path: nothing after the host is a `/`. */
  predicate HostOnly(root: string) {
    HostStart(root).Some? && HostStart(root).value <= |root| && '/' !in root[HostStart(root).value..]
  }

  /** The directory of a URL that a relative page is resolved against:
      everything up to and including its last `/`, or, for a root with a
      host and an empty path, the root with `/` added, as `urlunsplit`
      does. */
  function Directory(root: string): (r: string)
    ensures HostOnly(root) ==> r == root + "/"
    ensures !HostOnly(root) ==> r <= root && (r == [] || r[|r| - 1] == '/') && '/' !in root[|r|..]
  {
    if HostOnly(root) then root + "/"
    else
      match Strings.LastIndex(root, '/')
      case None => []
      case Some(i) => root[..i + 1]
  }

  /** `urljoin(root, page)` for a relative page: the page replaces the last
      path segment of the root. */
  function UrlJoin(root: string, page: string): string {
    Directory(root) + page
  }

  /** The host of `scheme://rest` starts right after the `//`. */
  lemma HostStartAfterScheme(scheme: string, rest: string)
    requires ':' !in scheme
    ensures HostStart(scheme + "://" + rest) == Some(|scheme| + 3)
    ensures (scheme + "://" + rest)[|scheme| + 3..] == rest
  {
    var root := scheme + "://" + rest;
    var i := |scheme|;
    assert root[i] == ':' && root[..i] == scheme;
    assert Strings.FirstIndex(root, ':') == Some(i);
    assert root[i + 1..i + 3] == "//";
  }

  /** A root `scheme://host`, with or without its trailing `/`, joins a
      page after a single `/`. */
  lemma UrlJoinHost(scheme: string, host: string, page: string)
    requires ':' !in scheme && '/' !in host
    ensures UrlJoin(scheme + "://" + host, page) == scheme + "://" + host + "/" + page
    ensures UrlJoin(scheme + "://" + host + "/", page) == scheme + "://" + host + "/" + page
  {
    var root := scheme + "://" + host;
    HostStartAfterScheme(scheme, host);
    assert HostOnly(root);
    var root' := root + "/";
    assert root' == scheme + "://" + (host + "/");
    HostStartAfterScheme(scheme, host + "/");
    assert root'[|root'| - 1] == '/';
    assert !HostOnly(root');
    assert Strings.LastIndex(root', '/') == Some(|root'| - 1);
    assert root'[..|root'|] == root';
  }

  /** `allow_access_levels or []`. */
  function Levels(levels: Option<seq<string>>): seq<string> {
    if levels.Some? then levels.value else []
  }

  /** `authorization_url(web_root, request_token, allow_access_levels)`:
      `None` and the empty list both add no level. */
  function AuthorizationUrl(webRoot: string, token: string, levels: Option<seq<string>>): string {
    var allowed := Levels(levels);
    var page := AuthorizeTokenPage + "?oauth_token=" + token;
    var page := if |allowed| > 0 then page + (AllowPermission + Strings.Join(AllowPermission, allowed)) else page;
    UrlJoin(webRoot, page)
  }

  /** The URL carries the token, then one `&allow_permission=<level>` per
      level, in order. */
  lemma AuthorizationUrlLevels(webRoot: string, token: string, levels: Option<seq<string>>)
    ensures AuthorizationUrl(webRoot, token, levels) ==
      Directory(webRoot) + (AuthorizeTokenPage + "?oauth_token=" + token) +
      Strings.Concat(Strings.PrefixEach(AllowPermission, Levels(levels)))
  {
    var allowed := Levels(levels);
    var page := AuthorizeTokenPage + "?oauth_token=" + token;
    var dir := Directory(webRoot);
    if |allowed| > 0 {
      var tail := AllowPermission + Strings.Join(AllowPermission, allowed);
      Strings.JoinPrefixed(AllowPermission, allowed);
      assert AuthorizationUrl(webRoot, token, levels) == dir + (page + tail);
      assert dir + (page + tail) == dir + page + tail;
    } else {
      assert Strings.PrefixEach(AllowPermission, allowed) == [];
      assert dir + page + Strings.Concat([]) == dir + page;
    }
  }

  /** With the default levels the URL asks for desktop integration only. */
  lemma DefaultAuthorizationUrl(webRoot: string, token: string)
    ensures AuthorizationUrl(webRoot, token, Some(DefaultAccessLevels)) ==
      Directory(webRoot) + (AuthorizeTokenPage + "?oauth_token=" + token) + (AllowPermission + "DESKTOP_INTEGRATION")
  {
    AuthorizationUrlLevels(webRoot, token, Some(DefaultAccessLevels));
    var each := Strings.PrefixEach(AllowPermission, DefaultAccessLevels);
    assert |each| == 1 && each[0] == AllowPermission + "DESKTOP_INTEGRATION";
    assert each == [AllowPermission + "DESKTOP_INTEGRATION"];
    assert Strings.Concat(each) == each[0] + Strings.Concat([]);
  }

  // ---------------------------------------------------------------------
  // The anonymous get_bugs: a store query

  /** One condition of a `$and` query. */
  datatype Condition =
    | In(field: string, vals: seq<Value>)       // {field: {"$in": vals}}
    | Equals(field: string, val: Value)         // {field: val}
    | NotIn(field: string, vals: seq<Value>)    // {field: {"$nin": vals}}

  predicate Holds(d: Doc, c: Condition) {
    match c
    case In(k, vs) => FieldIn(d, k, vs)
    case Equals(k, v) => FieldIs(d, k, v)
    case NotIn(k, vs) => !FieldIn(d, k, vs)
  }

  predicate AllHold(d: Doc, search: seq<Condition>) {
    forall i :: 0 <= i < |search| ==> Holds(d, search[i])
  }

  /** The `search` list `get_bugs` builds: the status condition, then one
      condition per non-empty argument. */
  function Search(statuses: seq<string>, milestone: Value, tags: seq<string>, importance: seq<string>, condition: bool): seq<Condition> {
    [In("status", VStrs(statuses))] +
    (if Truthy(milestone) then [Equals("milestone", milestone)] else []) +
    (if importance != [] then [In("importance", VStrs(importance))] else []) +
    (if tags != [] then [if condition then NotIn("tags", VStrs(tags)) else In("tags", VStrs(tags))] else [])
  }

  /** `find({"$and": search})`: the matching documents in store order. */
  function Find(docs: seq<Doc>, search: seq<Condition>): (r: seq<Doc>)
    ensures forall d :: d in r <==> d in docs && AllHold(d, search)
    ensures Subsequence(r, docs)
  {
    if docs == [] then []
    else
      var pre := docs[..|docs| - 1];
      var last := docs[|docs| - 1];
      assert docs == pre + [last];
      var r := Find(pre, search);
      if AllHold(last, search) then
        assert (r + [last])[..|r|] == r;
        r + [last]
      else
        SubsequenceExtend(r, pre, last);
        r
  }

  /** The record `r` of a bug wrapped as the package's `Bug(r)`. */
  function Wrap(records: seq<Doc>): (r: seq<Doc>)
    ensures |r| == |records| && forall i :: 0 <= i < |records| ==> r[i] == LpBug.CopiedAttrs(records[i], LpBug.FieldsToCopy)
  {
    if records == [] then [] else Wrap(records[..|records| - 1]) + [LpBug.CopiedAttrs(records[|records| - 1], LpBug.FieldsToCopy)]
  }

  /** `LaunchpadAnonymousData.get_bugs(project_name, statuses,
      milestone_name, tags, importance, condition=...)`: the project's
      collection queried with every active condition. */
  function AnonymousGetBugs(db: Store.Collections, project: string, statuses: seq<string>, milestone: Value,
                            tags: seq<string>, importance: seq<string>, condition: bool): seq<Doc> {
    Wrap(Find(Store.Coll(db, project), Search(statuses, milestone, tags, importance, condition)))
  }

  /** The conditions of a search, stated directly on a record. */
  predicate Selected(d: Doc, statuses: seq<string>, milestone: Value, tags: seq<string>, importance: seq<string>, condition: bool) {
    FieldIn(d, "status", VStrs(statuses)) &&
    (Truthy(milestone) ==> Get(d, "milestone") == milestone) &&
    (importance != [] ==> FieldIn(d, "importance", VStrs(importance))) &&
    (tags != [] && condition ==> !FieldIn(d, "tags", VStrs(tags))) &&
    (tags != [] && !condition ==> FieldIn(d, "tags", VStrs(tags)))
  }

  /** A record matches the query `get_bugs` builds exactly when its status
      is one of the statuses, its milestone is the given one when one is
      given, its importance is listed when a list is given, and its tags
      meet the given tags (or, with `condition`, avoid all of them). */
  lemma SearchSelects(d: Doc, statuses: seq<string>, milestone: Value, tags: seq<string>, importance: seq<string>, condition: bool)
    ensures AllHold(d, Search(statuses, milestone, tags, importance, condition)) <==>
      Selected(d, statuses, milestone, tags, importance, condition)
  {
    var search := Search(statuses, milestone, tags, importance, condition);
    SearchParts(statuses, milestone, tags, importance, condition);
    if Selected(d, statuses, milestone, tags, importance, condition) {
      forall i | 0 <= i < |search| ensures Holds(d, search[i]) {
      }
    }
  }

  /** The conditions of the search and where they stand. */
  lemma SearchParts(statuses: seq<string>, milestone: Value, tags: seq<string>, importance: seq<string>, condition: bool)
    ensures var search := Search(statuses, milestone, tags, importance, condition);
      var m := if Truthy(milestone) then 1 else 0;
      var n := if importance != [] then 1 else 0;
      var tagCond := if condition then NotIn("tags", VStrs(tags)) else In("tags", VStrs(tags));
      |search| == 1 + m + n + (if tags != [] then 1 else 0) &&
      search[0] == In("status", VStrs(statuses)) &&
      (Truthy(milestone) ==> search[1] == Equals("milestone", milestone)) &&
      (importance != [] ==> search[1 + m] == In("importance", VStrs(importance))) &&
      (tags != [] ==> search[1 + m + n] == tagCond)
  {
    var a := [In("status", VStrs(statuses))];
    var b := if Truthy(milestone) then [Equals("milestone", milestone)] else [];
    var c := if importance != [] then [In("importance", VStrs(importance))] else [];
    var e := if tags != [] then [if condition then NotIn("tags", VStrs(tags)) else In("tags", VStrs(tags))] else [];
    assert Search(statuses, milestone, tags, importance, condition) == a + b + c + e;
  }

  /** The anonymous search returns, in store order, the wrapped records
      that meet every condition. */
  lemma AnonymousGetBugsSelects(db: Store.Collections, project: string, statuses: seq<string>, milestone: Value,
                                tags: seq<string>, importance: seq<string>, condition: bool)
    ensures var found := Find(Store.Coll(db, project), Search(statuses, milestone, tags, importance, condition));
      Subsequence(found, Store.Coll(db, project)) &&
      (forall d :: d in found <==> d in Store.Coll(db, project) && Selected(d, statuses, milestone, tags, importance, condition)) &&
      AnonymousGetBugs(db, project, statuses, milestone, tags, importance, condition) == Wrap(found)
  {
    var search := Search(statuses, milestone, tags, importance, condition);
    forall d ensures AllHold(d, search) <==> Selected(d, statuses, milestone, tags, importance, condition) {
      SearchSelects(d, statuses, milestone, tags, importance, condition);
    }
  }

  // ---------------------------------------------------------------------
  // The authenticated get_bugs: filters over the tracker's search results

  /** `task.status in statuses`. */
  function StatusTest(statuses: seq<string>): Doc -> Result<bool> {
    task => var s :- Attr(task, "status"); Ok(s in VStrs(statuses))
  }

  /** `task.milestone_link.split('/')[-1] in milestone_name`: a link that
      is not a string has no `split`. */
  function MilestoneTest(milestones: seq<string>): Doc -> Result<bool> {
    task =>
      var link :- Attr(task, "milestone_link");
      if link.VStr? then Ok(Strings.AfterLast(link.s, '/') in milestones) else Err(AttributeError("split"))
  }

  /** `task.importance in importance`. */
  function ImportanceTest(importance: seq<string>): Doc -> Result<bool> {
    task => var i :- Attr(task, "importance"); Ok(i in VStrs(importance))
  }

  /** The tags of `task.bug`, which must be iterable for `set()`. */
  function TaskTags(task: Doc): (r: Result<seq<Value>>)
    ensures r.Ok? <==> "bug" in task && Member(task["bug"], "tags").Ok? && Iterate(Member(task["bug"], "tags").value).Ok?
  {
    var bug :- Attr(task, "bug");
    var tags :- Member(bug, "tags");
    Iterate(tags)
  }

  /** `set(task.bug.tags).intersection(set(tags))` is not empty. */
  function SharedTagTest(tags: seq<string>): Doc -> Result<bool> {
    task => var own :- TaskTags(task); Ok(exists t :: t in own && t in VStrs(tags))
  }

  /** `set(task.bug.tags).difference(set(tags))` is not empty. */
  function OtherTagTest(tags: seq<string>): Doc -> Result<bool> {
    task => var own :- TaskTags(task); Ok(exists t :: t in own && t !in VStrs(tags))
  }

  /** The successive comprehensions of `LaunchpadData.get_bugs` over the
      tasks the tracker's search returned. */
  function PrivateSelection(tasks: seq<Doc>, statuses: seq<string>, milestones: seq<string>, tags: seq<string>,
                            importance: seq<string>, condition: bool): Result<seq<Doc>> {
    var byStatus :- Sift(tasks, StatusTest(statuses));
    var byMilestone :- if milestones != [] then Sift(byStatus, MilestoneTest(milestones)) else Ok(byStatus);
    var byImportance :- if importance != [] then Sift(byMilestone, ImportanceTest(importance)) else Ok(byMilestone);
    if tags != [] then Sift(byImportance, if condition then OtherTagTest(tags) else SharedTagTest(tags))
    else Ok(byImportance)
  }

  /** `[Bug(self.serialize_private(bug)) for bug in result_bugs]`. */
  function SerializeAll(tasks: seq<Doc>, th: SyncUtil.Thresholds): (r: Result<seq<Doc>>)
    ensures r.Ok? ==> |r.value| == |tasks|
  {
    if tasks == [] then Ok([])
    else
      var pre :- SerializeAll(tasks[..|tasks| - 1], th);
      var doc :- SyncUtil.SerializeBug(tasks[|tasks| - 1], None, th);
      Ok(pre + [LpBug.CopiedAttrs(doc, LpBug.FieldsToCopy)])
  }

  /** `LaunchpadData.get_bugs(...)` over the tracker's search results. */
  function PrivateGetBugs(tasks: seq<Doc>, statuses: seq<string>, milestones: seq<string>, tags: seq<string>,
                          importance: seq<string>, condition: bool, th: SyncUtil.Thresholds): Result<seq<Doc>> {
    var selected :- PrivateSelection(tasks, statuses, milestones, tags, importance, condition);
    SerializeAll(selected, th)
  }

  /** A task the authenticated search keeps, stated on the bug task. */
  predicate PrivateSelected(task: Doc, statuses: seq<string>, milestones: seq<string>, tags: seq<string>,
                            importance: seq<string>, condition: bool) {
    StatusTest(statuses)(task) == Ok(true) &&
    (milestones != [] ==> MilestoneTest(milestones)(task) == Ok(true)) &&
    (importance != [] ==> ImportanceTest(importance)(task) == Ok(true)) &&
    (tags != [] && condition ==> OtherTagTest(tags)(task) == Ok(true)) &&
    (tags != [] && !condition ==> SharedTagTest(tags)(task) == Ok(true))
  }

  /** One optional comprehension stage: without error it keeps exactly the
      passing elements, in order. */
  lemma StageKeeps(xs: seq<Doc>, active: bool, p: Doc -> Result<bool>, r: Result<seq<Doc>>)
    requires r == (if active then Sift(xs, p) else Ok(xs)) && r.Ok?
    ensures Subsequence(r.value, xs)
    ensures forall x :: x in r.value <==> x in xs && (active ==> p(x) == Ok(true))
  {
    if active {
      SiftFails(xs, p);
      SiftKeeps(xs, p);
    } else {
      SubsequenceRefl(xs);
    }
  }

  /** When no test raises, the authenticated search keeps, in order,
      exactly the tasks whose status is listed, whose milestone (the last
      segment of its link) is listed when milestones are given, whose
      importance is listed when a list is given, and whose bug's tags share
      one of the given tags (with `condition`: include one outside them). */
  lemma PrivateSelectionKeeps(tasks: seq<Doc>, statuses: seq<string>, milestones: seq<string>, tags: seq<string>,
                              importance: seq<string>, condition: bool)
    requires PrivateSelection(tasks, statuses, milestones, tags, importance, condition).Ok?
    ensures var r := PrivateSelection(tasks, statuses, milestones, tags, importance, condition).value;
      Subsequence(r, tasks) &&
      forall t :: t in r <==> t in tasks && PrivateSelected(t, statuses, milestones, tags, importance, condition)
  {
    var s1 := Sift(tasks, StatusTest(statuses));
    StageKeeps(tasks, true, StatusTest(statuses), s1);
    var s2 := if milestones != [] then Sift(s1.value, MilestoneTest(milestones)) else Ok(s1.value);
    StageKeeps(s1.value, milestones != [], MilestoneTest(milestones), s2);
    var s3 := if importance != [] then Sift(s2.value, ImportanceTest(importance)) else Ok(s2.value);
    StageKeeps(s2.value, importance != [], ImportanceTest(importance), s3);
    var tagTest := if condition then OtherTagTest(tags) else SharedTagTest(tags);
    var s4 := if tags != [] then Sift(s3.value, tagTest) else Ok(s3.value);
    StageKeeps(s3.value, tags != [], tagTest, s4);
    SubsequenceTrans(s2.value, s1.value, tasks);
    SubsequenceTrans(s3.value, s2.value, tasks);
    SubsequenceTrans(s4.value, s3.value, tasks);
  }

  // ---------------------------------------------------------------------
  // common_milestone

  /** `list(set(a) & set(b))`, listed in the order of first appearance in
      `a`. */
  function CommonMilestone(a: seq<string>, b: seq<string>): (r: seq<string>)
    ensures forall x :: x in r <==> x in a && x in b
    ensures forall i, j :: 0 <= i < j < |r| ==> r[i] != r[j]
  {
    if a == [] then []
    else
      var pre := CommonMilestone(a[..|a| - 1], b);
      var x := a[|a| - 1];
      assert a == a[..|a| - 1] + [x];
      if x in b && x !in pre then pre + [x] else pre
  }

  // ---------------------------------------------------------------------
  // bugs_ids

  /** The ids of wrapped bugs, in order. */
  function Ids(bugs: seq<Doc>): (r: seq<Value>)
    ensures |r| == |bugs| && forall i :: 0 <= i < |bugs| ==> r[i] == Get(bugs[i], "id")
  {
    if bugs == [] then [] else Ids(bugs[..|bugs| - 1]) + [Get(bugs[|bugs| - 1], "id")]
  }

  /** `len(list(set(ids)))`. */
  function DistinctCount(ids: seq<Value>): nat {
    |set x | x in ids|
  }

  /** There are never more distinct ids than ids. */
  lemma {:induction false} DistinctCountBound(ids: seq<Value>)
    ensures DistinctCount(ids) <= |ids|
    ensures ids != [] ==> DistinctCount(ids) >= 1
  {
    if ids != [] {
      var pre := ids[..|ids| - 1];
      var x := ids[|ids| - 1];
      DistinctCountBound(pre);
      assert ids == pre + [x];
      assert (set y | y in ids) == (set y | y in pre) + {x};
      assert x in (set y | y in ids);
    }
  }

  /** `count(milestone, tag, bug_type, importance)` inside `bugs_ids`: the
      fuel and mos bugs of the status group and the number of their
      distinct ids. */
  method Count(db: Store.Collections, statuses: seq<string>, milestone: Value, tags: seq<string>, importance: seq<string>)
    returns (n: nat)
    ensures var fuel := AnonymousGetBugs(db, "fuel", statuses, milestone, tags, importance, false);
      var mos := AnonymousGetBugs(db, "mos", statuses, milestone, tags, importance, false);
      n == DistinctCount(Ids(fuel) + Ids(mos)) && n <= |fuel| + |mos|
  {
    var fuel := AnonymousGetBugs(db, "fuel", statuses, milestone, tags, importance, false);
    var mos := AnonymousGetBugs(db, "mos", statuses, milestone, tags, importance, false);
    n := CountIds(fuel, mos);
  }

  /** The ids of both lists collected in one list, and the number of
      distinct ones. */
  method CountIds(fuel: seq<Doc>, mos: seq<Doc>) returns (n: nat)
    ensures n == DistinctCount(Ids(fuel) + Ids(mos)) && n <= |fuel| + |mos|
  {
    var ids: seq<Value> := [];
    var i := 0;
    while i < |fuel|
      invariant 0 <= i <= |fuel| && ids == Ids(fuel[..i])
    {
      assert fuel[..i + 1][..i] == fuel[..i];
      ids := ids + [Get(fuel[i], "id")];
      i := i + 1;
    }
    assert fuel[..i] == fuel;
    var j := 0;
    while j < |mos|
      invariant 0 <= j <= |mos| && ids == Ids(fuel) + Ids(mos[..j])
    {
      assert mos[..j + 1][..j] == mos[..j];
      ids := ids + [Get(mos[j], "id")];
      j := j + 1;
    }
    assert mos[..j] == mos;
    DistinctCountBound(ids);
    n := |set x | x in ids|;
  }

  /** The three counts `bugs_ids` returns. */
  datatype IdCounts = IdCounts(done: nat, total: nat, high: nat)

  /** `bugs_ids(tag, milestone)`: distinct closed bugs, all bugs, and
      unfinished critical or high bugs, over fuel and mos. */
  method BugsIds(db: Store.Collections, tags: seq<string>, milestone: Value) returns (r: IdCounts)
    ensures r.done == DistinctCount(Ids(AnonymousGetBugs(db, "fuel", Statuses.Closed, milestone, tags, [], false)) +
                                    Ids(AnonymousGetBugs(db, "mos", Statuses.Closed, milestone, tags, [], false)))
    ensures r.total == DistinctCount(Ids(AnonymousGetBugs(db, "fuel", Statuses.All, milestone, tags, [], false)) +
                                     Ids(AnonymousGetBugs(db, "mos", Statuses.All, milestone, tags, [], false)))
    ensures r.high == DistinctCount(Ids(AnonymousGetBugs(db, "fuel", Statuses.NotDone, milestone, tags, ["Critical", "High"], false)) +
                                    Ids(AnonymousGetBugs(db, "mos", Statuses.NotDone, milestone, tags, ["Critical", "High"], false)))
  {
    var done := Count(db, Statuses.Closed, milestone, tags, []);
    var total := Count(db, Statuses.All, milestone, tags, []);
    var high := Count(db, Statuses.NotDone, milestone, tags, ["Critical", "High"]);
    r := IdCounts(done, total, high);
  }

  /** The closed bugs are among all bugs of the same query, so `done` never
      exceeds `total`; nor do the unfinished critical and high ones. */
  lemma BugsIdsBounded(db: Store.Collections, tags: seq<string>, milestone: Value)
    ensures CountOf(db, Statuses.Closed, milestone, tags, []) <= CountOf(db, Statuses.All, milestone, tags, [])
    ensures CountOf(db, Statuses.NotDone, milestone, tags, ["Critical", "High"]) <= CountOf(db, Statuses.All, milestone, tags, [])
  {
    Statuses.GroupInclusions();
    CountMonotone(db, Statuses.Closed, Statuses.All, milestone, tags, []);
    CountMonotone(db, Statuses.NotDone, Statuses.All, milestone, tags, ["Critical", "High"]);
  }

  /** The number `count` returns for one status group. */
  function CountOf(db: Store.Collections, statuses: seq<string>, milestone: Value, tags: seq<string>, importance: seq<string>): nat {
    DistinctCount(Ids(AnonymousGetBugs(db, "fuel", statuses, milestone, tags, importance, false)) +
                  Ids(AnonymousGetBugs(db, "mos", statuses, milestone, tags, importance, false)))
  }

  /** Widening the statuses and dropping the importance condition never
      lowers the count. */
  lemma CountMonotone(db: Store.Collections, narrow: seq<string>, wide: seq<string>, milestone: Value, tags: seq<string>, importance: seq<string>)
    requires Statuses.Subset(narrow, wide)
    ensures CountOf(db, narrow, milestone, tags, importance) <= CountOf(db, wide, milestone, tags, [])
  {
    var a := Ids(AnonymousGetBugs(db, "fuel", narrow, milestone, tags, importance, false)) +
             Ids(AnonymousGetBugs(db, "mos", narrow, milestone, tags, importance, false));
    var b := Ids(AnonymousGetBugs(db, "fuel", wide, milestone, tags, [], false)) +
             Ids(AnonymousGetBugs(db, "mos", wide, milestone, tags, [], false));
    IdsWithin(db, "fuel", narrow, wide, milestone, tags, importance);
    IdsWithin(db, "mos", narrow, wide, milestone, tags, importance);
    assert (set x | x in a) <= (set x | x in b);
    SubsetCard(set x | x in a, set x | x in b);
  }

  lemma SubsetCard<T>(a: set<T>, b: set<T>)
    requires a <= b
    ensures |a| <= |b|
  {
    assert b == a + (b - a);
  }

  /** Every id the narrower query finds in one project the wider one finds
      too. */
  lemma IdsWithin(db: Store.Collections, project: string, narrow: seq<string>, wide: seq<string>, milestone: Value,
                  tags: seq<string>, importance: seq<string>)
    requires Statuses.Subset(narrow, wide)
    ensures forall x :: x in Ids(AnonymousGetBugs(db, project, narrow, milestone, tags, importance, false)) ==>
      x in Ids(AnonymousGetBugs(db, project, wide, milestone, tags, [], false))
  {
    AnonymousGetBugsSelects(db, project, narrow, milestone, tags, importance, false);
    AnonymousGetBugsSelects(db, project, wide, milestone, tags, [], false);
    var f1 := Find(Store.Coll(db, project), Search(narrow, milestone, tags, importance, false));
    var f2 := Find(Store.Coll(db, project), Search(wide, milestone, tags, [], false));
    forall d | d in f1 ensures d in f2 {
      StatusWithin(d, narrow, wide);
    }
    WrappedIdsWithin(f1, f2);
  }

  /** Wrapping keeps the ids of a sub-collection among those of the whole. */
  lemma WrappedIdsWithin(f1: seq<Doc>, f2: seq<Doc>)
    requires forall d :: d in f1 ==> d in f2
    ensures forall x :: x in Ids(Wrap(f1)) ==> x in Ids(Wrap(f2))
  {
    forall x | x in Ids(Wrap(f1)) ensures x in Ids(Wrap(f2)) {
      var i :| 0 <= i < |f1| && Ids(Wrap(f1))[i] == x;
      assert f1[i] in f1;
      var j :| 0 <= j < |f2| && f2[j] == f1[i];
      assert Ids(Wrap(f2))[j] == x;
    }
  }

  lemma StatusWithin(d: Doc, narrow: seq<string>, wide: seq<string>)
    requires Statuses.Subset(narrow, wide) && FieldIn(d, "status", VStrs(narrow))
    ensures FieldIn(d, "status", VStrs(wide))
  {
    forall v | v in VStrs(narrow) ensures v in VStrs(wide) {
      var i :| 0 <= i < |narrow| && VStrs(narrow)[i] == v;
      assert narrow[i] in wide;
      var j :| 0 <= j < |wide| && wide[j] == narrow[i];
      assert VStrs(wide)[j] == v;
    }
  }

  // ---------------------------------------------------------------------
  // filter_bugs: the report's team tables narrowed in place

  /** The bounds of one date filter, parsed from `<state>_from` and
      `<state>_to` (seconds since the epoch). */
  datatype Bounds = Bounds(from: Option<int>, to: Option<int>)

  /** The request's filters: the membership lists (empty = inactive) and
      the bounds of the four dated states. */
  datatype Filters = Filters(status: seq<string>, importance: seq<string>, criteria: seq<string>, tags: seq<string>,
                             assignee: seq<string>, created: Bounds, triaged: Bounds, fixCommitted: Bounds,
                             fixReleased: Bounds)

  /** `date_state`, in order. */
  const DateStates: seq<string> := ["created", "triaged", "fix_committed", "fix_released"]

  function BoundsAt(f: Filters, k: nat): Bounds
    requires k < 4
  {
    if k == 0 then f.created else if k == 1 then f.triaged else if k == 2 then f.fixCommitted else f.fixReleased
  }

  /** `'date_{0}'.format(state)`. */
  function DateAttr(k: nat): string
    requires k < 4
  {
    "date_" + DateStates[k]
  }

  /** `getattr(b, parameter) in filters[parameter]`. */
  function FieldTest(parameter: string, allowed: seq<string>): Doc -> Result<bool> {
    b => var v :- Attr(b, parameter); Ok(v in VStrs(allowed))
  }

  /** `set(getattr(b, 'tags')) & set(filters['tags'])` is not empty. */
  function TagTest(tags: seq<string>): Doc -> Result<bool> {
    b =>
      var v :- Attr(b, "tags");
      var own :- Iterate(v);
      Ok(exists t :: t in own && t in VStrs(tags))
  }

  /** `_filter(bugs, parameter)`. */
  method FilterField(bugs: seq<Doc>, parameter: string, allowed: seq<string>) returns (r: Result<seq<Doc>>)
    ensures r == Sift(bugs, FieldTest(parameter, allowed))
  {
    var filtered: seq<Doc> := [];
    var i := 0;
    while i < |bugs|
      invariant 0 <= i <= |bugs| && Sift(bugs[..i], FieldTest(parameter, allowed)) == Ok(filtered)
    {
      SiftSnoc(bugs, i, FieldTest(parameter, allowed));
      var v := Attr(bugs[i], parameter);
      if v.Err? {
        SiftStops(bugs, i + 1, FieldTest(parameter, allowed));
        return Err(v.error);
      }
      if v.value in VStrs(allowed) {
        filtered := filtered + [bugs[i]];
      }
      i := i + 1;
    }
    assert bugs[..i] == bugs;
    r := Ok(filtered);
  }

  /** The tag loop of `filter_bugs`. */
  method FilterTags(bugs: seq<Doc>, tags: seq<string>) returns (r: Result<seq<Doc>>)
    ensures r == Sift(bugs, TagTest(tags))
  {
    var filtered: seq<Doc> := [];
    var i := 0;
    while i < |bugs|
      invariant 0 <= i <= |bugs| && Sift(bugs[..i], TagTest(tags)) == Ok(filtered)
    {
      SiftSnoc(bugs, i, TagTest(tags));
      var v := Attr(bugs[i], "tags");
      if v.Err? {
        SiftStops(bugs, i + 1, TagTest(tags));
        return Err(v.error);
      }
      var own := Iterate(v.value);
      if own.Err? {
        SiftStops(bugs, i + 1, TagTest(tags));
        return Err(own.error);
      }
      if exists t :: t in own.value && t in VStrs(tags) {
        filtered := filtered + [bugs[i]];
      }
      i := i + 1;
    }
    assert bugs[..i] == bugs;
    r := Ok(filtered);
  }

  /** A dictionary given by its entries in iteration order: a team's lead
      (or the team's name) and its members. */
  type Entries = seq<(string, seq<string>)>

  predicate HasKey(e: Entries, k: string) {
    exists i :: 0 <= i < |e| && e[i].0 == k
  }

  predicate DistinctKeys(e: Entries) {
    forall i, j :: 0 <= i < j < |e| ==> e[i].0 != e[j].0
  }

  /** `d[k] = v`: an existing key keeps its place, a new one goes last. */
  function Put(e: Entries, k: string, v: seq<string>): (r: Entries)
    ensures |r| == |e| || |r| == |e| + 1
    ensures forall i :: 0 <= i < |e| ==> r[i] == (if e[i].0 == k then (k, v) else e[i])
    ensures HasKey(e, k) ==> |r| == |e|
    ensures !HasKey(e, k) ==> r == e + [(k, v)]
  {
    if e == [] then [(k, v)]
    else
      var pre := Put(e[..|e| - 1], k, v);
      var last := e[|e| - 1];
      assert HasKey(e, k) <==> HasKey(e[..|e| - 1], k) || last.0 == k;
      if !HasKey(e[..|e| - 1], k) then
        if last.0 == k then e[..|e| - 1] + [(k, v)] else e + [(k, v)]
      else pre + [if last.0 == k then (k, v) else last]
  }

  /** `d.update(other)`. */
  function Update(e: Entries, other: Entries): Entries {
    if other == [] then e
    else Put(Update(e, other[..|other| - 1]), other[|other| - 1].0, other[|other| - 1].1)
  }

  /** `new_teams_data`: every team's dictionary merged in turn. */
  function Merged(teamsData: seq<Entries>): Entries {
    if teamsData == [] then [] else Update(Merged(teamsData[..|teamsData| - 1]), teamsData[|teamsData| - 1])
  }

  /** Putting a key keeps the keys distinct and adds exactly that key. */
  lemma PutKeys(e: Entries, k: string, v: seq<string>)
    requires DistinctKeys(e)
    ensures DistinctKeys(Put(e, k, v))
    ensures forall n :: HasKey(Put(e, k, v), n) <==> HasKey(e, n) || n == k
  {
    var r := Put(e, k, v);
    if HasKey(e, k) {
      assert forall i :: 0 <= i < |r| ==> r[i].0 == e[i].0;
    } else {
      assert forall i :: 0 <= i < |e| ==> r[i] == e[i];
      assert r[|e|].0 == k;
    }
  }

  /** The merged dictionary has distinct keys, and its keys are the keys
      of all the teams' dictionaries. */
  lemma {:induction false} MergedKeys(teamsData: seq<Entries>)
    ensures DistinctKeys(Merged(teamsData))
    ensures forall n :: HasKey(Merged(teamsData), n) <==> exists t :: 0 <= t < |teamsData| && HasKey(teamsData[t], n)
  {
    if teamsData != [] {
      var pre := teamsData[..|teamsData| - 1];
      MergedKeys(pre);
      UpdateKeys(Merged(pre), teamsData[|teamsData| - 1]);
      forall n ensures HasKey(Merged(teamsData), n) <==> exists t :: 0 <= t < |teamsData| && HasKey(teamsData[t], n) {
        if exists t :: 0 <= t < |teamsData| && HasKey(teamsData[t], n) {
          var t :| 0 <= t < |teamsData| && HasKey(teamsData[t], n);
          if t < |pre| {
            assert pre[t] == teamsData[t];
          }
        }
        if exists t :: 0 <= t < |pre| && HasKey(pre[t], n) {
          var t :| 0 <= t < |pre| && HasKey(pre[t], n);
          assert teamsData[t] == pre[t];
        }
      }
    }
  }

  lemma {:induction false} UpdateKeys(e: Entries, other: Entries)
    requires DistinctKeys(e)
    ensures DistinctKeys(Update(e, other))
    ensures forall n :: HasKey(Update(e, other), n) <==> HasKey(e, n) || HasKey(other, n)
  {
    if other != [] {
      var pre := other[..|other| - 1];
      var last := other[|other| - 1];
      UpdateKeys(e, pre);
      PutKeys(Update(e, pre), last.0, last.1);
      assert other == pre + [last];
      HasKeySnoc(pre, last);
    }
  }

  lemma HasKeySnoc(e: Entries, x: (string, seq<string>))
    ensures forall n :: HasKey(e + [x], n) <==> HasKey(e, n) || n == x.0
  {
    forall n | HasKey(e, n) ensures HasKey(e + [x], n) {
      var i :| 0 <= i < |e| && e[i].0 == n;
      assert (e + [x])[i].0 == n;
    }
    assert (e + [x])[|e|].0 == x.0;
  }

  /** The assignee is in `all_people`: a key of the merged dictionary or
      one of its members. */
  predicate Known(e: Entries, a: Value) {
    exists i :: 0 <= i < |e| && (a == VStr(e[i].0) || a in VStrs(e[i].1))
  }

  /** Some selected key of the merged dictionary names the assignee or
      lists them among its members. */
  predicate Chosen(e: Entries, selected: seq<string>, a: Value) {
    exists i :: 0 <= i < |e| && e[i].0 in selected && (a == VStr(e[i].0) || a in VStrs(e[i].1))
  }

  /** `b.assignee` is read only when `'unknown'` is selected or some key of
      the merged dictionary is. */
  predicate ReadsAssignee(e: Entries, selected: seq<string>) {
    "unknown" in selected || exists i :: 0 <= i < |e| && e[i].0 in selected
  }

  /** Whether the assignee loop appends a bug. */
  function AssigneeTest(e: Entries, selected: seq<string>): Doc -> Result<bool> {
    b =>
      if !ReadsAssignee(e, selected) then Ok(false)
      else
        var a :- Attr(b, "assignee");
        Ok(("unknown" in selected && !Known(e, a)) || Chosen(e, selected, a))
  }

  /** The assignee loop over one bug: appended for an unknown assignee,
      then at the first selected entry that names them, and never twice. */
  method KeepAssignee(b: Doc, e: Entries, selected: seq<string>) returns (r: Result<bool>)
    ensures r == AssigneeTest(e, selected)(b)
  {
    var added := false;
    if "unknown" in selected {
      if "assignee" !in b {
        return Err(AttributeError("assignee"));
      }
      if !Known(e, b["assignee"]) {
        added := true;
      }
    }
    var i := 0;
    while i < |e|
      invariant 0 <= i <= |e|
      invariant "unknown" !in selected && (exists j :: 0 <= j < i && e[j].0 in selected) ==> "assignee" in b
      invariant !("unknown" in selected || exists j :: 0 <= j < i && e[j].0 in selected) ==> !added
      invariant ("unknown" in selected || exists j :: 0 <= j < i && e[j].0 in selected) ==>
        "assignee" in b &&
        (added <==> ("unknown" in selected && !Known(e, b["assignee"])) ||
                    exists j :: 0 <= j < i && e[j].0 in selected && (b["assignee"] == VStr(e[j].0) || b["assignee"] in VStrs(e[j].1)))
    {
      var (name, members) := e[i];
      if name in selected {
        if "assignee" !in b {
          return Err(AttributeError("assignee"));
        }
        if (b["assignee"] == VStr(name) || b["assignee"] in VStrs(members)) && !added {
          added := true;
        }
      }
      i := i + 1;
    }
    r := Ok(added);
  }

  /** The assignee loop of `filter_bugs` (`newbugs`). */
  method FilterAssignee(bugs: seq<Doc>, e: Entries, selected: seq<string>) returns (r: Result<seq<Doc>>)
    ensures r == Sift(bugs, AssigneeTest(e, selected))
  {
    var newbugs: seq<Doc> := [];
    var i := 0;
    while i < |bugs|
      invariant 0 <= i <= |bugs| && Sift(bugs[..i], AssigneeTest(e, selected)) == Ok(newbugs)
    {
      SiftSnoc(bugs, i, AssigneeTest(e, selected));
      var keep := KeepAssignee(bugs[i], e, selected);
      if keep.Err? {
        SiftStops(bugs, i + 1, AssigneeTest(e, selected));
        return Err(keep.error);
      }
      if keep.value {
        newbugs := newbugs + [bugs[i]];
      }
      i := i + 1;
    }
    assert bugs[..i] == bugs;
    r := Ok(newbugs);
  }

  /** The dates of a bug from state `k` on, checked against the filters:
      a present date must lie within the bounds that are set, an absent one
      must have none set; the first failing state ends the check. A value
      that is neither `None` nor a date cannot be compared with a bound. */
  function DatesFrom(bug: Doc, f: Filters, k: nat): Result<bool>
    requires k <= 4
    decreases 4 - k
  {
    if k == 4 then Ok(true)
    else
      var v :- Attr(bug, DateAttr(k));
      var b := BoundsAt(f, k);
      if v.VNone? then
        if b.from.Some? || b.to.Some? then Ok(false) else DatesFrom(bug, f, k + 1)
      else if b.from.Some? && !v.VDate? then Err(TypeError("compare"))
      else if b.from.Some? && v.t < b.from.value then Ok(false)
      else if b.to.Some? && !v.VDate? then Err(TypeError("compare"))
      else if b.to.Some? && v.t > b.to.value then Ok(false)
      else DatesFrom(bug, f, k + 1)
  }

  function DateTest(f: Filters): Doc -> Result<bool> {
    bug => DatesFrom(bug, f, 0)
  }

  /** The inner loop of the date filter (`satisfies`, with its `break`). */
  method Satisfies(bug: Doc, f: Filters) returns (r: Result<bool>)
    ensures r == DatesFrom(bug, f, 0)
  {
    var k := 0;
    while k < 4
      invariant 0 <= k <= 4 && DatesFrom(bug, f, 0) == DatesFrom(bug, f, k)
    {
      var v := Attr(bug, DateAttr(k));
      if v.Err? {
        return Err(v.error);
      }
      var b := BoundsAt(f, k);
      var date := v.value;
      if !date.VNone? {
        if b.from.Some? {
          if !date.VDate? {
            return Err(TypeError("compare"));
          }
          if date.t < b.from.value {
            return Ok(false);
          }
        }
        if b.to.Some? {
          if !date.VDate? {
            return Err(TypeError("compare"));
          }
          if date.t > b.to.value {
            return Ok(false);
          }
        }
      } else if b.from.Some? || b.to.Some? {
        return Ok(false);
      }
      k := k + 1;
    }
    r := Ok(true);
  }

  /** The date loop of `filter_bugs`. */
  method FilterDates(bugs: seq<Doc>, f: Filters) returns (r: Result<seq<Doc>>)
    ensures r == Sift(bugs, DateTest(f))
  {
    var filtered: seq<Doc> := [];
    var i := 0;
    while i < |bugs|
      invariant 0 <= i <= |bugs| && Sift(bugs[..i], DateTest(f)) == Ok(filtered)
    {
      SiftSnoc(bugs, i, DateTest(f));
      var ok := Satisfies(bugs[i], f);
      if ok.Err? {
        SiftStops(bugs, i + 1, DateTest(f));
        return Err(ok.error);
      }
      if ok.value {
        filtered := filtered + [bugs[i]];
      }
      i := i + 1;
    }
    assert bugs[..i] == bugs;
    r := Ok(filtered);
  }

  /** One dated state as the date filter accepts it: the attribute exists
      and, when a bound is set, it is a date within every bound set. */
  predicate StateWithin(bug: Doc, f: Filters, k: nat)
    requires k < 4
  {
    var b := BoundsAt(f, k);
    DateAttr(k) in bug &&
    ((b.from.None? && b.to.None?) ||
     (bug[DateAttr(k)].VDate? && (b.from.Some? ==> bug[DateAttr(k)].t >= b.from.value) &&
                                 (b.to.Some? ==> bug[DateAttr(k)].t <= b.to.value)))
  }

  /** The date filter keeps a bug exactly when every one of the four
      states is within its bounds: a present date lies within the bounds
      that are set, an absent date has none set. */
  lemma DatesWithin(bug: Doc, f: Filters)
    ensures DatesFrom(bug, f, 0) == Ok(true) <==> forall k :: 0 <= k < 4 ==> StateWithin(bug, f, k)
  {
    DatesWithinFrom(bug, f, 0);
  }

  lemma {:induction false} DatesWithinFrom(bug: Doc, f: Filters, k: nat)
    requires k <= 4
    ensures DatesFrom(bug, f, k) == Ok(true) <==> forall j :: k <= j < 4 ==> StateWithin(bug, f, j)
    decreases 4 - k
  {
    if k < 4 {
      DatesWithinFrom(bug, f, k + 1);
      if StateWithin(bug, f, k) {
        assert DatesFrom(bug, f, k) == DatesFrom(bug, f, k + 1);
      } else {
        assert DatesFrom(bug, f, k) != Ok(true);
      }
    }
  }

  /** `Sift` when the stage is active, the bugs unchanged otherwise. */
  function Staged(bugs: seq<Doc>, active: bool, p: Doc -> Result<bool>): Result<seq<Doc>> {
    if active then Sift(bugs, p) else Ok(bugs)
  }

  /** The membership stages of one team: status, importance and criteria,
      each only with a non-empty filter list. The result is the bug list
      after the last stage that completed, with the exception that stopped
      the next one. */
  function FieldStages(bugs: seq<Doc>, f: Filters): (seq<Doc>, Option<Error>) {
    var s1 := Staged(bugs, f.status != [], FieldTest("status", f.status));
    if s1.Err? then (bugs, Some(s1.error)) else
    var s2 := Staged(s1.value, f.importance != [], FieldTest("importance", f.importance));
    if s2.Err? then (s1.value, Some(s2.error)) else
    var s3 := Staged(s2.value, f.criteria != [], FieldTest("criteria", f.criteria));
    if s3.Err? then (s2.value, Some(s3.error)) else (s3.value, None)
  }

  /** The later stages: tags and assignee, each only with a non-empty
      filter list, and the date filter always. */
  function LaterStages(bugs: seq<Doc>, f: Filters, teamsData: seq<Entries>): (seq<Doc>, Option<Error>) {
    var s4 := Staged(bugs, f.tags != [], TagTest(f.tags));
    if s4.Err? then (bugs, Some(s4.error)) else
    var s5 := Staged(s4.value, f.assignee != [], AssigneeTest(Merged(teamsData), f.assignee));
    if s5.Err? then (s4.value, Some(s5.error)) else
    var s6 := Sift(s5.value, DateTest(f));
    if s6.Err? then (s5.value, Some(s6.error)) else (s6.value, None)
  }

  /** All stages of one team in order. */
  function TeamPipeline(bugs: seq<Doc>, f: Filters, teamsData: seq<Entries>): (seq<Doc>, Option<Error>) {
    var h := FieldStages(bugs, f);
    if h.1.Some? then h else LaterStages(h.0, f, teamsData)
  }

  /** `new_teams_data`, built as the loop over `teams_data.values()` does. */
  method MergeTeams(teamsData: seq<Entries>) returns (merged: Entries)
    ensures merged == Merged(teamsData)
  {
    merged := [];
    var t := 0;
    while t < |teamsData|
      invariant 0 <= t <= |teamsData| && merged == Merged(teamsData[..t])
    {
      assert teamsData[..t + 1][..t] == teamsData[..t];
      var x := teamsData[t];
      ghost var before := merged;
      var j := 0;
      while j < |x|
        invariant 0 <= j <= |x| && merged == Update(before, x[..j])
      {
        assert x[..j + 1][..j] == x[..j];
        merged := Put(merged, x[j].0, x[j].1);
        j := j + 1;
      }
      assert x[..j] == x;
      t := t + 1;
    }
    assert teamsData[..t] == teamsData;
  }

  /** The membership filters of `filter_bugs` over one team's bugs. */
  method FilterFields(bugs: seq<Doc>, f: Filters) returns (out: seq<Doc>, err: Option<Error>)
    ensures (out, err) == FieldStages(bugs, f)
  {
    out := bugs;
    var r: Result<seq<Doc>>;
    if f.status != [] {
      r := FilterField(out, "status", f.status);
      if r.Err? { return out, Some(r.error); }
      out := r.value;
    }
    if f.importance != [] {
      r := FilterField(out, "importance", f.importance);
      if r.Err? { return out, Some(r.error); }
      out := r.value;
    }
    if f.criteria != [] {
      r := FilterField(out, "criteria", f.criteria);
      if r.Err? { return out, Some(r.error); }
      out := r.value;
    }
    err := None;
  }

  /** The tag, assignee and date filters of `filter_bugs` over one team's
      bugs. */
  method FilterLater(bugs: seq<Doc>, f: Filters, teamsData: seq<Entries>) returns (out: seq<Doc>, err: Option<Error>)
    ensures (out, err) == LaterStages(bugs, f, teamsData)
  {
    out := bugs;
    var r: Result<seq<Doc>>;
    if f.tags != [] {
      r := FilterTags(out, f.tags);
      if r.Err? { return out, Some(r.error); }
      out := r.value;
    }
    if f.assignee != [] {
      var merged := MergeTeams(teamsData);
      r := FilterAssignee(out, merged, f.assignee);
      if r.Err? { return out, Some(r.error); }
      out := r.value;
    }
    r := FilterDates(out, f);
    if r.Err? { return out, Some(r.error); }
    out := r.value;
    err := None;
  }

  /** The stages of `filter_bugs` over one team's bugs. */
  method FilterTeam(bugs: seq<Doc>, f: Filters, teamsData: seq<Entries>) returns (out: seq<Doc>, err: Option<Error>)
    ensures (out, err) == TeamPipeline(bugs, f, teamsData)
  {
    out, err := FilterFields(bugs, f);
    if err.None? {
      out, err := FilterLater(out, f, teamsData);
    }
  }

  /** Every team in order through its stages; an exception leaves the
      teams after it untouched. */
  function FilterTeams(teams: seq<seq<Doc>>, f: Filters, teamsData: seq<Entries>): (r: (seq<seq<Doc>>, Option<Error>))
    ensures |r.0| == |teams|
  {
    if teams == [] then ([], None)
    else
      var pre := FilterTeams(teams[..|teams| - 1], f, teamsData);
      var last := teams[|teams| - 1];
      if pre.1.Some? then (pre.0 + [last], pre.1)
      else
        var team := TeamPipeline(last, f, teamsData);
        (pre.0 + [team.0], team.1)
  }

  /** `filter_bugs(bugs, filters, teams_data)`: each team's `bugs` list of
      `bugs["DATA"]` replaced by its filtered list. */
  method FilterBugs(data: array<seq<Doc>>, f: Filters, teamsData: seq<Entries>) returns (err: Option<Error>)
    modifies data
    ensures (data[..], err) == FilterTeams(old(data[..]), f, teamsData)
  {
    ghost var teams := data[..];
    var t := 0;
    while t < data.Length
      invariant 0 <= t <= data.Length
      invariant FilterTeams(teams[..t], f, teamsData).1.None?
      invariant data[..] == FilterTeams(teams[..t], f, teamsData).0 + teams[t..]
    {
      ghost var before := data[..];
      assert teams[t] == data[t];
      var out, e := FilterTeam(data[t], f, teamsData);
      data[t] := out;
      assert data[..] == before[t := out];
      Splice(FilterTeams(teams[..t], f, teamsData).0, teams[t..], out);
      assert teams[t..][1..] == teams[t + 1..];
      FilterTeamsStep(teams, f, teamsData, t);
      if e.Some? {
        FilterTeamsStops(teams, f, teamsData, t + 1);
        return e;
      }
      t := t + 1;
    }
    FilterTeamsDone(teams, f, teamsData);
    err := None;
  }

  lemma FilterTeamsDone(teams: seq<seq<Doc>>, f: Filters, teamsData: seq<Entries>)
    ensures FilterTeams(teams[..|teams|], f, teamsData).0 + teams[|teams|..] == FilterTeams(teams, f, teamsData).0
    ensures FilterTeams(teams[..|teams|], f, teamsData).1 == FilterTeams(teams, f, teamsData).1
  {
    assert teams[..|teams|] == teams && teams[|teams|..] == [];
    assert FilterTeams(teams, f, teamsData).0 + [] == FilterTeams(teams, f, teamsData).0;
  }

  /** Replacing the first element after a prefix. */
  lemma Splice<T>(done: seq<T>, rest: seq<T>, x: T)
    requires rest != []
    ensures (done + rest)[|done| := x] == (done + [x]) + rest[1..]
  {
  }

  lemma FilterTeamsStep(teams: seq<seq<Doc>>, f: Filters, teamsData: seq<Entries>, t: nat)
    requires t < |teams| && FilterTeams(teams[..t], f, teamsData).1.None?
    ensures FilterTeams(teams[..t + 1], f, teamsData) ==
      (FilterTeams(teams[..t], f, teamsData).0 + [TeamPipeline(teams[t], f, teamsData).0], TeamPipeline(teams[t], f, teamsData).1)
  {
    assert teams[..t + 1][..t] == teams[..t];
  }

  /** After an exception the remaining teams pass through unchanged. */
  lemma {:induction false} FilterTeamsStops(teams: seq<seq<Doc>>, f: Filters, teamsData: seq<Entries>, n: nat)
    requires n <= |teams| && FilterTeams(teams[..n], f, teamsData).1.Some?
    ensures FilterTeams(teams, f, teamsData) == (FilterTeams(teams[..n], f, teamsData).0 + teams[n..], FilterTeams(teams[..n], f, teamsData).1)
    decreases |teams|
  {
    if n < |teams| {
      var pre := teams[..|teams| - 1];
      assert pre[..n] == teams[..n];
      FilterTeamsStops(pre, f, teamsData, n);
      var head := FilterTeams(teams[..n], f, teamsData).0;
      assert teams[n..] == pre[n..] + [teams[|teams| - 1]];
      assert head + pre[n..] + [teams[|teams| - 1]] == head + teams[n..];
    } else {
      assert teams[..n] == teams && teams[n..] == [];
      assert FilterTeams(teams, f, teamsData).0 + [] == FilterTeams(teams, f, teamsData).0;
    }
  }

  /** The filters only remove bugs and keep their order, even when a stage
      raises. */
  lemma TeamPipelineOrder(bugs: seq<Doc>, f: Filters, teamsData: seq<Entries>)
    ensures Subsequence(TeamPipeline(bugs, f, teamsData).0, bugs)
  {
    FieldStagesOrder(bugs, f);
    var h := FieldStages(bugs, f);
    if h.1.None? {
      LaterStagesOrder(h.0, f, teamsData);
      SubsequenceTrans(TeamPipeline(bugs, f, teamsData).0, h.0, bugs);
    }
  }

  lemma FieldStagesOrder(bugs: seq<Doc>, f: Filters)
    ensures Subsequence(FieldStages(bugs, f).0, bugs)
  {
    SubsequenceRefl(bugs);
    var s1 := Staged(bugs, f.status != [], FieldTest("status", f.status));
    if s1.Err? { return; }
    StageKeeps(bugs, f.status != [], FieldTest("status", f.status), s1);
    var s2 := Staged(s1.value, f.importance != [], FieldTest("importance", f.importance));
    if s2.Err? { return; }
    StageKeeps(s1.value, f.importance != [], FieldTest("importance", f.importance), s2);
    SubsequenceTrans(s2.value, s1.value, bugs);
    var s3 := Staged(s2.value, f.criteria != [], FieldTest("criteria", f.criteria));
    if s3.Err? { return; }
    StageKeeps(s2.value, f.criteria != [], FieldTest("criteria", f.criteria), s3);
    SubsequenceTrans(s3.value, s2.value, bugs);
  }

  lemma LaterStagesOrder(bugs: seq<Doc>, f: Filters, teamsData: seq<Entries>)
    ensures Subsequence(LaterStages(bugs, f, teamsData).0, bugs)
  {
    SubsequenceRefl(bugs);
    var s4 := Staged(bugs, f.tags != [], TagTest(f.tags));
    if s4.Err? { return; }
    StageKeeps(bugs, f.tags != [], TagTest(f.tags), s4);
    var s5 := Staged(s4.value, f.assignee != [], AssigneeTest(Merged(teamsData), f.assignee));
    if s5.Err? { return; }
    StageKeeps(s4.value, f.assignee != [], AssigneeTest(Merged(teamsData), f.assignee), s5);
    SubsequenceTrans(s5.value, s4.value, bugs);
    var s6 := Sift(s5.value, DateTest(f));
    if s6.Err? { return; }
    StageKeeps(s5.value, true, DateTest(f), s6);
    SubsequenceTrans(s6.value, s5.value, bugs);
  }

  /** A bug passes the active membership stages. */
  predicate PassesFields(b: Doc, f: Filters) {
    (f.status != [] ==> FieldTest("status", f.status)(b) == Ok(true)) &&
    (f.importance != [] ==> FieldTest("importance", f.importance)(b) == Ok(true)) &&
    (f.criteria != [] ==> FieldTest("criteria", f.criteria)(b) == Ok(true))
  }

  /** A bug passes the active tag and assignee stages and the date stage. */
  predicate PassesLater(b: Doc, f: Filters, teamsData: seq<Entries>) {
    (f.tags != [] ==> TagTest(f.tags)(b) == Ok(true)) &&
    (f.assignee != [] ==> AssigneeTest(Merged(teamsData), f.assignee)(b) == Ok(true)) &&
    DatesFrom(b, f, 0) == Ok(true)
  }

  /** Without an exception a bug is kept exactly when it passes every
      active stage. */
  lemma TeamPipelineMembers(bugs: seq<Doc>, f: Filters, teamsData: seq<Entries>)
    requires TeamPipeline(bugs, f, teamsData).1.None?
    ensures forall b :: b in TeamPipeline(bugs, f, teamsData).0 <==>
      b in bugs && PassesFields(b, f) && PassesLater(b, f, teamsData)
  {
    var h := FieldStages(bugs, f);
    FieldStagesMembers(bugs, f);
    LaterStagesMembers(h.0, f, teamsData);
  }

  lemma FieldStagesMembers(bugs: seq<Doc>, f: Filters)
    requires FieldStages(bugs, f).1.None?
    ensures forall b :: b in FieldStages(bugs, f).0 <==> b in bugs && PassesFields(b, f)
  {
    var s1 := Staged(bugs, f.status != [], FieldTest("status", f.status));
    StageKeeps(bugs, f.status != [], FieldTest("status", f.status), s1);
    var s2 := Staged(s1.value, f.importance != [], FieldTest("importance", f.importance));
    StageKeeps(s1.value, f.importance != [], FieldTest("importance", f.importance), s2);
    var s3 := Staged(s2.value, f.criteria != [], FieldTest("criteria", f.criteria));
    StageKeeps(s2.value, f.criteria != [], FieldTest("criteria", f.criteria), s3);
  }

  lemma LaterStagesMembers(bugs: seq<Doc>, f: Filters, teamsData: seq<Entries>)
    requires LaterStages(bugs, f, teamsData).1.None?
    ensures forall b :: b in LaterStages(bugs, f, teamsData).0 <==> b in bugs && PassesLater(b, f, teamsData)
  {
    var s4 := Staged(bugs, f.tags != [], TagTest(f.tags));
    StageKeeps(bugs, f.tags != [], TagTest(f.tags), s4);
    var s5 := Staged(s4.value, f.assignee != [], AssigneeTest(Merged(teamsData), f.assignee));
    StageKeeps(s4.value, f.assignee != [], AssigneeTest(Merged(teamsData), f.assignee), s5);
    var s6 := Sift(s5.value, DateTest(f));
    StageKeeps(s5.value, true, DateTest(f), s6);
  }

  /** Each team's filtered list keeps the order of its original list and
      only removes bugs. */
  lemma {:induction false} FilterTeamsKeep(teams: seq<seq<Doc>>, f: Filters, teamsData: seq<Entries>)
    ensures forall t :: 0 <= t < |teams| ==> Subsequence(FilterTeams(teams, f, teamsData).0[t], teams[t])
  {
    if teams != [] {
      var pre := teams[..|teams| - 1];
      var last := teams[|teams| - 1];
      FilterTeamsKeep(pre, f, teamsData);
      TeamPipelineOrder(last, f, teamsData);
      SubsequenceRefl(last);
      forall t | 0 <= t < |teams| ensures Subsequence(FilterTeams(teams, f, teamsData).0[t], teams[t]) {
        if t < |pre| {
          assert FilterTeams(teams, f, teamsData).0[t] == FilterTeams(pre, f, teamsData).0[t];
          assert teams[t] == pre[t];
        }
      }
    }
  }

  /** With no filter set and every bug carrying its four date attributes,
      `filter_bugs` leaves a team's bugs as they are. */
  lemma NoFiltersKeepAll(bugs: seq<Doc>, f: Filters, teamsData: seq<Entries>)
    requires f.status == [] && f.importance == [] && f.criteria == [] && f.tags == [] && f.assignee == []
    requires f.created == f.triaged == f.fixCommitted == f.fixReleased == Bounds(None, None)
    requires forall i, k :: 0 <= i < |bugs| && 0 <= k < 4 ==> DateAttr(k) in bugs[i]
    ensures TeamPipeline(bugs, f, teamsData) == (bugs, None)
  {
    forall i | 0 <= i < |bugs| ensures DateTest(f)(bugs[i]) == Ok(true) {
      DatesWithin(bugs[i], f);
    }
    SiftAll(bugs, DateTest(f));
  }

  /** The assignee filter keeps a bug exactly when `'unknown'` is selected
      and the assignee is nobody in the merged teams, or a selected team
      key names the assignee or lists them; a bug is kept at most once. */
  lemma AssigneeKeeps(bugs: seq<Doc>, teamsData: seq<Entries>, selected: seq<string>)
    requires forall i :: 0 <= i < |bugs| ==> "assignee" in bugs[i]
    ensures var e := Merged(teamsData);
      var r := Sift(bugs, AssigneeTest(e, selected));
      r.Ok? && Subsequence(r.value, bugs) &&
      forall b :: b in r.value <==> (b in bugs &&
        (("unknown" in selected && !Known(e, b["assignee"])) || Chosen(e, selected, b["assignee"])))
  {
    var e := Merged(teamsData);
    SiftKeeps(bugs, AssigneeTest(e, selected));
    forall b | b in bugs
      ensures AssigneeTest(e, selected)(b) == Ok(true) <==>
        ("unknown" in selected && !Known(e, b["assignee"])) || Chosen(e, selected, b["assignee"])
    {
      if Chosen(e, selected, b["assignee"]) {
        var i :| 0 <= i < |e| && e[i].0 in selected && (b["assignee"] == VStr(e[i].0) || b["assignee"] in VStrs(e[i].1));
        assert ReadsAssignee(e, selected);
      }
    }
  }
}
