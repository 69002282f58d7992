/** Loading the tracker's bugs into the store: the wrapper that parses the
    date entries of a JSON task, the recency flags, the serialisation of a
    task into a store record, the per-bug reconciliation of the loader and
    the upserts of the processor, run one after the other. */
module SyncUtil {
  import opened Wrappers
  import opened Documents
  import Strings
  import Tasks
  import opened Store

  // ---------------------------------------------------------------------
  // `Bug(dictionary)`

  /** The attribute a dictionary entry becomes: a truthy value under a key
      containing `date` is parsed as a timestamp (a string in another format
      raises `ValueError`, a non-string `TypeError`); anything else is kept. */
  function ParsedValue(key: string, v: Value): Result<Value> {
    if Strings.Contains(key, "date") && Truthy(v) then
      match v
      case VDateText(t) => Ok(VDate(t))
      case VStr(_) => Err(ValueError("time data does not match format"))
      case _ => Err(TypeError("strptime() argument 1 must be string"))
    else Ok(v)
  }

  /** The attributes after setting every entry in iteration order, or the
      first entry's error. */
  function ParseItems(items: Items): Result<Doc> {
    if items == [] then Ok(map[])
    else
      var attrs :- ParseItems(items[..|items| - 1]);
      var last := items[|items| - 1];
      var v :- ParsedValue(last.0, last.1);
      Ok(attrs[last.0 := v])
  }

  /** `Bug.__init__`: one `setattr` per entry. */
  method NewBug(items: Items) returns (r: Result<Doc>)
    ensures r == ParseItems(items)
  {
    var attrs: Doc := map[];
    var i := 0;
    while i < |items|
      invariant 0 <= i <= |items|
      invariant ParseItems(items[..i]) == Ok(attrs)
    {
      assert items[..i + 1][..i] == items[..i] && items[..i + 1][i] == items[i];
      var v := ParsedValue(items[i].0, items[i].1);
      if v.Err? {
        ParseFailsFrom(items, i + 1);
        return Err(v.error);
      }
      attrs := attrs[items[i].0 := v.value];
      i := i + 1;
    }
    assert items[..i] == items;
    return Ok(attrs);
  }

  lemma {:induction false} ParseFailsFrom(items: Items, j: nat)
    requires j <= |items| && ParseItems(items[..j]).Err?
    ensures ParseItems(items) == ParseItems(items[..j])
  {
    if j < |items| {
      var pre := items[..|items| - 1];
      assert pre[..j] == items[..j];
      ParseFailsFrom(pre, j);
    } else {
      assert items[..j] == items;
    }
  }

  /** A wrapper is built exactly when every entry parses. */
  lemma {:induction false} ParseSucceeds(items: Items)
    ensures ParseItems(items).Ok? <==> forall i :: 0 <= i < |items| ==> ParsedValue(items[i].0, items[i].1).Ok?
  {
    if items != [] {
      var pre := items[..|items| - 1];
      ParseSucceeds(pre);
      if ParseItems(pre).Err? {
        var i :| 0 <= i < |pre| && ParsedValue(pre[i].0, pre[i].1).Err?;
        assert items[i] == pre[i];
      } else {
        assert forall i :: 0 <= i < |pre| ==> pre[i] == items[i];
      }
    }
  }

  /** A built wrapper has one attribute per entry key and no other. */
  lemma {:induction false} ParsedKeys(items: Items)
    requires ParseItems(items).Ok?
    ensures forall k :: k in ParseItems(items).value <==> exists i :: 0 <= i < |items| && items[i].0 == k
  {
    if items != [] {
      var pre := items[..|items| - 1];
      var last := items[|items| - 1];
      ParsedKeys(pre);
      var r := ParseItems(items).value;
      forall k ensures k in r <==> exists i :: 0 <= i < |items| && items[i].0 == k {
        if k in r && k != last.0 {
          var i :| 0 <= i < |pre| && pre[i].0 == k;
          assert items[i].0 == k;
        }
        if exists i :: 0 <= i < |items| && items[i].0 == k {
          var i :| 0 <= i < |items| && items[i].0 == k;
          if i < |pre| {
            assert pre[i].0 == k;
          }
        }
      }
    }
  }

  predicate DistinctKeys(items: Items) {
    forall i, j :: 0 <= i < j < |items| ==> items[i].0 != items[j].0
  }

  /** With distinct keys (a dictionary's), each attribute is its entry's
      value, parsed when it is a date and copied otherwise. */
  lemma {:induction false} ParsedValues(items: Items)
    requires DistinctKeys(items) && ParseItems(items).Ok?
    ensures forall i :: 0 <= i < |items| ==>
      ParsedValue(items[i].0, items[i].1).Ok? && items[i].0 in ParseItems(items).value &&
      ParseItems(items).value[items[i].0] == ParsedValue(items[i].0, items[i].1).value
  {
    ParseSucceeds(items);
    if items != [] {
      var pre := items[..|items| - 1];
      var last := items[|items| - 1];
      assert DistinctKeys(pre);
      ParsedValues(pre);
      var rpre := ParseItems(pre).value;
      var r := ParseItems(items).value;
      assert r == rpre[last.0 := ParsedValue(last.0, last.1).value];
      forall i | 0 <= i < |items|
        ensures items[i].0 in r && r[items[i].0] == ParsedValue(items[i].0, items[i].1).value
      {
        if i < |pre| {
          assert pre[i] == items[i] && items[i].0 != last.0;
          assert items[i].0 in rpre && rpre[items[i].0] == ParsedValue(pre[i].0, pre[i].1).value;
        }
      }
    }
  }

  // ---------------------------------------------------------------------
  // Recency and dates

  /** `date.today() - relativedelta(weeks=1)` and `(months=1)`, at
      midnight, as instants. */
  datatype Thresholds = Thresholds(weekAgo: int, monthAgo: int)

  /** `younger_than`: a missing date counts as recent; otherwise the date
      must be strictly after the threshold. */
  function YoungerThan(v: Value, threshold: int): (r: Result<bool>)
    ensures v == VNone ==> r == Ok(true)
    ensures v.VDate? ==> r == Ok(v.t > threshold)
    ensures r.Ok? <==> v == VNone || v.VDate?
  {
    match v
    case VNone => Ok(true)
    case VDate(t) => Ok(t > threshold)
    case _ => Err(AttributeError("ctime"))
  }

  /** `process_date`: `None` stays `None`, a date is pinned to UTC (the
      instant does not change); a string's `replace` refuses the keyword
      argument and anything else has no `replace`. */
  function ProcessDate(v: Value): (r: Result<Value>)
    ensures r.Ok? <==> v == VNone || v.VDate?
    ensures r.Ok? ==> r.value == v
  {
    match v
    case VNone => Ok(VNone)
    case VDate(_) => Ok(v)
    case VStr(_) => Err(TypeError("replace() takes no keyword arguments"))
    case VDateText(_) => Err(TypeError("replace() takes no keyword arguments"))
    case _ => Err(AttributeError("replace"))
  }

  /** A date attribute of a task, processed. */
  function DateAttr(bug: Doc, n: string): (r: Result<Value>)
    ensures r.Ok? <==> n in bug && (bug[n] == VNone || bug[n].VDate?)
    ensures r.Ok? ==> r.value == bug[n]
  {
    var raw :- Attr(bug, n);
    ProcessDate(raw)
  }

  /** The lifecycle dates a serialised record carries, in the order the
      source reads them. */
  const DateNames: seq<string> := [
    "date_assigned", "date_closed", "date_confirmed", "date_created",
    "date_fix_committed", "date_fix_released", "date_in_progress",
    "date_incomplete", "date_left_closed", "date_left_new", "date_triaged"]

  /** The processed dates of `bug`, failing on the first missing or
      unprocessable one. */
  function ProcessedDates(bug: Doc, names: seq<string>): (r: Result<Doc>)
    ensures r.Ok? <==> forall n :: n in names ==> DateAttr(bug, n).Ok?
    ensures r.Ok? ==> forall n :: n in r.value <==> n in names
    ensures r.Ok? ==> forall n :: n in names ==> r.value[n] == bug[n]
  {
    if names == [] then Ok(map[])
    else
      var n := names[|names| - 1];
      assert forall m :: m in names <==> m in names[..|names| - 1] || m == n by {
        assert names == names[..|names| - 1] + [n];
      }
      var pre :- ProcessedDates(bug, names[..|names| - 1]);
      var d :- DateAttr(bug, n);
      Ok(pre[n := d])
  }

  // ---------------------------------------------------------------------
  // `serialize_bug`

  /** `str(link).split(sep)[1]`. */
  function FieldAfter(link: Value, sep: char): (r: Result<string>)
    ensures r.Ok? <==> sep in Str(link)
    ensures r.Ok? ==> sep !in r.value
  {
    Strings.SecondField(Str(link), sep)
  }

  /** The assignee and the assignee link of a record: without a link both
      are `None`; otherwise the assignee is the text after the link's first
      `~` and the link is kept, except that an empty name leaves no assignee
      and the empty name as link. */
  function AssigneeFields(link: Value): (r: Result<(Value, Value)>)
    ensures !Truthy(link) ==> r == Ok((VNone, VNone))
    ensures Truthy(link) ==> (r.Ok? <==> '~' in Str(link))
    ensures r.Ok? && r.value.0 != VNone ==>
      Truthy(link) && r.value.0 == VStr(FieldAfter(link, '~').value) && r.value.1 == link && '~' !in r.value.0.s
    ensures r.Ok? && Truthy(link) && r.value.0 == VNone ==> FieldAfter(link, '~') == Ok("") && r.value.1 == VStr("")
  {
    if !Truthy(link) then Ok((VNone, VNone))
    else
      var name :- FieldAfter(link, '~');
      if name != "" then Ok((VStr(name), link)) else Ok((VNone, VStr("")))
  }

  /** The milestone and the (one-element tuple of the) milestone link: the
      milestone is the last `/` segment of a present link, and the link is
      kept only beside a non-empty milestone. */
  function MilestoneFields(link: Value): (r: (Value, Value))
    ensures r.1.VList? && |r.1.items| == 1
    ensures r.0 != VNone ==> (Truthy(link) && r.0 == VStr(Strings.AfterLast(Str(link), '/')) &&
      '/' !in r.0.s && r.0.s != "" && r.1.items[0] == link)
    ensures r.0 == VNone ==> (r.1.items[0] == VNone &&
      (!Truthy(link) || Strings.AfterLast(Str(link), '/') == ""))
  {
    var segment := Strings.AfterLast(Str(link), '/');
    if Truthy(link) && segment != "" then (VStr(segment), VList([link]))
    else (VNone, VList([VNone]))
  }

  /** The fields a record takes from the bug task's own links and dates. */
  datatype Links = Links(
    webLink: Value, dates: Doc, assignee: Value, assigneeLink: Value,
    milestone: Value, milestoneLink: Value, ownerLink: Value, owner: string)

  /** The first reads of `serialize_bug`: web link, lifecycle dates,
      assignee, milestone and owner. */
  function LinksOf(bug: Doc): (r: Result<Links>)
    ensures r.Ok? ==> "web_link" in bug && r.value.webLink == bug["web_link"]
    ensures r.Ok? ==> ProcessedDates(bug, DateNames) == Ok(r.value.dates)
    ensures r.Ok? ==> ("assignee_link" in bug &&
      AssigneeFields(bug["assignee_link"]) == Ok((r.value.assignee, r.value.assigneeLink)))
    ensures r.Ok? ==> ("milestone_link" in bug &&
      MilestoneFields(bug["milestone_link"]) == (r.value.milestone, r.value.milestoneLink))
    ensures r.Ok? ==> ("owner_link" in bug && r.value.ownerLink == bug["owner_link"] &&
      FieldAfter(bug["owner_link"], '~') == Ok(r.value.owner))
    ensures "owner_link" in bug && '~' !in Str(bug["owner_link"]) ==> r.Err?
  {
    var webLink :- Attr(bug, "web_link");
    var dates :- ProcessedDates(bug, DateNames);
    var assigneeLink :- Attr(bug, "assignee_link");
    var assignee :- AssigneeFields(assigneeLink);
    var milestoneLink :- Attr(bug, "milestone_link");
    var milestone := MilestoneFields(milestoneLink);
    var ownerLink :- Attr(bug, "owner_link");
    var owner :- FieldAfter(ownerLink, '~');
    Ok(Links(webLink, dates, assignee.0, assignee.1, milestone.0, milestone.1, ownerLink, owner))
  }

  /** The bug whose id, tags, title and last update a record carries: the
      given task's bug for a related task, else the bug task's own. */
  function BugItem(bug: Doc, task: Option<Value>): (r: Result<Value>)
    ensures task.Some? ==> r == Member(task.value, "bug")
    ensures task.None? ==> r == Attr(bug, "bug")
  {
    if task.Some? then Member(task.value, "bug") else Attr(bug, "bug")
  }

  /** The fields of a record read from the bug item and the bug task. */
  datatype Fields = Fields(
    id: Value, targetName: Value, status: Value, tags: Value,
    title: Value, importance: Value, lastUpdated: Value)

  /** The reads of the record's literal, in the order they are written. */
  function FieldsOf(bug: Doc, task: Option<Value>): (r: Result<Fields>)
    ensures r.Ok? ==> (BugItem(bug, task).Ok? &&
      var item := BugItem(bug, task).value;
      Member(item, "id") == Ok(r.value.id) && Member(item, "tags") == Ok(r.value.tags) &&
      Member(item, "title") == Ok(r.value.title) &&
      Member(item, "date_last_updated") == Ok(r.value.lastUpdated))
    ensures r.Ok? ==> ("bug_target_name" in bug && r.value.targetName == bug["bug_target_name"] &&
      "status" in bug && r.value.status == bug["status"] &&
      "importance" in bug && r.value.importance == bug["importance"])
    ensures r.Ok? ==> r.value.lastUpdated == VNone || r.value.lastUpdated.VDate?
  {
    var item :- BugItem(bug, task);
    var id :- Member(item, "id");
    var targetName :- Attr(bug, "bug_target_name");
    var status :- Attr(bug, "status");
    var tags :- Member(item, "tags");
    var title :- Member(item, "title");
    var importance :- Attr(bug, "importance");
    var lastUpdatedRaw :- Member(item, "date_last_updated");
    var lastUpdated :- ProcessDate(lastUpdatedRaw);
    Ok(Fields(id, targetName, status, tags, title, importance, lastUpdated))
  }

  /** The four recency flags of a record. */
  datatype Flags = Flags(createdWeek: bool, createdMonth: bool, fixedWeek: bool, fixedMonth: bool)

  /** A missing creation or fix date counts as recent; a present one is
      recent when it is after the threshold. */
  function FlagsOf(bug: Doc, th: Thresholds): (r: Result<Flags>)
    ensures r.Ok? <==> DateAttr(bug, "date_created").Ok? && DateAttr(bug, "date_fix_committed").Ok?
    ensures r.Ok? && bug["date_created"] == VNone ==> r.value.createdWeek && r.value.createdMonth
    ensures r.Ok? && bug["date_fix_committed"] == VNone ==> r.value.fixedWeek && r.value.fixedMonth
    ensures r.Ok? && bug["date_created"].VDate? ==>
      r.value.createdWeek == (bug["date_created"].t > th.weekAgo) &&
      r.value.createdMonth == (bug["date_created"].t > th.monthAgo)
    ensures r.Ok? && bug["date_fix_committed"].VDate? ==>
      r.value.fixedWeek == (bug["date_fix_committed"].t > th.weekAgo) &&
      r.value.fixedMonth == (bug["date_fix_committed"].t > th.monthAgo)
  {
    var created :- DateAttr(bug, "date_created");
    var fixed :- DateAttr(bug, "date_fix_committed");
    // `younger_than` cannot fail on a processed date
    Ok(Flags(YoungerThan(created, th.weekAgo).value, YoungerThan(created, th.monthAgo).value,
      YoungerThan(fixed, th.weekAgo).value, YoungerThan(fixed, th.monthAgo).value))
  }

  /** What a serialised record holds. */
  datatype Record = Record(links: Links, fields: Fields, flags: Flags)

  /** `serialize_bug(bug, task)`. */
  function Serialize(bug: Doc, task: Option<Value>, th: Thresholds): (r: Result<Record>)
    ensures r.Ok? <==> LinksOf(bug).Ok? && FieldsOf(bug, task).Ok? && FlagsOf(bug, th).Ok?
    ensures r.Ok? ==> r.value == Record(LinksOf(bug).value, FieldsOf(bug, task).value, FlagsOf(bug, th).value)
  {
    var links :- LinksOf(bug);
    var fields :- FieldsOf(bug, task);
    var flags :- FlagsOf(bug, th);
    Ok(Record(links, fields, flags))
  }

  /** The record as the document the store keeps: the fields the store
      finds it by (written last, so that reading them back needs no look at
      the others), the lifecycle dates and the rest. */
  function RecordDoc(r: Record): Doc {
    RecordBody(r) + r.links.dates + RecordKey(r)
  }

  /** The fields the store and the reports find a document by. */
  function RecordKey(r: Record): Doc {
    map["id" := r.fields.id, "target_name" := r.fields.targetName, "milestone" := r.links.milestone]
  }

  /** The other entries of the record's literal. */
  function RecordBody(r: Record): Doc {
    map[
      "web_link" := r.links.webLink, "milestone_link" := r.links.milestoneLink,
      "status" := r.fields.status, "tags" := r.fields.tags, "title" := r.fields.title,
      "importance" := r.fields.importance, "owner" := VStr(r.links.owner),
      "owner_link" := r.links.ownerLink, "assignee" := r.links.assignee,
      "assignee_link" := r.links.assigneeLink, "date_last_updated" := r.fields.lastUpdated,
      "created less than week" := VBool(r.flags.createdWeek),
      "created less than month" := VBool(r.flags.createdMonth),
      "fixed less than week" := VBool(r.flags.fixedWeek),
      "fixed less than month" := VBool(r.flags.fixedMonth)]
  }

  /** `serialize_bug`: the record's document. */
  function SerializeBug(bug: Doc, task: Option<Value>, th: Thresholds): Result<Doc> {
    var r :- Serialize(bug, task, th);
    Ok(RecordDoc(r))
  }

  /** The keys the store and the reports read back from a document. */
  lemma RecordDocKeys(r: Record)
    ensures RecordDoc(r)["target_name"] == r.fields.targetName
    ensures RecordDoc(r)["id"] == r.fields.id
    ensures RecordDoc(r)["milestone"] == r.links.milestone
  {
  }

  /** A record goes to the collection named by its target up to the first
      `/`, keyed by its id and milestone. */
  lemma RecordUpsertKey(r: Record)
    ensures TargetCollection(RecordDoc(r)) == Strings.BeforeFirst(Str(r.fields.targetName), '/')
    ensures KeyOf(RecordDoc(r), UpsertKeys) == map["id" := r.fields.id, "milestone" := r.links.milestone]
  {
    RecordDocKeys(r);
  }

  /** A record's document carries the bug task's lifecycle dates unchanged. */
  lemma RecordDocDates(r: Record)
    requires forall n :: n in r.links.dates ==> n in DateNames
    ensures forall n :: n in r.links.dates ==> n in RecordDoc(r) && RecordDoc(r)[n] == r.links.dates[n]
  {
    forall n | n in r.links.dates ensures n !in RecordKey(r) {
      assert n in DateNames;
    }
  }

  // ---------------------------------------------------------------------
  // `load_project_bugs` and `process_bugs`

  /** An active milestone of the project (`str` of it) and `str` of its
      series. */
  datatype Milestone = Milestone(name: string, series: string)

  /** `milestone_series`: the later of two milestones with one name wins. */
  function SeriesMap(ms: seq<Milestone>): (r: map<string, string>)
    ensures forall n :: n in r <==> exists m :: m in ms && m.name == n
  {
    if ms == [] then map[]
    else
      var pre := ms[..|ms| - 1];
      assert ms == pre + [ms[|ms| - 1]];
      SeriesMap(pre)[ms[|ms| - 1].name := ms[|ms| - 1].series]
  }

  /** `milestone_series.get(bug_milestone)`: a missing milestone and a
      milestone that is not active both give `None`. */
  function SeriesOf(series: map<string, string>, milestone: Option<string>): (r: Value)
    ensures r != VNone <==> milestone.Some? && milestone.value in series
  {
    if milestone.Some? && milestone.value in series then VStr(series[milestone.value]) else VNone
  }

  /** `[rt["target_link"] for rt in related_tasks]`. */
  function TargetLinks(related: seq<Items>): (r: Result<seq<Value>>)
    ensures r.Ok? ==> (|r.value| == |related| &&
      forall i :: 0 <= i < |related| ==> ItemAt(related[i], "target_link") == Ok(r.value[i]))
    ensures r.Ok? <==> forall i :: 0 <= i < |related| ==> ItemAt(related[i], "target_link").Ok?
  {
    if related == [] then Ok([])
    else
      var pre := related[..|related| - 1];
      var last := related[|related| - 1];
      var rest := TargetLinks(pre);
      var link := ItemAt(last, "target_link");
      if rest.Err? then
        var i :| 0 <= i < |pre| && ItemAt(pre[i], "target_link").Err?;
        assert related[i] == pre[i];
        rest
      else if link.Err? then Err(link.error)
      else Ok(rest.value + [link.value])
  }

  /** `serialize_bug(Bug(rt), task=bug)` for one related task entry. */
  function RelatedRecord(rt: Items, owner: Doc, th: Thresholds): Result<Record> {
    var b :- ParseItems(rt);
    Serialize(b, Some(VObj(owner)), th)
  }

  /** The records of the related tasks, in order, and the error that stops
      the loop. */
  function RelatedRecords(related: seq<Items>, owner: Doc, th: Thresholds): (seq<Record>, Option<Error>) {
    MapUntilError(related, rt => RelatedRecord(rt, owner, th))
  }

  /** One more related task: its record is added, or its error ends the
      loop. */
  lemma RelatedRecordsStep(related: seq<Items>, owner: Doc, th: Thresholds, i: nat)
    requires i < |related| && RelatedRecords(related[..i], owner, th).1.None?
    ensures var prev := RelatedRecords(related[..i], owner, th).0;
      var rec := RelatedRecord(related[i], owner, th);
      RelatedRecords(related[..i + 1], owner, th) == if rec.Err? then (prev, Some(rec.error)) else (prev + [rec.value], None)
  {
    MapUntilErrorSnoc(related, i, rt => RelatedRecord(rt, owner, th));
  }

  /** Once a related task has failed, the later ones are not serialised. */
  lemma RelatedFailFrom(related: seq<Items>, owner: Doc, th: Thresholds, j: nat)
    requires j <= |related| && RelatedRecords(related[..j], owner, th).1.Some?
    ensures RelatedRecords(related, owner, th) == RelatedRecords(related[..j], owner, th)
  {
    MapUntilErrorStops(related, rt => RelatedRecord(rt, owner, th), j);
  }

  /** The related records are all there when no task fails: one per related
      task, in order. */
  lemma RelatedRecordsComplete(related: seq<Items>, owner: Doc, th: Thresholds)
    requires RelatedRecords(related, owner, th).1.None?
    ensures var recs := RelatedRecords(related, owner, th).0;
      |recs| == |related| &&
      forall i :: 0 <= i < |related| ==> RelatedRecord(related[i], owner, th) == Ok(recs[i])
  {
    MapUntilErrorComplete(related, rt => RelatedRecord(rt, owner, th));
  }

  /** Whether the fetched bug's own record goes on the queue: always when
      it has no related tasks, otherwise when the series of its milestone is
      not one of the related tasks' targets. */
  predicate EnqueuesPrimary(related: seq<Items>, links: seq<Value>, seriesOfBug: Value) {
    related == [] || seriesOfBug !in links
  }

  /** The store and the queue the loader and the processor share. */
  datatype SyncState = SyncState(db: Collections, queue: seq<Record>)

  /** The documents carrying `id` leave the collection `name`. */
  function RemoveId(db: Collections, name: string, id: Value): (r: Collections)
    ensures forall n :: n != name ==> Coll(r, n) == Coll(db, n)
    ensures forall d :: d in Coll(r, name) <==> d in Coll(db, name) && Get(d, "id") != id
  {
    var q: Query := map["id" := id];
    assert forall d :: Matches(d, q) <==> Get(d, "id") == id by {
      forall d ensures Matches(d, q) <==> Get(d, "id") == id {
        if Get(d, "id") == id {
          assert forall k :: k in q ==> k == "id";
        }
      }
    }
    db[name := Remove(Coll(db, name), q)]
  }

  /** `for project in project_list: if project not in target_projects:
      remove`. */
  function RemoveUntargeted(db: Collections, projects: seq<string>, targets: set<string>, id: Value): Collections {
    if projects == [] then db
    else
      var p := projects[|projects| - 1];
      var pre := RemoveUntargeted(db, projects[..|projects| - 1], targets, id);
      if p !in targets then RemoveId(pre, p, id) else pre
  }

  /** One fetched bug: the state after it and the error, if any, that
      stopped the loader (the work done before it stays). */
  function LoadBug(st: SyncState, task: Tasks.RemoteTask, projects: seq<string>,
                   series: map<string, string>, th: Thresholds): (SyncState, Option<Error>)
  {
    var attrs := task.attrs;
    var bugObj := Attr(attrs, "bug");
    var id := if bugObj.Ok? then Member(bugObj.value, "id") else Err(bugObj.error);
    var targetName := Attr(attrs, "bug_target_name");
    if id.Err? then (st, Some(id.error))
    else if targetName.Err? then (st, Some(targetName.error))
    else
      var st1 := st.(db := RemoveId(st.db, Strings.BeforeFirst(Str(targetName.value), '/'), id.value));
      var dup := Member(bugObj.value, "duplicate_of");
      if dup.Err? then (st1, Some(dup.error))
      else if dup.value != VNone then (st1, None)
      else
        var targets := Tasks.Targets(task);
        if targets.Err? then (st1, Some(targets.error))
        else
          var st2 := st1.(db := RemoveUntargeted(st1.db, projects, targets.value, id.value));
          var queued := BugQueued(task, series, th);
          (st2.(queue := st2.queue + queued.0), queued.1)
  }

  /** The records one fetched bug puts on the queue, and the error that
      stops that: its own record when `EnqueuesPrimary` says so, then one
      per related task. */
  function BugQueued(task: Tasks.RemoteTask, series: map<string, string>, th: Thresholds): (seq<Record>, Option<Error>) {
    var attrs := task.attrs;
    var milestone := Attr(attrs, "milestone");
    if milestone.Err? then ([], Some(milestone.error))
    else
      var bugMilestone := if Truthy(milestone.value) then Some(Str(milestone.value)) else None;
      var links := TargetLinks(task.related);
      if links.Err? then ([], Some(links.error))
      else if EnqueuesPrimary(task.related, links.value, SeriesOf(series, bugMilestone)) then
        var own := Serialize(attrs, None, th);
        if own.Err? then ([], Some(own.error))
        else
          var related := RelatedRecords(task.related, attrs, th);
          ([own.value] + related.0, related.1)
      else RelatedRecords(task.related, attrs, th)
  }

  /** Whether untargeting leaves document `d` of collection `n` alone. */
  predicate Untouched(projects: seq<string>, targets: set<string>, id: Value, n: string, d: Doc) {
    !(n in projects && n !in targets && Get(d, "id") == id)
  }

  /** Untargeting removes exactly the documents carrying `id` from the
      listed projects that are not targets. */
  lemma {:induction false} RemoveUntargetedEffect(db: Collections, projects: seq<string>, targets: set<string>, id: Value)
    ensures forall n, d :: d in Coll(RemoveUntargeted(db, projects, targets, id), n) <==>
      d in Coll(db, n) && Untouched(projects, targets, id, n, d)
  {
    if projects != [] {
      var pre := projects[..|projects| - 1];
      var p := projects[|projects| - 1];
      RemoveUntargetedEffect(db, pre, targets, id);
      assert forall n :: n in projects <==> n in pre || n == p by {
        assert projects == pre + [p];
      }
    }
  }

  /** A fetched bug only removes documents from the store and only appends
      to the queue, whether or not it fails. */
  lemma LoadBugMonotone(st: SyncState, task: Tasks.RemoteTask, projects: seq<string>,
                        series: map<string, string>, th: Thresholds)
    ensures var st' := LoadBug(st, task, projects, series, th).0;
      (forall n, d :: d in Coll(st'.db, n) ==> d in Coll(st.db, n)) &&
      |st.queue| <= |st'.queue| && st'.queue[..|st.queue|] == st.queue
  {
    var attrs := task.attrs;
    var bugObj := Attr(attrs, "bug");
    var id := if bugObj.Ok? then Member(bugObj.value, "id") else Err(bugObj.error);
    var targetName := Attr(attrs, "bug_target_name");
    var st' := LoadBug(st, task, projects, series, th).0;
    if id.Err? || targetName.Err? {
      assert st' == st;
    } else {
      var db1 := RemoveId(st.db, Strings.BeforeFirst(Str(targetName.value), '/'), id.value);
      assert forall n, d :: d in Coll(db1, n) ==> d in Coll(st.db, n);
      var dup := Member(bugObj.value, "duplicate_of");
      var targets := Tasks.Targets(task);
      if dup.Err? || dup.value != VNone || targets.Err? {
        assert st' == st.(db := db1);
      } else {
        RemoveUntargetedEffect(db1, projects, targets.value, id.value);
        var queued := BugQueued(task, series, th).0;
        assert st'.queue == st.queue + queued;
        assert st'.db == RemoveUntargeted(db1, projects, targets.value, id.value);
        assert (st.queue + queued)[..|st.queue|] == st.queue;
      }
    }
  }

  /** A fetched bug that is not a duplicate and loads without error leaves
      no document with its id in its own project's collection nor in any
      listed project it is not targeted to, and puts on the queue its own
      record when `EnqueuesPrimary` says so, then one record per related
      task, in order. */
  lemma LoadBugLoaded(st: SyncState, task: Tasks.RemoteTask, projects: seq<string>,
                      series: map<string, string>, th: Thresholds)
    requires LoadBug(st, task, projects, series, th).1.None?
    requires "bug" in task.attrs && Member(task.attrs["bug"], "duplicate_of") == Ok(VNone)
    ensures var st' := LoadBug(st, task, projects, series, th).0;
      var id := Member(task.attrs["bug"], "id").value;
      Member(task.attrs["bug"], "id").Ok? && "bug_target_name" in task.attrs && Tasks.Targets(task).Ok? &&
      (forall d :: d in Coll(st'.db, Strings.BeforeFirst(Str(task.attrs["bug_target_name"]), '/')) ==> Get(d, "id") != id) &&
      (forall p, d :: p in projects && p !in Tasks.Targets(task).value && d in Coll(st'.db, p) ==> Get(d, "id") != id) &&
      st'.queue == st.queue + BugQueued(task, series, th).0
  {
    var id := Member(task.attrs["bug"], "id").value;
    var own := Strings.BeforeFirst(Str(task.attrs["bug_target_name"]), '/');
    var targets := Tasks.Targets(task).value;
    var db1 := RemoveId(st.db, own, id);
    RemoveUntargetedEffect(db1, projects, targets, id);
  }

  /** What a fetched bug puts on the queue when that succeeds: its own
      record when `PrimaryEnqueued` says so, then the related records, which
      `RelatedRecordsComplete` describes one by one. */
  lemma BugQueuedRecords(task: Tasks.RemoteTask, series: map<string, string>, th: Thresholds)
    requires BugQueued(task, series, th).1.None?
    ensures "milestone" in task.attrs && TargetLinks(task.related).Ok?
    ensures RelatedRecords(task.related, task.attrs, th).1.None?
    ensures PrimaryEnqueued(task, series) ==> (Serialize(task.attrs, None, th).Ok? &&
      BugQueued(task, series, th).0 ==
        [Serialize(task.attrs, None, th).value] + RelatedRecords(task.related, task.attrs, th).0)
    ensures !PrimaryEnqueued(task, series) ==>
      BugQueued(task, series, th).0 == RelatedRecords(task.related, task.attrs, th).0
  {
  }

  /** Whether the fetched bug's own record goes on the queue, in terms of
      its attributes. */
  predicate PrimaryEnqueued(task: Tasks.RemoteTask, series: map<string, string>) {
    var m := Get(task.attrs, "milestone");
    var links := TargetLinks(task.related);
    links.Ok? && EnqueuesPrimary(task.related, links.value,
      SeriesOf(series, if Truthy(m) then Some(Str(m)) else None))
  }

  /** A duplicate is only removed from its own project's collection and
      puts nothing on the queue. */
  lemma LoadBugDuplicate(st: SyncState, task: Tasks.RemoteTask, projects: seq<string>,
                         series: map<string, string>, th: Thresholds)
    requires "bug" in task.attrs && Member(task.attrs["bug"], "id").Ok? && "bug_target_name" in task.attrs
    requires Member(task.attrs["bug"], "duplicate_of").Ok? && Member(task.attrs["bug"], "duplicate_of").value != VNone
    ensures LoadBug(st, task, projects, series, th) ==
      (st.(db := RemoveId(st.db, Strings.BeforeFirst(Str(task.attrs["bug_target_name"]), '/'),
                          Member(task.attrs["bug"], "id").value)), None)
  {
  }

  /** `load_project_bugs`: every fetched bug in turn, stopping at the first
      error. */
  function LoadAll(st: SyncState, tasks: seq<Tasks.RemoteTask>, projects: seq<string>,
                   series: map<string, string>, th: Thresholds): (SyncState, Option<Error>)
  {
    if tasks == [] then (st, None)
    else
      var (pre, err) := LoadAll(st, tasks[..|tasks| - 1], projects, series, th);
      if err.Some? then (pre, err) else LoadBug(pre, tasks[|tasks| - 1], projects, series, th)
  }

  /** The documents of queued records. */
  function RecordDocs(recs: seq<Record>): (r: seq<Doc>)
    ensures |r| == |recs| && forall i :: 0 <= i < |recs| ==> r[i] == RecordDoc(recs[i])
  {
    if recs == [] then [] else RecordDocs(recs[..|recs| - 1]) + [RecordDoc(recs[|recs| - 1])]
  }

  /** The `milestone_series` dictionary, filled milestone by milestone. */
  method MilestoneSeries(milestones: seq<Milestone>) returns (series: map<string, string>)
    ensures series == SeriesMap(milestones)
  {
    series := map[];
    var i := 0;
    while i < |milestones|
      invariant 0 <= i <= |milestones|
      invariant series == SeriesMap(milestones[..i])
    {
      assert milestones[..i + 1][..i] == milestones[..i];
      series := series[milestones[i].name := milestones[i].series];
      i := i + 1;
    }
    assert milestones[..i] == milestones;
  }

  /** The synchroniser: the store and the queue between loader and
      processor. */
  class Sync {
    var db: Collections
    var queue: seq<Record>

    constructor(db: Collections)
      ensures this.db == db && queue == []
    {
      this.db := db;
      queue := [];
    }

    /** `load_project_bugs(project_name, db, project_list, queue, _)` with
        the project's active milestones and fetched bugs given. */
    method LoadProjectBugs(milestones: seq<Milestone>, tasks: seq<Tasks.RemoteTask>,
                           projects: seq<string>, th: Thresholds) returns (err: Option<Error>)
      modifies this
      ensures (SyncState(db, queue), err) == LoadAll(SyncState(old(db), old(queue)), tasks, projects, SeriesMap(milestones), th)
    {
      var series := MilestoneSeries(milestones);
      ghost var st0 := SyncState(db, queue);
      var k := 0;
      while k < |tasks|
        invariant 0 <= k <= |tasks|
        invariant LoadAll(st0, tasks[..k], projects, series, th) == (SyncState(db, queue), None)
      {
        assert tasks[..k + 1][..k] == tasks[..k];
        err := LoadOne(tasks[k], projects, series, th);
        if err.Some? {
          LoadFailsFrom(st0, tasks, projects, series, th, k + 1);
          return;
        }
        k := k + 1;
      }
      assert tasks[..k] == tasks;
      err := None;
    }

    /** The body of the loader's loop for one fetched bug. */
    method LoadOne(task: Tasks.RemoteTask, projects: seq<string>,
                   series: map<string, string>, th: Thresholds) returns (err: Option<Error>)
      modifies this
      ensures (SyncState(db, queue), err) == LoadBug(SyncState(old(db), old(queue)), task, projects, series, th)
    {
      var attrs := task.attrs;
      var bugObj := Attr(attrs, "bug");
      var id := if bugObj.Ok? then Member(bugObj.value, "id") else Err(bugObj.error);
      if id.Err? {
        return Some(id.error);
      }
      var targetName := Attr(attrs, "bug_target_name");
      if targetName.Err? {
        return Some(targetName.error);
      }
      db := RemoveId(db, Strings.BeforeFirst(Str(targetName.value), '/'), id.value);
      var dup := Member(bugObj.value, "duplicate_of");
      if dup.Err? {
        return Some(dup.error);
      }
      if dup.value != VNone {
        return None;
      }
      var targets := Tasks.GetBugTargets(task);
      if targets.Err? {
        return Some(targets.error);
      }
      RemoveUntargetedLoop(projects, targets.value, id.value);
      err := EnqueueBug(task, series, th);
    }

    /** The queueing part of the loader's loop body for one fetched bug. */
    method EnqueueBug(task: Tasks.RemoteTask, series: map<string, string>, th: Thresholds) returns (err: Option<Error>)
      modifies this
      ensures queue == old(queue) + BugQueued(task, series, th).0 && err == BugQueued(task, series, th).1
      ensures db == old(db)
    {
      var attrs := task.attrs;
      var milestone := Attr(attrs, "milestone");
      if milestone.Err? {
        return Some(milestone.error);
      }
      var bugMilestone := if Truthy(milestone.value) then Some(Str(milestone.value)) else None;
      var links := TargetLinks(task.related);
      if links.Err? {
        return Some(links.error);
      }
      if EnqueuesPrimary(task.related, links.value, SeriesOf(series, bugMilestone)) {
        var own := Serialize(attrs, None, th);
        if own.Err? {
          return Some(own.error);
        }
        queue := queue + [own.value];
        err := EnqueueRelated(task.related, attrs, th);
        AppendAssoc(old(queue), [own.value], RelatedRecords(task.related, attrs, th).0);
      } else {
        err := EnqueueRelated(task.related, attrs, th);
      }
    }

    method RemoveUntargetedLoop(projects: seq<string>, targets: set<string>, id: Value)
      modifies this
      ensures db == RemoveUntargeted(old(db), projects, targets, id) && queue == old(queue)
    {
      var i := 0;
      while i < |projects|
        invariant 0 <= i <= |projects|
        invariant db == RemoveUntargeted(old(db), projects[..i], targets, id) && queue == old(queue)
      {
        assert projects[..i + 1][..i] == projects[..i];
        if projects[i] !in targets {
          db := RemoveId(db, projects[i], id);
        }
        i := i + 1;
      }
      assert projects[..i] == projects;
    }

    /** `for rt in related_tasks: queue.put(serialize_bug(Bug(rt), task=bug))`. */
    method EnqueueRelated(related: seq<Items>, owner: Doc, th: Thresholds) returns (err: Option<Error>)
      modifies this
      ensures (queue, err) == (old(queue) + RelatedRecords(related, owner, th).0, RelatedRecords(related, owner, th).1)
      ensures db == old(db)
    {
      var i := 0;
      while i < |related|
        invariant 0 <= i <= |related|
        invariant RelatedRecords(related[..i], owner, th).1.None?
        invariant queue == old(queue) + RelatedRecords(related[..i], owner, th).0 && db == old(db)
      {
        err := EnqueueNext(related, i, owner, th, old(queue));
        if err.Some? {
          RelatedFailFrom(related, owner, th, i + 1);
          return;
        }
        i := i + 1;
      }
      assert related[..i] == related;
      err := None;
    }

    /** The body of that loop for the `i`-th related task: `Bug(rt)`, then
        its serialisation with the bug as `task`. */
    method EnqueueNext(related: seq<Items>, i: nat, owner: Doc, th: Thresholds, ghost start: seq<Record>)
      returns (err: Option<Error>)
      modifies this
      requires i < |related| && RelatedRecords(related[..i], owner, th).1.None?
      requires queue == start + RelatedRecords(related[..i], owner, th).0
      ensures queue == start + RelatedRecords(related[..i + 1], owner, th).0 && err == RelatedRecords(related[..i + 1], owner, th).1
      ensures db == old(db)
    {
      RelatedRecordsStep(related, owner, th, i);
      ghost var prev := RelatedRecords(related[..i], owner, th).0;
      var rt := NewBug(related[i]);
      if rt.Err? {
        return Some(rt.error);
      }
      var rec := Serialize(rt.value, Some(VObj(owner)), th);
      assert rec == RelatedRecord(related[i], owner, th);
      if rec.Err? {
        return Some(rec.error);
      }
      queue := queue + [rec.value];
      AppendAssoc(start, prev, [rec.value]);
      err := None;
    }

    /** `process_bugs` once the loaders are done: the queue is drained into
        the store in order. */
    method ProcessBugs()
      modifies this
      ensures queue == [] && db == ProcessedDocs(old(db), RecordDocs(old(queue)))
    {
      db := Drain(db, RecordDocs(queue));
      queue := [];
    }
  }

  lemma {:induction false} LoadFailsFrom(st: SyncState, tasks: seq<Tasks.RemoteTask>, projects: seq<string>,
                                         series: map<string, string>, th: Thresholds, j: nat)
    requires j <= |tasks| && LoadAll(st, tasks[..j], projects, series, th).1.Some?
    ensures LoadAll(st, tasks, projects, series, th) == LoadAll(st, tasks[..j], projects, series, th)
  {
    if j < |tasks| {
      var pre := tasks[..|tasks| - 1];
      assert pre[..j] == tasks[..j];
      LoadFailsFrom(st, pre, projects, series, th, j);
    } else {
      assert tasks[..j] == tasks;
    }
  }

}
