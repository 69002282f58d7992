/** The older synchroniser: its serialisation of a task (which reads the
    client objects first and falls back on the links), its loader (related
    tasks only, no store maintenance), the shared processor and the
    watermark written at the end of a run. */
module LegacySync {
  import opened Wrappers
  import opened Documents
  import Strings
  import Tasks
  import opened Store
  import SyncUtil

  /** `obj.name, obj.web_link` when both reads succeed. */
  function NameAndLink(obj: Value): Result<(Value, Value)> {
    var name :- Member(obj, "name");
    var link :- Member(obj, "web_link");
    Ok((name, link))
  }

  /** The fallback for the assignee: the text after the first `~` of a
      present assignee link (`None` for a falsy link), and the link as it
      is. */
  function AssigneeFromLink(bug: Doc): (r: Result<(Value, Value)>)
    ensures r.Ok? <==> ("assignee_link" in bug && (!Truthy(bug["assignee_link"]) || '~' in Str(bug["assignee_link"])))
    ensures r.Ok? ==> r.value.1 == bug["assignee_link"]
    ensures r.Ok? && Truthy(bug["assignee_link"]) ==> r.value.0 == VStr(SyncUtil.FieldAfter(bug["assignee_link"], '~').value)
    ensures r.Ok? && !Truthy(bug["assignee_link"]) ==> r.value.0 == VNone
  {
    var link :- Attr(bug, "assignee_link");
    if Truthy(link) then
      var a :- SyncUtil.FieldAfter(link, '~');
      Ok((VStr(a), link))
    else Ok((VNone, link))
  }

  /** The assignee and its link. The guarded block reads
      `bug.assignee.name` (`None` without an assignee) and then the
      `web_link` of that name; any failure in it falls back on the link. */
  function LegacyAssignee(bug: Doc): Result<(Value, Value)> {
    var guarded: Result<(Value, Value)> :=
      var assignee :- Attr(bug, "assignee");
      var name :- if Truthy(assignee) then Member(assignee, "name") else Ok(VNone);
      var link :- Member(name, "web_link");
      Ok((name, link));
    if guarded.Ok? then guarded else AssigneeFromLink(bug)
  }

  /** The name the client gives is a string, never an object with a
      `web_link`, and `None` has none either: whatever the assignee, the
      guarded block fails and the assignee comes from the link. */
  lemma AssigneeAlwaysFromLink(bug: Doc)
    requires "assignee" in bug && Truthy(bug["assignee"]) && Member(bug["assignee"], "name").Ok? ==>
      !Member(bug["assignee"], "name").value.VObj?
    ensures LegacyAssignee(bug) == AssigneeFromLink(bug)
  {
  }

  /** The milestone and its link: `bug.milestone.name` and `web_link`, or
      the last `/` segment of the milestone link and the link itself. */
  function LegacyMilestone(bug: Doc): (r: Result<(Value, Value)>)
    ensures ("milestone" !in bug || NameAndLink(bug["milestone"]).Err?) ==>
      r == (if "milestone_link" in bug
            then Ok((VStr(Strings.AfterLast(Str(bug["milestone_link"]), '/')), bug["milestone_link"]))
            else Err(AttributeError("milestone_link")))
    ensures "milestone" in bug && NameAndLink(bug["milestone"]).Ok? ==> r == NameAndLink(bug["milestone"])
  {
    var guarded: Result<(Value, Value)> :=
      var milestone :- Attr(bug, "milestone");
      NameAndLink(milestone);
    if guarded.Ok? then guarded
    else
      var link :- Attr(bug, "milestone_link");
      Ok((VStr(Strings.AfterLast(Str(link), '/')), link))
  }

  /** The owner and its link: `bug.owner.name` and `web_link`, or the text
      after the first `~` of the owner link and the link itself. */
  function LegacyOwner(bug: Doc): (r: Result<(Value, Value)>)
    ensures ("owner" !in bug || NameAndLink(bug["owner"]).Err?) ==>
      (r.Ok? <==> "owner_link" in bug && '~' in Str(bug["owner_link"])) &&
      (r.Ok? ==> r.value == (VStr(SyncUtil.FieldAfter(bug["owner_link"], '~').value), bug["owner_link"]))
    ensures "owner" in bug && NameAndLink(bug["owner"]).Ok? ==> r == NameAndLink(bug["owner"])
  {
    var guarded: Result<(Value, Value)> :=
      var owner :- Attr(bug, "owner");
      NameAndLink(owner);
    if guarded.Ok? then guarded
    else
      var link :- Attr(bug, "owner_link");
      var o :- SyncUtil.FieldAfter(link, '~');
      Ok((VStr(o), link))
  }

  /** `parse(d.ctime()) > threshold`: only a date has `ctime`. */
  function After(d: Value, threshold: int): (r: Result<bool>)
    ensures r.Ok? <==> d.VDate?
    ensures r.Ok? ==> r.value == (d.t > threshold)
  {
    if d.VDate? then Ok(d.t > threshold) else Err(AttributeError("ctime"))
  }

  /** The fix flag: `None` without a fix date, else the comparison. */
  function FixedFlag(d: Value, threshold: int): (r: Result<Value>)
    ensures d == VNone ==> r == Ok(VNone)
    ensures d.VDate? ==> r == Ok(VBool(d.t > threshold))
    ensures r.Ok? <==> d == VNone || d.VDate?
  {
    if d == VNone then Ok(VNone)
    else
      var b :- After(d, threshold);
      Ok(VBool(b))
  }

  /** The lifecycle dates are read as they are: only a missing one fails,
      naming the first. */
  function RawDates(bug: Doc, names: seq<string>): (r: Result<()>)
    ensures r.Ok? <==> forall n :: n in names ==> n in bug
    ensures r.Err? ==> exists n :: n in names && n !in bug && r.error == AttributeError(n)
  {
    if names == [] then Ok(())
    else if names[0] !in bug then Err(AttributeError(names[0]))
    else RawDates(bug, names[1..])
  }

  /** The attribute reads before the record's literal: the web link, the
      eleven lifecycle dates, assignee, milestone, owner and the bug item
      (`task.bug` when a truthy task is given). */
  datatype Prelude = Prelude(webLink: Value, created: Value, fixed: Value,
    assignee: (Value, Value), milestone: (Value, Value), owner: (Value, Value), item: Value)

  function PreludeOf(bug: Doc, task: Option<Value>): (r: Result<Prelude>)
    ensures r.Ok? ==> "date_created" in bug && r.value.created == bug["date_created"]
    ensures r.Ok? ==> "date_fix_committed" in bug && r.value.fixed == bug["date_fix_committed"]
    ensures r.Ok? ==> LegacyAssignee(bug) == Ok(r.value.assignee)
    ensures r.Ok? ==> LegacyMilestone(bug) == Ok(r.value.milestone)
    ensures r.Ok? ==> LegacyOwner(bug) == Ok(r.value.owner)
    ensures r.Ok? ==> (if task.Some? && Truthy(task.value) then Member(task.value, "bug") else Attr(bug, "bug")) == Ok(r.value.item)
  {
    var webLink :- Attr(bug, "web_link");
    var _ :- RawDates(bug, SyncUtil.DateNames);
    var created :- Attr(bug, "date_created");
    var fixed :- Attr(bug, "date_fix_committed");
    var assignee :- LegacyAssignee(bug);
    var milestone :- LegacyMilestone(bug);
    var owner :- LegacyOwner(bug);
    var item :- if task.Some? && Truthy(task.value) then Member(task.value, "bug") else Attr(bug, "bug");
    Ok(Prelude(webLink, created, fixed, assignee, milestone, owner, item))
  }

  /** The flags of a record: created within the week and the month, and
      fixed within them (`None` without a fix date). */
  datatype LegacyFlags = LegacyFlags(createdWeek: bool, createdMonth: bool, fixedWeek: Value, fixedMonth: Value)

  function LegacyFlagsOf(created: Value, fixed: Value, th: SyncUtil.Thresholds): (r: Result<LegacyFlags>)
    ensures r.Ok? <==> created.VDate? && (fixed == VNone || fixed.VDate?)
    ensures r.Ok? ==> r.value.createdWeek == (created.t > th.weekAgo) && r.value.createdMonth == (created.t > th.monthAgo)
    ensures r.Ok? && fixed == VNone ==> r.value.fixedWeek == VNone && r.value.fixedMonth == VNone
    ensures r.Ok? && fixed.VDate? ==> r.value.fixedWeek == VBool(fixed.t > th.weekAgo) && r.value.fixedMonth == VBool(fixed.t > th.monthAgo)
  {
    var createdWeek :- After(created, th.weekAgo);
    var createdMonth := After(created, th.monthAgo).value;
    var fixedWeek :- FixedFlag(fixed, th.weekAgo);
    var fixedMonth := FixedFlag(fixed, th.monthAgo).value;
    Ok(LegacyFlags(createdWeek, createdMonth, fixedWeek, fixedMonth))
  }

  /** The links and names of a record: a falsy milestone or assignee
      name is stored as `None`, the milestone link is a one-element tuple
      (of `None` without a milestone name), and without an assignee name
      the assignee link is that name itself. */
  datatype LegacyLinks = LegacyLinks(webLink: Value, milestone: Value, milestoneLink: Value,
    owner: Value, ownerLink: Value, assignee: Value, assigneeLink: Value)

  function LinksOf(p: Prelude): (r: LegacyLinks)
    ensures r.webLink == p.webLink && r.owner == p.owner.0 && r.ownerLink == p.owner.1
    ensures Truthy(p.milestone.0) ==> r.milestone == p.milestone.0 && r.milestoneLink == VList([p.milestone.1])
    ensures !Truthy(p.milestone.0) ==> r.milestone == VNone && r.milestoneLink == VList([VNone])
    ensures Truthy(p.assignee.0) ==> r.assignee == p.assignee.0 && r.assigneeLink == p.assignee.1
    ensures !Truthy(p.assignee.0) ==> r.assignee == VNone && r.assigneeLink == p.assignee.0
  {
    var (m, mLink) := p.milestone;
    var (a, aLink) := p.assignee;
    LegacyLinks(p.webLink,
      if Truthy(m) then m else VNone, VList([if Truthy(m) then mLink else VNone]),
      p.owner.0, p.owner.1,
      if Truthy(a) then a else VNone, if Truthy(a) then aLink else a)
  }

  /** The fields read for the record literal, from the bug task and the bug
      item, in the literal's order. */
  datatype LegacyFields = LegacyFields(id: Value, targetName: Value, status: Value,
    tags: Value, title: Value, importance: Value)

  function LegacyFieldsOf(bug: Doc, item: Value): (r: Result<LegacyFields>)
    ensures r.Ok? <==> (Member(item, "id").Ok? && Member(item, "tags").Ok? && Member(item, "title").Ok? &&
      "bug_target_name" in bug && "status" in bug && "importance" in bug)
    ensures r.Ok? ==> r.value == LegacyFields(Member(item, "id").value, bug["bug_target_name"], bug["status"],
      Member(item, "tags").value, Member(item, "title").value, bug["importance"])
  {
    var id :- Member(item, "id");
    var targetName :- Attr(bug, "bug_target_name");
    var status :- Attr(bug, "status");
    var tags :- Member(item, "tags");
    var title :- Member(item, "title");
    var importance :- Attr(bug, "importance");
    Ok(LegacyFields(id, targetName, status, tags, title, importance))
  }

  /** The record of the older synchroniser; it carries no lifecycle dates. */
  datatype LegacyRecord = LegacyRecord(links: LegacyLinks, fields: LegacyFields, flags: LegacyFlags)

  /** `serialize_bug(bug, task)` of the older synchroniser. */
  function LegacySerialize(bug: Doc, task: Option<Value>, th: SyncUtil.Thresholds): Result<LegacyRecord> {
    var p :- PreludeOf(bug, task);
    var fields :- LegacyFieldsOf(bug, p.item);
    var flags :- LegacyFlagsOf(p.created, p.fixed, th);
    Ok(LegacyRecord(LinksOf(p), fields, flags))
  }

  /** A record is made exactly when the reads before the literal, the
      literal's fields and the flags all succeed, and it carries their
      values. */
  lemma LegacySerializeParts(bug: Doc, task: Option<Value>, th: SyncUtil.Thresholds)
    ensures var r := LegacySerialize(bug, task, th); var p := PreludeOf(bug, task);
      r.Ok? <==> (p.Ok? && LegacyFieldsOf(bug, p.value.item).Ok? && LegacyFlagsOf(p.value.created, p.value.fixed, th).Ok?)
    ensures var r := LegacySerialize(bug, task, th); var p := PreludeOf(bug, task);
      r.Ok? ==> r.value == LegacyRecord(LinksOf(p.value), LegacyFieldsOf(bug, p.value.item).value,
        LegacyFlagsOf(p.value.created, p.value.fixed, th).value)
  {
  }

  /** The record as the document the store keeps. */
  function LegacyDoc(r: LegacyRecord): Doc {
    map[
      "id" := r.fields.id, "target_name" := r.fields.targetName, "web_link" := r.links.webLink,
      "milestone" := r.links.milestone, "milestone_link" := r.links.milestoneLink,
      "status" := r.fields.status, "tags" := r.fields.tags, "title" := r.fields.title,
      "importance" := r.fields.importance, "owner" := r.links.owner, "owner_link" := r.links.ownerLink,
      "assignee" := r.links.assignee, "assignee_link" := r.links.assigneeLink,
      "created less than week" := VBool(r.flags.createdWeek),
      "created less than month" := VBool(r.flags.createdMonth),
      "fixed less than week" := r.flags.fixedWeek,
      "fixed less than month" := r.flags.fixedMonth]
  }

  /** A record is only made for a task with a creation date and a fix
      date that is a date or `None`; its flags compare them with the
      thresholds, and both fix flags are `None` without a fix date. */
  lemma LegacySerializeFlags(bug: Doc, task: Option<Value>, th: SyncUtil.Thresholds)
    requires LegacySerialize(bug, task, th).Ok?
    ensures "date_created" in bug && bug["date_created"].VDate?
    ensures "date_fix_committed" in bug && (bug["date_fix_committed"] == VNone || bug["date_fix_committed"].VDate?)
    ensures var f := LegacySerialize(bug, task, th).value.flags; var c := bug["date_created"].t;
      f.createdWeek == (c > th.weekAgo) && f.createdMonth == (c > th.monthAgo)
    ensures var f := LegacySerialize(bug, task, th).value.flags; var d := bug["date_fix_committed"];
      (d == VNone ==> f.fixedWeek == VNone && f.fixedMonth == VNone) &&
      (d.VDate? ==> f.fixedWeek == VBool(d.t > th.weekAgo) && f.fixedMonth == VBool(d.t > th.monthAgo))
  {
    var p := PreludeOf(bug, task).value;
    assert LegacySerialize(bug, task, th).value.flags == LegacyFlagsOf(p.created, p.fixed, th).value;
  }

  // ---------------------------------------------------------------------
  // `load_project_bugs`, `process_bugs` and the run

  /** The records of one fetched bug: one per related task (wrapped and
      serialised with the bug as `task`), or the bug's own when it has
      none; and the error that stops it. */
  function BugRecords(task: Tasks.RemoteTask, th: SyncUtil.Thresholds): (seq<LegacyRecord>, Option<Error>) {
    if task.related == [] then
      var own := LegacySerialize(task.attrs, None, th);
      if own.Ok? then ([own.value], None) else ([], Some(own.error))
    else RelatedRecords(task.related, task.attrs, th)
  }

  /** `serialize_bug(Bug(rt), task=bug)`. */
  function RelatedRecord(rt: Items, owner: Doc, th: SyncUtil.Thresholds): Result<LegacyRecord> {
    var b :- SyncUtil.ParseItems(rt);
    LegacySerialize(b, Some(VObj(owner)), th)
  }

  function RelatedRecords(related: seq<Items>, owner: Doc, th: SyncUtil.Thresholds): (seq<LegacyRecord>, Option<Error>) {
    MapUntilError(related, rt => RelatedRecord(rt, owner, th))
  }

  /** Once a related task has failed, the later ones are not serialised. */
  lemma RelatedFailFrom(related: seq<Items>, owner: Doc, th: SyncUtil.Thresholds, j: nat)
    requires j <= |related| && RelatedRecords(related[..j], owner, th).1.Some?
    ensures RelatedRecords(related, owner, th) == RelatedRecords(related[..j], owner, th)
  {
    MapUntilErrorStops(related, rt => RelatedRecord(rt, owner, th), j);
  }

  /** A bug with related tasks puts exactly one record per related task on
      the queue and never its own; a bug without puts its own once. */
  lemma BugRecordsCount(task: Tasks.RemoteTask, th: SyncUtil.Thresholds)
    requires BugRecords(task, th).1.None?
    ensures var recs := BugRecords(task, th).0;
      (task.related == [] ==> recs == [LegacySerialize(task.attrs, None, th).value]) &&
      (task.related != [] ==> (|recs| == |task.related| &&
        forall i :: 0 <= i < |recs| ==> RelatedRecord(task.related[i], task.attrs, th) == Ok(recs[i])))
  {
    if task.related != [] {
      MapUntilErrorComplete(task.related, rt => RelatedRecord(rt, task.attrs, th));
    }
  }

  /** The records of all fetched bugs in order, stopping at the first
      error. */
  function LoadedRecords(tasks: seq<Tasks.RemoteTask>, th: SyncUtil.Thresholds): (seq<LegacyRecord>, Option<Error>) {
    ConcatUntilError(tasks, t => BugRecords(t, th))
  }

  /** Once a fetched bug has failed, the later ones are not loaded. */
  lemma LoadFailsFrom(tasks: seq<Tasks.RemoteTask>, th: SyncUtil.Thresholds, j: nat)
    requires j <= |tasks| && LoadedRecords(tasks[..j], th).1.Some?
    ensures LoadedRecords(tasks, th) == LoadedRecords(tasks[..j], th)
  {
    ConcatUntilErrorStops(tasks, t => BugRecords(t, th), j);
  }

  /** The documents of queued records. */
  function LegacyDocs(recs: seq<LegacyRecord>): (r: seq<Doc>)
    ensures |r| == |recs| && forall i :: 0 <= i < |recs| ==> r[i] == LegacyDoc(recs[i])
  {
    if recs == [] then [] else LegacyDocs(recs[..|recs| - 1]) + [LegacyDoc(recs[|recs| - 1])]
  }

  /** The collection the run's watermark is kept in. */
  const WatermarkCollection := "update_date"

  /** The older synchroniser: the store and the queue between its loaders
      and its processors. */
  class LegacySync {
    var db: Collections
    var queue: seq<LegacyRecord>

    constructor(db: Collections)
      ensures this.db == db && queue == []
    {
      this.db := db;
      queue := [];
    }

    /** `load_project_bugs(project_name, queue, _)` with the fetched bugs
        given; the store is not touched. */
    method LoadProjectBugs(tasks: seq<Tasks.RemoteTask>, th: SyncUtil.Thresholds) returns (err: Option<Error>)
      modifies this
      ensures queue == old(queue) + LoadedRecords(tasks, th).0 && err == LoadedRecords(tasks, th).1
      ensures db == old(db)
    {
      var k := 0;
      while k < |tasks|
        invariant 0 <= k <= |tasks| && db == old(db)
        invariant LoadedRecords(tasks[..k], th).1.None?
        invariant queue == old(queue) + LoadedRecords(tasks[..k], th).0
      {
        err := LoadNext(tasks, k, th, old(queue));
        if err.Some? {
          LoadFailsFrom(tasks, th, k + 1);
          return;
        }
        k := k + 1;
      }
      assert tasks[..k] == tasks;
      err := None;
    }

    /** The body of the loader's loop for the `k`-th fetched bug: its
        records follow those of the bugs before it. */
    method LoadNext(tasks: seq<Tasks.RemoteTask>, k: nat, th: SyncUtil.Thresholds, ghost start: seq<LegacyRecord>)
      returns (err: Option<Error>)
      modifies this
      requires k < |tasks| && LoadedRecords(tasks[..k], th).1.None?
      requires queue == start + LoadedRecords(tasks[..k], th).0
      ensures queue == start + LoadedRecords(tasks[..k + 1], th).0 && err == LoadedRecords(tasks[..k + 1], th).1
      ensures db == old(db)
    {
      assert tasks[..k + 1][..k] == tasks[..k];
      ghost var prev := LoadedRecords(tasks[..k], th).0;
      ghost var step := BugRecords(tasks[k], th);
      assert LoadedRecords(tasks[..k + 1], th) == (prev + step.0, step.1);
      err := LoadOne(tasks[k], th);
      AppendAssoc(start, prev, step.0);
    }

    /** The records of one fetched bug go on the queue. */
    method LoadOne(task: Tasks.RemoteTask, th: SyncUtil.Thresholds) returns (err: Option<Error>)
      modifies this
      ensures queue == old(queue) + BugRecords(task, th).0 && err == BugRecords(task, th).1
      ensures db == old(db)
    {
      if task.related != [] {
        err := EnqueueRelated(task.related, task.attrs, th);
      } else {
        var own := LegacySerialize(task.attrs, None, th);
        if own.Err? {
          return Some(own.error);
        }
        queue := queue + [own.value];
        err := None;
      }
    }

    /** The related tasks of one fetched bug, each wrapped and serialised
        with the bug as `task`, in order, until one fails. */
    method EnqueueRelated(related: seq<Items>, owner: Doc, th: SyncUtil.Thresholds) returns (err: Option<Error>)
      modifies this
      ensures queue == old(queue) + RelatedRecords(related, owner, th).0 && err == RelatedRecords(related, owner, th).1
      ensures db == old(db)
    {
      var i := 0;
      while i < |related|
        invariant 0 <= i <= |related|
        invariant RelatedRecords(related[..i], owner, th).1.None?
        invariant queue == old(queue) + RelatedRecords(related[..i], owner, th).0 && db == old(db)
      {
        err := EnqueueNext(related, i, owner, th, old(queue));
        if err.Some? {
          RelatedFailFrom(related, owner, th, i + 1);
          return;
        }
        i := i + 1;
      }
      assert related[..i] == related;
      err := None;
    }

    /** The body of that loop for the `i`-th related task: `Bug(rt)`, then
        its serialisation with the bug as `task`. */
    method EnqueueNext(related: seq<Items>, i: nat, owner: Doc, th: SyncUtil.Thresholds, ghost start: seq<LegacyRecord>)
      returns (err: Option<Error>)
      modifies this
      requires i < |related| && RelatedRecords(related[..i], owner, th).1.None?
      requires queue == start + RelatedRecords(related[..i], owner, th).0
      ensures queue == start + RelatedRecords(related[..i + 1], owner, th).0 && err == RelatedRecords(related[..i + 1], owner, th).1
      ensures db == old(db)
    {
      assert related[..i + 1][..i] == related[..i];
      ghost var prev := RelatedRecords(related[..i], owner, th).0;
      var rt := SyncUtil.NewBug(related[i]);
      if rt.Err? {
        return Some(rt.error);
      }
      var rec := LegacySerialize(rt.value, Some(VObj(owner)), th);
      assert rec == RelatedRecord(related[i], owner, th);
      if rec.Err? {
        return Some(rec.error);
      }
      assert RelatedRecords(related[..i + 1], owner, th) == (prev + [rec.value], None);
      queue := queue + [rec.value];
      AppendAssoc(start, prev, [rec.value]);
      err := None;
    }

    /** `process_bugs` once the loaders are done: the queue is drained into
        the store in order. */
    method ProcessBugs()
      modifies this
      ensures queue == [] && db == ProcessedDocs(old(db), LegacyDocs(old(queue)))
    {
      db := Drain(db, LegacyDocs(queue));
      queue := [];
    }

    /** The end of a run: `update_date` is dropped, re-created and given
        one document with the time. */
    method WriteWatermark(now: int)
      modifies this
      ensures db == old(db)[WatermarkCollection := [map["Update_date" := VInt(now)]]]
      ensures queue == old(queue)
    {
      db := db[WatermarkCollection := []];
      db := db[WatermarkCollection := Coll(db, WatermarkCollection) + [map["Update_date" := VInt(now)]]];
      assert [] + [map["Update_date" := VInt(now)]] == [map["Update_date" := VInt(now)]];
    }

    /** A run with the loaders and the processors taken one after the
        other. Every project's loader runs to its end or to its first
        exception, queueing the records it reached; the processors upsert
        every queued record. A loader that raises never sets its stop
        event, so the processors never leave their loop, the final joins
        never return and no watermark is written; `err` is then the first
        such exception. */
    method Run(projectTasks: seq<seq<Tasks.RemoteTask>>, th: SyncUtil.Thresholds, now: int)
      returns (err: Option<Error>)
      modifies this
      requires queue == []
      ensures queue == [] && err == RunError(projectTasks, th)
      ensures err.None? ==>
        db == ProcessedDocs(old(db), LegacyDocs(RunRecords(projectTasks, th)))[WatermarkCollection := [map["Update_date" := VInt(now)]]]
      ensures err.Some? ==> db == ProcessedDocs(old(db), LegacyDocs(RunRecords(projectTasks, th)))
    {
      var p := 0;
      err := None;
      while p < |projectTasks|
        invariant 0 <= p <= |projectTasks| && db == old(db)
        invariant queue == RunRecords(projectTasks[..p], th)
        invariant err == RunError(projectTasks[..p], th)
      {
        assert projectTasks[..p + 1][..p] == projectTasks[..p];
        var e := LoadProjectBugs(projectTasks[p], th);
        if err.None? {
          err := e;
        }
        p := p + 1;
      }
      assert projectTasks[..p] == projectTasks;
      ProcessBugs();
      if err.None? {
        WriteWatermark(now);
      }
    }
  }

  /** The first exception raised by a project's loader, if any. */
  function RunError(projectTasks: seq<seq<Tasks.RemoteTask>>, th: SyncUtil.Thresholds): Option<Error> {
    if projectTasks == [] then None
    else
      var before := RunError(projectTasks[..|projectTasks| - 1], th);
      if before.Some? then before else LoaderError(projectTasks[|projectTasks| - 1], th)
  }

  /** The exception a project's loader ends with, if any. */
  function LoaderError(tasks: seq<Tasks.RemoteTask>, th: SyncUtil.Thresholds): Option<Error> {
    LoadedRecords(tasks, th).1
  }

  /** A run fails with the exception of the first project whose loader
      raises, and does not fail when no loader raises. */
  lemma {:induction false} RunErrorFirst(projectTasks: seq<seq<Tasks.RemoteTask>>, th: SyncUtil.Thresholds)
    ensures RunError(projectTasks, th).None? ==>
      forall p :: 0 <= p < |projectTasks| ==> LoaderError(projectTasks[p], th).None?
    ensures RunError(projectTasks, th).Some? ==>
      exists p :: 0 <= p < |projectTasks| && RunError(projectTasks, th) == LoaderError(projectTasks[p], th) &&
        forall q :: 0 <= q < p ==> LoaderError(projectTasks[q], th).None?
    decreases |projectTasks|
  {
    if projectTasks != [] {
      var n := |projectTasks| - 1;
      var init := projectTasks[..n];
      RunErrorFirst(init, th);
      assert forall q :: 0 <= q < n ==> init[q] == projectTasks[q];
      if RunError(init, th).Some? {
        var p :| 0 <= p < n && RunError(init, th) == LoaderError(init[p], th) &&
          forall q :: 0 <= q < p ==> LoaderError(init[q], th).None?;
        assert RunError(projectTasks, th) == LoaderError(projectTasks[p], th);
      } else if LoaderError(projectTasks[n], th).Some? {
        assert RunError(projectTasks, th) == LoaderError(projectTasks[n], th);
      }
    }
  }

  /** The records of all projects' loaders, one project after the other. */
  function RunRecords(projectTasks: seq<seq<Tasks.RemoteTask>>, th: SyncUtil.Thresholds): seq<LegacyRecord> {
    if projectTasks == [] then []
    else RunRecords(projectTasks[..|projectTasks| - 1], th) + LoadedRecords(projectTasks[|projectTasks| - 1], th).0
  }
}
