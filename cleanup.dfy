/** The cleanup script: the tasks the tracker still lists are gathered into a
    cache keyed by task id, and every stored task of the project whose web
    link is not in that cache is removed from the store. The tracker's
    searches are given as sequences of tasks. */
module Cleanup {
  import opened Wrappers
  import opened Documents
  import opened Store
  import Strings

  /** The projects the script cleans, in order. */
  const ProjectsList: seq<string> := ["fuel", "mos", "murano", "mistral", "sahara", "ceilometer"]

  /** A task returned by a search of the tracker: its API link and its web
      link. */
  datatype Task = Task(selfLink: string, webLink: string)

  /** Task id to the web links of the tasks listed with it. */
  type TasksCache = map<string, seq<string>>

  /** `s.split('/')[-1]`, character by character. */
  function LastSegment(s: string): string {
    if s == [] || s[|s| - 1] == '/' then [] else LastSegment(s[..|s| - 1]) + [s[|s| - 1]]
  }

  /** It is the text after the last `/`, or all of `s` when there is none. */
  lemma LastSegmentAfterLast(s: string)
    ensures LastSegment(s) == Strings.AfterLast(s, '/')
  {
    var r1 := LastSegment(s);
    var r2 := Strings.AfterLast(s, '/');
    LastSegmentShape(s);
  }

  /** A `/`-free suffix of `s`, preceded by a `/` unless it is all of `s`. */
  lemma {:induction false} LastSegmentShape(s: string)
    ensures var r := LastSegment(s);
      '/' !in r && |r| <= |s| && r == s[|s| - |r|..] && (|r| < |s| ==> s[|s| - |r| - 1] == '/')
  {
    if s != [] && s[|s| - 1] != '/' {
      LastSegmentShape(s[..|s| - 1]);
    }
  }

  /** The last `/` segment of the bug task's API link. */
  function TaskId(t: Task): string {
    LastSegment(t.selfLink)
  }

  /** The links recorded for `id`, none when it is absent. */
  function Lookup(cache: TasksCache, id: string): seq<string> {
    if id in cache then cache[id] else []
  }

  /** `add_task_to_cache(t)`: the bug task's web link is appended to the list of
      its id, which is created when the id is new. */
  function AddTask(cache: TasksCache, t: Task): TasksCache {
    var id := TaskId(t);
    if id in cache then cache[id := cache[id] + [t.webLink]] else cache[id := [t.webLink]]
  }

  /** The cache after adding `tasks` in order. */
  function AddTasks(cache: TasksCache, tasks: seq<Task>): TasksCache {
    if tasks == [] then cache else AddTask(AddTasks(cache, tasks[..|tasks| - 1]), tasks[|tasks| - 1])
  }

  /** `add_task_to_cache` appends the bug task's web link to the list of its
      own id, creating the list when the id is new, and touches no other
      id. */
  lemma AddTaskLookup(cache: TasksCache, t: Task, id: string)
    ensures Lookup(AddTask(cache, t), id) == Lookup(cache, id) + (if id == TaskId(t) then [t.webLink] else [])
    ensures id in AddTask(cache, t) <==> id in cache || id == TaskId(t)
  {
  }

  lemma AddTasksStep(cache0: TasksCache, tasks: seq<Task>, j: nat)
    requires j < |tasks|
    ensures AddTasks(cache0, tasks[..j + 1]) == AddTask(AddTasks(cache0, tasks[..j]), tasks[j])
  {
    assert tasks[..j + 1][..j] == tasks[..j];
  }

  /** The web links of the tasks with id `id`, in order. */
  function LinksWithId(tasks: seq<Task>, id: string): seq<string> {
    if tasks == [] then []
    else LinksWithId(tasks[..|tasks| - 1], id) + (if TaskId(tasks[|tasks| - 1]) == id then [tasks[|tasks| - 1].webLink] else [])
  }

  lemma {:induction false} LinksWithIdMembers(tasks: seq<Task>, id: string, link: string)
    ensures link in LinksWithId(tasks, id) <==> exists t :: t in tasks && TaskId(t) == id && t.webLink == link
  {
    if tasks != [] {
      var pre := tasks[..|tasks| - 1];
      var t := tasks[|tasks| - 1];
      LinksWithIdMembers(pre, id, link);
      assert tasks == pre + [t];
    }
  }

  /** Adding tasks appends, for every id, exactly the web links of the added
      tasks with that id, in the order they were added; an id is present
      afterwards iff it was before or one of the added tasks has it. */
  lemma {:induction false} AddTasksLinks(cache: TasksCache, tasks: seq<Task>, id: string)
    ensures Lookup(AddTasks(cache, tasks), id) == Lookup(cache, id) + LinksWithId(tasks, id)
    ensures id in AddTasks(cache, tasks) <==> id in cache || LinksWithId(tasks, id) != []
  {
    if tasks != [] {
      var pre := tasks[..|tasks| - 1];
      var t := tasks[|tasks| - 1];
      var before := AddTasks(cache, pre);
      var added := if id == TaskId(t) then [t.webLink] else [];
      AddTasksLinks(cache, pre, id);
      AddTaskLookup(before, t, id);
      assert AddTasks(cache, tasks) == AddTask(before, t);
      assert LinksWithId(tasks, id) == LinksWithId(pre, id) + added;
      assert Lookup(cache, id) + LinksWithId(pre, id) + added == Lookup(cache, id) + (LinksWithId(pre, id) + added);
    }
  }

  lemma {:induction false} AddTasksAppend(cache: TasksCache, a: seq<Task>, b: seq<Task>)
    ensures AddTasks(cache, a + b) == AddTasks(AddTasks(cache, a), b)
  {
    if b == [] {
      assert a + b == a;
    } else {
      AddTasksAppend(cache, a, b[..|b| - 1]);
      assert (a + b)[..|a + b| - 1] == a + b[..|b| - 1];
    }
  }

  function Flatten(series: seq<seq<Task>>): seq<Task> {
    if series == [] then [] else Flatten(series[..|series| - 1]) + series[|series| - 1]
  }

  /** Every task of every series search, then every task of the project
      search, goes into the cache. */
  method BuildCache(series: seq<seq<Task>>, projectTasks: seq<Task>) returns (cache: TasksCache)
    ensures cache == AddTasks(map[], Flatten(series) + projectTasks)
  {
    cache := map[];
    var i := 0;
    while i < |series|
      invariant 0 <= i <= |series| && cache == AddTasks(map[], Flatten(series[..i]))
    {
      assert series[..i + 1][..i] == series[..i];
      AddTasksAppend(map[], Flatten(series[..i]), series[i]);
      cache := AddAll(cache, series[i]);
      i := i + 1;
    }
    assert series[..i] == series;
    AddTasksAppend(map[], Flatten(series), projectTasks);
    cache := AddAll(cache, projectTasks);
  }

  /** `for t in tasks: add_task_to_cache(t)`. */
  method AddAll(cache0: TasksCache, tasks: seq<Task>) returns (cache: TasksCache)
    ensures cache == AddTasks(cache0, tasks)
  {
    cache := cache0;
    var j := 0;
    while j < |tasks|
      invariant 0 <= j <= |tasks| && cache == AddTasks(cache0, tasks[..j])
    {
      AddTasksStep(cache0, tasks, j);
      cache := AddTask(cache, tasks[j]);
      j := j + 1;
    }
    assert tasks[..j] == tasks;
  }

  /** The web link is listed under its own id (its last `/` segment). */
  predicate Listed(link: string, cache: TasksCache) {
    var id := LastSegment(link);
    id in cache && link in cache[id]
  }

  /** Whether a stored task goes: `task['web_link']` raises `KeyError` when
      the field is missing and splitting it raises `AttributeError` when it
      is not a string. */
  function Outdated(d: Doc, cache: TasksCache): (r: Result<bool>)
    ensures r.Ok? <==> "web_link" in d && d["web_link"].VStr?
    ensures r.Ok? ==> (r.value <==> !Listed(d["web_link"].s, cache))
  {
    if "web_link" !in d then Err(KeyError("web_link"))
    else match d["web_link"]
      case VStr(link) => Ok(!Listed(link, cache))
      case _ => Err(AttributeError("split"))
  }

  /** The collection after visiting `docs` in order, each outdated one being
      removed with itself as the query; an exception stops the loop. */
  function Swept(c: seq<Doc>, docs: seq<Doc>, cache: TasksCache): (seq<Doc>, Option<Error>) {
    if docs == [] then (c, None)
    else
      var prev := Swept(c, docs[..|docs| - 1], cache);
      if prev.1.Some? then prev
      else match Outdated(docs[|docs| - 1], cache)
        case Err(e) => (prev.0, Some(e))
        case Ok(gone) => (if gone then Remove(prev.0, docs[|docs| - 1]) else prev.0, None)
  }

  /** Cleanup never inserts or alters a document: what is left was there. */
  lemma {:induction false} SweptOnlyRemoves(c: seq<Doc>, docs: seq<Doc>, cache: TasksCache)
    ensures forall e :: e in Swept(c, docs, cache).0 ==> e in c
  {
    if docs != [] {
      SweptOnlyRemoves(c, docs[..|docs| - 1], cache);
    }
  }

  /** The sweep stops with an exception iff some visited document has no
      string web link. */
  lemma {:induction false} SweptFails(c: seq<Doc>, docs: seq<Doc>, cache: TasksCache)
    ensures Swept(c, docs, cache).1.None? <==> forall i :: 0 <= i < |docs| ==> Outdated(docs[i], cache).Ok?
  {
    if docs != [] {
      var pre := docs[..|docs| - 1];
      SweptFails(c, pre, cache);
      assert forall i :: 0 <= i < |pre| ==> pre[i] == docs[i];
    }
  }

  /** Every document carries an `_id`, and no two share one (as the store
      guarantees). */
  predicate UniqueIds(c: seq<Doc>) {
    (forall i :: 0 <= i < |c| ==> "_id" in c[i]) &&
    (forall i, j :: 0 <= i < j < |c| ==> c[i]["_id"] != c[j]["_id"])
  }

  /** Removing a stored document with itself as the query removes that
      document only. */
  lemma MatchesSelfOnly(c: seq<Doc>, d: Doc, e: Doc)
    requires UniqueIds(c) && d in c && e in c
    ensures Matches(e, d) <==> e == d
  {
    if Matches(e, d) {
      var i :| 0 <= i < |c| && c[i] == e;
      var j :| 0 <= j < |c| && c[j] == d;
      assert Get(e, "_id") == d["_id"];
    }
  }

  /** After visiting stored documents without an exception, a stored
      document is left iff it was not visited or is not outdated. */
  lemma {:induction false} SweptKeeps(c: seq<Doc>, docs: seq<Doc>, cache: TasksCache)
    requires UniqueIds(c) && forall d :: d in docs ==> d in c
    requires Swept(c, docs, cache).1.None?
    ensures forall e :: e in Swept(c, docs, cache).0 <==> e in c && !(e in docs && Outdated(e, cache) == Ok(true))
  {
    if docs != [] {
      var pre := docs[..|docs| - 1];
      var last := docs[|docs| - 1];
      assert docs == pre + [last];
      SweptKeeps(c, pre, cache);
      SweptOnlyRemoves(c, pre, cache);
      forall e | e in c
        ensures Matches(e, last) <==> e == last
      {
        MatchesSelfOnly(c, last, e);
      }
    }
  }

  /** Some task the tracker listed has exactly this web link, and the id
      the link ends with. */
  predicate ListedBy(link: string, tasks: seq<Task>) {
    exists t :: t in tasks && t.webLink == link && TaskId(t) == LastSegment(link)
  }

  /** The removal rule: after a cleanup that raised nothing, a stored task is
      left iff the tracker listed a task with exactly its web link and the id
      that link ends with. */
  lemma CleanupRule(c: seq<Doc>, series: seq<seq<Task>>, projectTasks: seq<Task>)
    requires UniqueIds(c)
    requires Swept(c, c, AddTasks(map[], Flatten(series) + projectTasks)).1.None?
    ensures forall e: Doc :: e in Swept(c, c, AddTasks(map[], Flatten(series) + projectTasks)).0 <==>
      e in c && Get(e, "web_link").VStr? && ListedBy(Get(e, "web_link").s, Flatten(series) + projectTasks)
  {
    var tasks := Flatten(series) + projectTasks;
    var cache := AddTasks(map[], tasks);
    SweptKeeps(c, c, cache);
    SweptFails(c, c, cache);
    forall e: Doc | e in c
      ensures Get(e, "web_link").VStr?
      ensures Outdated(e, cache) == Ok(true) <==> !ListedBy(Get(e, "web_link").s, tasks)
    {
      assert Outdated(e, cache).Ok?;
      var link := e["web_link"].s;
      AddTasksLinks(map[], tasks, LastSegment(link));
      LinksWithIdMembers(tasks, LastSegment(link), link);
    }
  }

  /** The store of tracked bugs. */
  class BugsDb {
    var db: Collections

    constructor (db: Collections)
      ensures this.db == db
    {
      this.db := db;
    }

    /** `cleanup(project)` over the collection `name`: the cache is built
        from the searches, then every document the collection held at the
        start is checked in order; an exception ends the cleanup, leaving
        the removals made so far. */
    method Cleanup(name: string, series: seq<seq<Task>>, projectTasks: seq<Task>) returns (err: Option<Error>)
      modifies this
      ensures var r := Swept(Coll(old(db), name), Coll(old(db), name), AddTasks(map[], Flatten(series) + projectTasks));
        err == r.1 && db == if name in old(db) then old(db)[name := r.0] else old(db)
    {
      var cache := BuildCache(series, projectTasks);
      if name !in db {
        return None;
      }
      var docs := db[name];
      ghost var coll := docs;
      err := None;
      for k := 0 to |docs|
        invariant Swept(docs, docs[..k], cache) == (coll, None)
        invariant db == old(db)[name := coll]
      {
        SweptStep(docs, docs, k, cache, coll);
        var v := Outdated(docs[k], cache);
        if v.Err? {
          SweptStops(docs, docs[..k + 1], docs, cache);
          return Some(v.error);
        }
        if v.value {
          db := db[name := Remove(db[name], docs[k])];
          coll := Remove(coll, docs[k]);
        }
      }
      assert docs[..|docs|] == docs;
    }
  }

  /** One more visited document, when the sweep has not stopped. */
  lemma SweptStep(c: seq<Doc>, docs: seq<Doc>, k: nat, cache: TasksCache, coll: seq<Doc>)
    requires k < |docs| && Swept(c, docs[..k], cache) == (coll, None)
    ensures Swept(c, docs[..k + 1], cache) == match Outdated(docs[k], cache)
      case Err(e) => (coll, Some(e))
      case Ok(gone) => (if gone then Remove(coll, docs[k]) else coll, None)
  {
    assert docs[..k + 1][..k] == docs[..k];
  }

  /** Once the sweep has stopped, visiting further documents changes
      nothing. */
  lemma {:induction false} SweptStops(c: seq<Doc>, pre: seq<Doc>, docs: seq<Doc>, cache: TasksCache)
    requires pre <= docs && Swept(c, pre, cache).1.Some?
    ensures Swept(c, docs, cache) == Swept(c, pre, cache)
  {
    if |docs| > |pre| {
      assert pre <= docs[..|docs| - 1];
      SweptStops(c, pre, docs[..|docs| - 1], cache);
    } else {
      assert docs == pre;
    }
  }
}
