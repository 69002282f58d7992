/** Bug tasks as the tracker's client returns them, and the set of projects
    a bug is targeted to (`get_bug_targets`). */
module Tasks {
  import opened Wrappers
  import opened Documents
  import Strings

  /** A bug task of the tracker: its attributes (`bug`, `milestone`,
      `owner`, ... are objects) and the JSON entries of its related tasks
      (`related_tasks.entries`), each a dictionary given by its items. */
  datatype RemoteTask = RemoteTask(attrs: Doc, related: seq<Items>)

  /** `name.split('/')[0]` on a string attribute; anything but a string has
      no `split`. */
  function ProjectOf(v: Value): (r: Result<string>)
    ensures r.Ok? <==> v.VStr?
    ensures r.Ok? ==> '/' !in r.value && r.value <= v.s
  {
    if v.VStr? then Ok(Strings.BeforeFirst(v.s, '/')) else Err(AttributeError("split"))
  }

  /** The projects of the related tasks, in order, failing on the first
      task without a string `bug_target_name`. */
  function RelatedProjects(related: seq<Items>): (r: Result<seq<string>>)
    ensures r.Ok? ==> |r.value| == |related|
  {
    if related == [] then Ok([])
    else
      var pre :- RelatedProjects(related[..|related| - 1]);
      var name := ItemAt(related[|related| - 1], "bug_target_name");
      var p :- if name.Ok? then ProjectOf(name.value) else Err(AttributeError("bug_target_name"));
      Ok(pre + [p])
  }

  /** The projects a bug is targeted to: the project of its own task and of
      every related task. */
  function Targets(task: RemoteTask): Result<set<string>> {
    var own :- Attr(task.attrs, "bug_target_name");
    var p :- ProjectOf(own);
    var rs :- RelatedProjects(task.related);
    Ok({p} + set q | q in rs)
  }

  /** The targets are the bug's own project and the related tasks'
      projects, and nothing else. */
  lemma TargetsMembers(task: RemoteTask)
    requires Targets(task).Ok?
    ensures "bug_target_name" in task.attrs && ProjectOf(task.attrs["bug_target_name"]).Ok?
    ensures RelatedProjects(task.related).Ok?
    ensures forall q :: q in Targets(task).value <==>
      q == ProjectOf(task.attrs["bug_target_name"]).value ||
      exists i :: 0 <= i < |task.related| && q == RelatedProjects(task.related).value[i]
  {
    var rs := RelatedProjects(task.related).value;
    forall q ensures q in Targets(task).value <==>
      q == ProjectOf(task.attrs["bug_target_name"]).value || exists i :: 0 <= i < |rs| && q == rs[i]
    {
      if q in rs {
        var i :| 0 <= i < |rs| && rs[i] == q;
      }
    }
  }

  /** `get_bug_targets`: the set built by adding one project per task. */
  method GetBugTargets(task: RemoteTask) returns (r: Result<set<string>>)
    ensures r == Targets(task)
  {
    var own := Attr(task.attrs, "bug_target_name");
    if own.Err? {
      return Err(own.error);
    }
    var p := ProjectOf(own.value);
    if p.Err? {
      return Err(p.error);
    }
    var targets := {p.value};
    ghost var found: seq<string> := [];
    var i := 0;
    while i < |task.related|
      invariant 0 <= i <= |task.related|
      invariant RelatedProjects(task.related[..i]) == Ok(found)
      invariant targets == {p.value} + set q | q in found
    {
      assert task.related[..i + 1][..i] == task.related[..i];
      var name := ItemAt(task.related[i], "bug_target_name");
      if name.Err? {
        RelatedFailFrom(task.related, i + 1);
        return Err(AttributeError("bug_target_name"));
      }
      var q := ProjectOf(name.value);
      if q.Err? {
        RelatedFailFrom(task.related, i + 1);
        return Err(q.error);
      }
      targets := targets + {q.value};
      found := found + [q.value];
      i := i + 1;
    }
    assert task.related[..i] == task.related;
    return Ok(targets);
  }

  lemma {:induction false} RelatedFailFrom(related: seq<Items>, j: nat)
    requires j <= |related| && RelatedProjects(related[..j]).Err?
    ensures RelatedProjects(related).Err?
    ensures RelatedProjects(related) == RelatedProjects(related[..j])
  {
    if j < |related| {
      var pre := related[..|related| - 1];
      assert pre[..j] == related[..j];
      RelatedFailFrom(pre, j);
    } else {
      assert related[..j] == related;
    }
  }
}
