/** The bug wrapper of the current reporting package: a straight copy of a
    fixed list of fields out of a stored bug record, and the status timeline
    computed from the copied dates. */
module LpBug {
  import opened Wrappers
  import opened Documents
  import Timeline

  /** The field list as the source spells it: a missing comma after
      `"web_link"` glues it to `"milestone"`, so the list has 22 names. */
  const FieldsAsWritten: seq<string> := [
    "date_assigned", "date_closed", "date_confirmed", "date_created",
    "date_fix_committed", "date_fix_released", "date_in_progress",
    "date_incomplete", "date_left_closed", "date_left_new", "date_triaged",
    "id", "web_link" + "milestone", "milestone_link", "status", "tags", "title",
    "importance", "owner", "owner_link", "assignee", "assignee_link"]

  /** The field list as intended: 23 names, `web_link` and `milestone` apart. */
  const FieldsToCopy: seq<string> := [
    "date_assigned", "date_closed", "date_confirmed", "date_created",
    "date_fix_committed", "date_fix_released", "date_in_progress",
    "date_incomplete", "date_left_closed", "date_left_new", "date_triaged",
    "id", "web_link", "milestone", "milestone_link", "status", "tags", "title",
    "importance", "owner", "owner_link", "assignee", "assignee_link"]

  /** The attribute dictionary of a wrapper built from `record` with the
      given field list: every listed name, each bound to `record.get(name)`. */
  function CopiedAttrs(record: Doc, fields: seq<string>): (attrs: Doc)
    ensures forall name :: name in attrs <==> name in fields
  {
    map name | name in fields :: Get(record, name)
  }

  /** The missing comma leaves both `web_link` and `milestone` unset, so
      reading either attribute raises; the intended list sets both from the
      record, a missing key giving `None`. */
  lemma MissingCommaDropsFields(record: Doc)
    ensures |FieldsAsWritten| == 22 && |FieldsToCopy| == 23
    ensures "web_linkmilestone" in FieldsAsWritten
    ensures Attr(CopiedAttrs(record, FieldsAsWritten), "web_link").Err?
    ensures Attr(CopiedAttrs(record, FieldsAsWritten), "milestone").Err?
    ensures Attr(CopiedAttrs(record, FieldsToCopy), "web_link") == Ok(Get(record, "web_link"))
    ensures Attr(CopiedAttrs(record, FieldsToCopy), "milestone") == Ok(Get(record, "milestone"))
  {
    assert FieldsAsWritten[12] == "web_linkmilestone";
    assert FieldsToCopy[12] == "web_link" && FieldsToCopy[13] == "milestone";
    NotInAsWritten("web_link");
    NotInAsWritten("milestone");
  }

  /** Neither name the missing comma glued together is in the field
      list as written. */
  lemma NotInAsWritten(name: string)
    requires name == "web_link" || name == "milestone"
    ensures name !in FieldsAsWritten
  {
  }

  class Bug {
    /** The attributes the constructor sets. */
    var attrs: Doc

    /** Copies every name of the (intended) field list from the record. */
    constructor (record: Doc)
      ensures attrs == CopiedAttrs(record, FieldsToCopy)
      ensures forall name :: name in FieldsToCopy ==> name in attrs && attrs[name] == Get(record, name)
    {
      var copied: Doc := map[];
      var i := 0;
      while i < |FieldsToCopy|
        invariant 0 <= i <= |FieldsToCopy|
        invariant copied == CopiedAttrs(record, FieldsToCopy[..i])
      {
        var name := FieldsToCopy[i];
        assert FieldsToCopy[..i + 1] == FieldsToCopy[..i] + [name];
        copied := copied[name := Get(record, name)];
        i := i + 1;
      }
      assert FieldsToCopy[..i] == FieldsToCopy;
      attrs := copied;
    }

    /** The bug's current status, when it is a string. */
    function Status(): Option<string>
      reads this
    {
      StrOf(Get(attrs, "status"))
    }

    /** `get_status_changes`, run over the copied attributes. */
    method GetStatusChanges() returns (r: Result<seq<Timeline.Event>>)
      ensures r == Timeline.Timeline(Status(), Timeline.DatesOf(attrs))
      ensures r.Ok? ==> Timeline.DateSorted(r.value) && Timeline.RankIncreasing(r.value)
    {
      r := Timeline.StatusChanges(Status(), Timeline.DatesOf(attrs));
      if r.Ok? {
        Timeline.TimelineShape(Status(), Timeline.DatesOf(attrs));
      }
    }
  }
}
