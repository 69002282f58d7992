/** The bug wrapper of the older reporting application: attributes copied
    from the tracker object and from its JSON representation, then the
    assignee, milestone, title and id parsed out of links and text. */
module LegacyBug {
  import opened Wrappers
  import opened Documents
  import opened Strings
  import Timeline

  /** Attributes read from the tracker object. */
  const FieldsToCopy: seq<string> := [
    "date_assigned", "date_closed", "date_confirmed", "date_created",
    "date_fix_committed", "date_fix_released", "date_in_progress",
    "date_incomplete", "date_left_closed", "date_left_new", "date_triaged",
    "importance", "status"]

  /** Entries read from the object's JSON representation. */
  const FieldsToCopyFromJson: seq<string> := ["assignee_link", "milestone_link", "title", "web_link"]

  /** `sanitize_string`: the printable characters of `s`, in order. */
  function SanitizeString(s: string): (r: string)
    ensures |r| <= |s|
    ensures forall c :: c in r <==> c in s && Printable(c)
    ensures (forall k :: 0 <= k < |s| ==> Printable(s[k])) ==> r == s
  {
    if s == [] then []
    else (if Printable(s[0]) then [s[0]] else []) + SanitizeString(s[1..])
  }

  /** The assignee's name and profile link parsed from `assignee_link`: the
      text after the last `~`; a link whose text is `None` gives two empty
      strings. */
  function AssigneeOf(link: Value): (r: (string, string))
    ensures '~' !in r.0 && r.0 != "None"
    ensures r.1 == "" || r.1 == "https://launchpad.net/~" + r.0
  {
    var name := AfterLast(Str(link), '~');
    if name == "None" then ("", "") else (name, "https://launchpad.net/~" + name)
  }

  /** The text after the last `/` of a link: the milestone is read this way
      from `milestone_link` and the id from `web_link`. */
  function LinkSegment(link: Value): (r: string)
    ensures '/' !in r
  {
    AfterLast(Str(link), '/')
  }

  const TitleStrip: set<char> := {' ', '"'}

  /** The title: printable characters only, then the text after the first
      `:` with spaces and double quotes stripped from both ends. A title
      without `:` raises `IndexError`; a title that is not a string cannot be
      filtered and raises `TypeError`. */
  function TitleOf(title: Value): (r: Result<string>)
    ensures r.Ok? <==> title.VStr? && ':' in SanitizeString(title.s)
    ensures r.Ok? ==> r.value == Strip(AfterFirst(SanitizeString(title.s), ':').value, TitleStrip)
  {
    if !title.VStr? then Err(TypeError("filter over a non-string"))
    else
      var rest :- AfterFirst(SanitizeString(title.s), ':');
      Ok(Strip(rest, TitleStrip))
  }

  /** A link ending in `~name` gives that name, and the profile link is
      rebuilt from it. */
  lemma AssigneeFromLink(prefix: string, name: string)
    requires '~' !in name && name != "None"
    ensures AssigneeOf(VStr(prefix + "~" + name)) == (name, "https://launchpad.net/~" + name)
  {
    AfterLastSuffix(prefix, '~', name);
  }

  /** A missing assignee gives empty name and link. */
  lemma NoAssignee()
    ensures AssigneeOf(VNone) == ("", "")
  {
    assert Str(VNone) == "None";
    assert '~' !in "None";
  }

  /** A link ending in `/segment` gives that segment, for the milestone and
      the id alike; a missing milestone link gives the text `None`. */
  lemma SegmentFromLink(prefix: string, segment: string)
    requires '/' !in segment
    ensures LinkSegment(VStr(prefix + "/" + segment)) == segment
    ensures LinkSegment(VNone) == "None"
  {
    AfterLastSuffix(prefix, '/', segment);
    assert '/' !in "None";
  }

  /** `rsplit(c, 1)[-1]` of `prefix + c + suffix` is `suffix` when `suffix`
      has no `c`. */
  lemma AfterLastSuffix(prefix: string, c: char, suffix: string)
    requires c !in suffix
    ensures AfterLast(prefix + [c] + suffix, c) == suffix
  {
    var s := prefix + [c] + suffix;
    var r := AfterLast(s, c);
    assert s[|s| - |suffix|..] == suffix;
    assert s[|s| - |suffix| - 1] == c;
    assert r == s[|s| - |r|..];
  }

  /** Stripping leaves a string alone whose ends are not stripped. */
  lemma StripKeeps(s: string, cs: set<char>)
    requires s != [] && s[0] !in cs && s[|s| - 1] !in cs
    ensures Strip(s, cs) == s
  {
  }

  predicate AllPrintable(s: string) {
    forall k :: 0 <= k < |s| ==> Printable(s[k])
  }

  lemma PrintableConcat(a: string, b: string)
    requires AllPrintable(a) && AllPrintable(b)
    ensures AllPrintable(a + b)
  {
    forall k | 0 <= k < |a + b| ensures Printable((a + b)[k]) {
      if k >= |a| {
        assert (a + b)[k] == b[k - |a|];
      }
    }
  }

  /** Stripping spaces and quotes from ` "text"` leaves `text`. */
  lemma StripQuoted(text: string)
    requires text != [] && text[0] !in TitleStrip && text[|text| - 1] !in TitleStrip
    ensures Strip(" \"" + text + "\"", TitleStrip) == text
  {
    var rest := " \"" + text + "\"";
    assert rest[1..][1..] == text + "\"";
    assert rest[0] == ' ' && rest[1..][0] == '"' && (text + "\"")[0] == text[0];
    assert StripLeft(rest, TitleStrip) == StripLeft(rest[1..], TitleStrip);
    assert StripLeft(rest[1..], TitleStrip) == StripLeft(text + "\"", TitleStrip);
    assert StripLeft(rest, TitleStrip) == text + "\"";
    assert (text + "\"")[..|text|] == text;
    assert StripRight(text + "\"", TitleStrip) == StripRight(text, TitleStrip);
    StripKeeps(text, TitleStrip);
  }

  /** The tracker's title `Bug #n in project: "text"` gives `text`, when
      the header has no `:` and everything is printable. */
  lemma TitleFromHeader(header: string, text: string)
    requires ':' !in header
    requires text != [] && text[0] !in TitleStrip && text[|text| - 1] !in TitleStrip
    requires AllPrintable(header) && AllPrintable(text)
    ensures TitleOf(VStr(header + ": \"" + text + "\"")) == Ok(text)
  {
    var rest := " \"" + text + "\"";
    var s := header + [':'] + rest;
    assert header + ": \"" + text + "\"" == s;
    PrintableConcat(" \"", text);
    PrintableConcat(" \"" + text, "\"");
    PrintableConcat(header, [':']);
    PrintableConcat(header + [':'], rest);
    assert SanitizeString(s) == s;
    AfterFirstSplit(header, ':', rest);
    StripQuoted(text);
  }

  /** `split(c, 1)[1]` of `before + c + after` is `after` when `before`
      has no `c`. */
  lemma AfterFirstSplit(before: string, c: char, after: string)
    requires c !in before
    ensures AfterFirst(before + [c] + after, c) == Ok(after)
  {
    var s := before + [c] + after;
    var b := BeforeFirst(s, c);
    assert s[..|before|] == before;
    assert s[|before|] == c;
    assert b == before;
    var r := AfterFirst(s, c);
    assert s == b + [c] + r.value;
    assert (b + [c] + r.value)[|before| + 1..] == r.value;
    assert (before + [c] + after)[|before| + 1..] == after;
  }

  /** All four JSON entries are present. */
  predicate JsonComplete(json: Doc) {
    "assignee_link" in json && "milestone_link" in json && "title" in json && "web_link" in json
  }

  /** The first of `names` missing from `d`, if any. */
  function FirstMissing(d: Doc, names: seq<string>): (r: Option<string>)
    ensures r.None? <==> forall k :: 0 <= k < |names| ==> names[k] in d
    ensures r.Some? ==> r.value in names && r.value !in d
  {
    if names == [] then None
    else if names[0] !in d then Some(names[0])
    else
      var rest := FirstMissing(d, names[1..]);
      assert forall k :: 1 <= k < |names| ==> names[k] == names[1..][k - 1];
      rest
  }

  class Bug {
    var attrs: Doc
    var assignee: string
    var assigneeLink: string
    var milestone: string
    var title: string
    var id: string

    constructor Parsed(attrs: Doc, assignee: string, assigneeLink: string, milestone: string, title: string, id: string)
      ensures this.attrs == attrs && this.assignee == assignee && this.assigneeLink == assigneeLink
      ensures this.milestone == milestone && this.title == title && this.id == id
    {
      this.attrs := attrs;
      this.assignee := assignee;
      this.assigneeLink := assigneeLink;
      this.milestone := milestone;
      this.title := title;
      this.id := id;
    }

    function Status(): Option<string>
      reads this
    {
      StrOf(Get(attrs, "status"))
    }

    /** `get_status_changes`: the same timeline as the current wrapper. */
    method GetStatusChanges() returns (r: Result<seq<Timeline.Event>>)
      ensures r == Timeline.Timeline(Status(), Timeline.DatesOf(attrs))
      ensures r.Ok? ==> Timeline.DateSorted(r.value) && Timeline.RankIncreasing(r.value)
    {
      r := Timeline.StatusChanges(Status(), Timeline.DatesOf(attrs));
      if r.Ok? {
        Timeline.TimelineShape(Status(), Timeline.DatesOf(attrs));
      }
    }
  }

  /** The constructor: copies the object attributes (`AttributeError` on the
      first missing one) and the JSON entries (`KeyError`), then parses the
      assignee, milestone, title and id. */
  method NewBug(obj: Doc, json: Doc) returns (r: Result<Bug>)
    ensures FirstMissing(obj, FieldsToCopy).Some? ==> r == Err(AttributeError(FirstMissing(obj, FieldsToCopy).value))
    ensures FirstMissing(obj, FieldsToCopy).None? && FirstMissing(json, FieldsToCopyFromJson).Some? ==>
      r == Err(KeyError(FirstMissing(json, FieldsToCopyFromJson).value))
    ensures FirstMissing(obj, FieldsToCopy).None? && FirstMissing(json, FieldsToCopyFromJson).None? ==>
      JsonComplete(json) && (r.Ok? <==> TitleOf(json["title"]).Ok?)
    ensures r.Ok? ==> fresh(r.value)
    ensures r.Ok? ==> JsonComplete(json)
    ensures r.Ok? && JsonComplete(json) ==>
      var b := r.value;
      (forall name :: name in FieldsToCopy ==> name in b.attrs && b.attrs[name] == obj[name]) &&
      (b.assignee, b.assigneeLink) == AssigneeOf(json["assignee_link"]) &&
      b.milestone == LinkSegment(json["milestone_link"]) &&
      b.title == TitleOf(json["title"]).value &&
      b.id == LinkSegment(json["web_link"])
  {
    var copied := CopyObjectAttrs(obj);
    if copied.Err? {
      return Err(copied.error);
    }
    var missing := CheckJsonKeys(json);
    if missing.Some? {
      return Err(missing.value);
    }
    var who := AssigneeOf(json["assignee_link"]);
    var t := TitleOf(json["title"]);
    if t.Err? {
      return Err(t.error);
    }
    var b := new Bug.Parsed(copied.value, who.0, who.1, LinkSegment(json["milestone_link"]), t.value, LinkSegment(json["web_link"]));
    return Ok(b);
  }

  /** The constructor's first loop: `setattr(self, field, getattr(obj,
      field))` for each object field, stopping at the first missing one. */
  method CopyObjectAttrs(obj: Doc) returns (r: Result<Doc>)
    ensures FirstMissing(obj, FieldsToCopy).Some? ==> r == Err(AttributeError(FirstMissing(obj, FieldsToCopy).value))
    ensures FirstMissing(obj, FieldsToCopy).None? ==>
      r.Ok? && forall name :: name in FieldsToCopy ==> name in r.value && r.value[name] == obj[name]
  {
    var attrs: Doc := map[];
    var i := 0;
    while i < |FieldsToCopy|
      invariant 0 <= i <= |FieldsToCopy|
      invariant FirstMissing(obj, FieldsToCopy[..i]).None?
      invariant forall k :: 0 <= k < i ==> FieldsToCopy[k] in attrs && attrs[FieldsToCopy[k]] == obj[FieldsToCopy[k]]
    {
      var name := FieldsToCopy[i];
      FirstMissingAppend(obj, FieldsToCopy, i);
      if name !in obj {
        return Err(AttributeError(name));
      }
      attrs := attrs[name := obj[name]];
      i := i + 1;
    }
    assert FieldsToCopy[..i] == FieldsToCopy;
    return Ok(attrs);
  }

  /** The constructor's second loop: `json[field]` for each JSON entry,
      `KeyError` at the first missing one. */
  method CheckJsonKeys(json: Doc) returns (err: Option<Error>)
    ensures FirstMissing(json, FieldsToCopyFromJson).Some? ==> err == Some(KeyError(FirstMissing(json, FieldsToCopyFromJson).value))
    ensures FirstMissing(json, FieldsToCopyFromJson).None? ==> err.None? && JsonComplete(json)
  {
    var j := 0;
    while j < |FieldsToCopyFromJson|
      invariant 0 <= j <= |FieldsToCopyFromJson|
      invariant FirstMissing(json, FieldsToCopyFromJson[..j]).None?
    {
      var name := FieldsToCopyFromJson[j];
      FirstMissingAppend(json, FieldsToCopyFromJson, j);
      if name !in json {
        return Some(KeyError(name));
      }
      j := j + 1;
    }
    assert FieldsToCopyFromJson[..j] == FieldsToCopyFromJson;
    assert JsonComplete(json) by {
      assert FieldsToCopyFromJson[0] == "assignee_link" && FieldsToCopyFromJson[1] == "milestone_link";
      assert FieldsToCopyFromJson[2] == "title" && FieldsToCopyFromJson[3] == "web_link";
    }
    return None;
  }

  /** Scanning one more name: the first missing name of the longer prefix. */
  lemma FirstMissingAppend(d: Doc, names: seq<string>, i: nat)
    requires i < |names|
    requires FirstMissing(d, names[..i]).None?
    ensures names[i] !in d ==> FirstMissing(d, names) == Some(names[i])
    ensures names[i] in d ==> FirstMissing(d, names[..i + 1]).None?
  {
    FirstMissingPrefix(d, names, i);
  }

  lemma {:induction false} FirstMissingPrefix(d: Doc, names: seq<string>, i: nat)
    requires i < |names|
    requires forall k :: 0 <= k < i ==> names[k] in d
    ensures names[i] !in d ==> FirstMissing(d, names) == Some(names[i])
  {
    if i > 0 {
      assert names[1..][i - 1] == names[i];
      FirstMissingPrefix(d, names[1..], i - 1);
    }
  }
}
