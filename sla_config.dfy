/** The configuration side of the SLA reports: finding a criterion by name,
    resolving its keyword arguments (defaults and per-milestone overrides),
    instantiating its class, and the legend describing the criteria of a
    report. The configuration file's contents are given as values. */
module SlaConfig {
  import opened Wrappers
  import opened Documents
  import Strings
  import Criterias

  /** An item of a criterion's `config` list: the keyword name, its default
      and the optional display `text`. */
  datatype ConfigEntry = ConfigEntry(name: string, default: Value, text: Option<string>)

  /** An entry of the `criterias` section: `config` is empty when the
      section has none, and `hintText` is the parsed `hint-text` template
      (empty when absent). */
  datatype CriteriaConfig = CriteriaConfig(
    name: string, text: Option<string>, implementation: string,
    config: seq<ConfigEntry>, hintText: seq<Criterias.Piece>)

  /** A criterion as a report lists it, with its `config-override`
      dictionary when there is one. */
  datatype ReportCriterion = ReportCriterion(name: string, overrides: Option<map<string, Value>>)

  /** The position of the first configured criterion called `name`. */
  function FirstNamed(conf: seq<CriteriaConfig>, name: string): (r: Option<nat>)
    ensures r.Some? ==> (r.value < |conf| && conf[r.value].name == name &&
      forall j :: 0 <= j < r.value ==> conf[j].name != name)
    ensures r.None? <==> forall j :: 0 <= j < |conf| ==> conf[j].name != name
  {
    if conf == [] then None
    else if conf[0].name == name then Some(0)
    else
      var rest := FirstNamed(conf[1..], name);
      if rest.Some? then Some(rest.value + 1) else None
  }

  /** `get_criteria_by_name(name)`: the first criterion with that name;
      `ValueError` when there is none. */
  function GetCriteriaByName(conf: seq<CriteriaConfig>, name: string): (r: Result<CriteriaConfig>)
    ensures r.Err? <==> forall j :: 0 <= j < |conf| ==> conf[j].name != name
    ensures r.Err? ==> r.error.ValueError?
    ensures r.Ok? ==> (r.value.name == name &&
      exists i :: 0 <= i < |conf| && conf[i] == r.value && forall j :: 0 <= j < i ==> conf[j].name != name)
  {
    match FirstNamed(conf, name)
    case None => Err(ValueError(name))
    case Some(i) => Ok(conf[i])
  }

  /** The milestone as `"{0}".format` prints it. */
  function MilestoneText(milestone: Option<string>): string {
    if milestone.Some? then milestone.value else "None"
  }

  /** `"<milestone>_<name>"`, the key of an override. */
  function OverrideName(milestone: Option<string>, name: string): string {
    MilestoneText(milestone) + "_" + name
  }

  /** The value a keyword gets: the override for this milestone when the
      report overrides the criterion and has one, else the default. */
  function ValueFor(e: ConfigEntry, overrides: Option<map<string, Value>>, milestone: Option<string>): Value {
    if overrides.Some? && OverrideName(milestone, e.name) in overrides.value
    then overrides.value[OverrideName(milestone, e.name)]
    else e.default
  }

  /** The `kwargs` dictionary, built entry by entry. */
  function Kwargs(entries: seq<ConfigEntry>, overrides: Option<map<string, Value>>, milestone: Option<string>): map<string, Value> {
    if entries == [] then map[]
    else
      var e := entries[|entries| - 1];
      Kwargs(entries[..|entries| - 1], overrides, milestone)[e.name := ValueFor(e, overrides, milestone)]
  }

  predicate DistinctNames(entries: seq<ConfigEntry>) {
    forall i, j :: 0 <= i < j < |entries| ==> entries[i].name != entries[j].name
  }

  /** The keyword names are exactly the configured names; each value is the
      override `<milestone>_<name>` when the report has it, otherwise the
      default. */
  lemma KwargsResolved(entries: seq<ConfigEntry>, overrides: Option<map<string, Value>>, milestone: Option<string>)
    requires DistinctNames(entries)
    ensures var kw := Kwargs(entries, overrides, milestone);
      (forall n :: n in kw <==> exists i :: 0 <= i < |entries| && entries[i].name == n) &&
      (forall i :: 0 <= i < |entries| ==>
        var key := OverrideName(milestone, entries[i].name);
        kw[entries[i].name] == if overrides.Some? && key in overrides.value then overrides.value[key] else entries[i].default)
  {
    KwargsKeys(entries, overrides, milestone);
    forall i | 0 <= i < |entries|
      ensures var kw := Kwargs(entries, overrides, milestone);
        entries[i].name in kw && kw[entries[i].name] == ValueFor(entries[i], overrides, milestone)
    {
      KwargsValue(entries, overrides, milestone, i);
    }
  }

  lemma {:induction false} KwargsKeys(entries: seq<ConfigEntry>, overrides: Option<map<string, Value>>, milestone: Option<string>)
    ensures var kw := Kwargs(entries, overrides, milestone);
      forall n :: n in kw <==> exists i :: 0 <= i < |entries| && entries[i].name == n
  {
    if entries != [] {
      var pre := entries[..|entries| - 1];
      KwargsKeys(pre, overrides, milestone);
      assert forall n :: n in Kwargs(pre, overrides, milestone) <==> exists i :: 0 <= i < |pre| && pre[i].name == n;
      var kwPre := Kwargs(pre, overrides, milestone);
      var last := entries[|entries| - 1];
      var kw := Kwargs(entries, overrides, milestone);
      assert kw == kwPre[last.name := ValueFor(last, overrides, milestone)];
      forall n ensures n in kw <==> exists i :: 0 <= i < |entries| && entries[i].name == n {
        assert n in kwPre <==> exists i :: 0 <= i < |pre| && pre[i].name == n;
        if n in kwPre {
          var i :| 0 <= i < |pre| && pre[i].name == n;
          assert entries[i].name == n;
        } else if n != last.name {
          forall i | 0 <= i < |entries| ensures entries[i].name != n {
            if i < |pre| {
              assert pre[i] == entries[i];
            }
          }
        } else {
          assert entries[|entries| - 1].name == n;
        }
      }
    }
  }

  lemma {:induction false} KwargsValue(entries: seq<ConfigEntry>, overrides: Option<map<string, Value>>, milestone: Option<string>, i: nat)
    requires DistinctNames(entries) && i < |entries|
    ensures var kw := Kwargs(entries, overrides, milestone);
      entries[i].name in kw && kw[entries[i].name] == ValueFor(entries[i], overrides, milestone)
  {
    var pre := entries[..|entries| - 1];
    if i < |pre| {
      assert entries[i].name != entries[|entries| - 1].name;
      assert DistinctNames(pre) by {
        forall a, b | 0 <= a < b < |pre| ensures pre[a].name != pre[b].name {
          assert pre[a] == entries[a] && pre[b] == entries[b];
        }
      }
      assert pre[i] == entries[i];
      KwargsValue(pre, overrides, milestone, i);
    }
  }

  /** `get_criteria_implementation(config_criteria, milestone_name)`: the
      criterion's section is looked up, its class found by the last `.`
      segment of `implementation` (`ValueError` for a class the criteria
      module does not define), and instantiated with the resolved keyword
      arguments. */
  function Implementation(conf: seq<CriteriaConfig>, crit: ReportCriterion, milestone: Option<string>): (r: Result<Criterias.Criterion>) {
    var criteria :- GetCriteriaByName(conf, crit.name);
    var className := Strings.AfterLast(criteria.implementation, '.');
    if Criterias.Params(className).None? then Err(ValueError(className))
    else Criterias.Construct(className, Kwargs(criteria.config, crit.overrides, milestone))
  }

  /** An instantiated criterion carries exactly the resolved keyword
      arguments as its thresholds, and is of the class the configuration
      names. */
  lemma ImplementationFields(conf: seq<CriteriaConfig>, crit: ReportCriterion, milestone: Option<string>)
    requires Implementation(conf, crit, milestone).Ok?
    ensures var criteria := GetCriteriaByName(conf, crit.name);
      criteria.Ok? &&
      Criterias.Fields(Implementation(conf, crit, milestone).value) == Kwargs(criteria.value.config, crit.overrides, milestone) &&
      Criterias.ClassName(Implementation(conf, crit, milestone).value) == Strings.AfterLast(criteria.value.implementation, '.')
  {
  }

  /** Python's `str.strip()` characters. */
  const Whitespace: set<char> := {' ', '\t', '\n', '\r', 11 as char, 12 as char}

  /** The legend lines of one criterion: `\t<text or name>: <value>`. */
  function Lines(entries: seq<ConfigEntry>, overrides: Option<map<string, Value>>, milestone: Option<string>): (r: seq<string>)
    ensures |r| == |entries|
  {
    if entries == [] then []
    else
      var e := entries[|entries| - 1];
      Lines(entries[..|entries| - 1], overrides, milestone) +
        ["\t" + e.text.GetOr(e.name) + ": " + Str(ValueFor(e, overrides, milestone))]
  }

  /** One criterion's part of the legend: its title and name, then its
      keyword lines. */
  function Block(criteria: CriteriaConfig, crit: ReportCriterion, milestone: Option<string>): string {
    criteria.text.GetOr(criteria.name) + " (" + criteria.name + "):\n" +
      Strings.Join("\n", Lines(criteria.config, crit.overrides, milestone)) + "\n"
  }

  /** The legend before stripping; an unknown criterion raises. */
  function Blocks(conf: seq<CriteriaConfig>, crits: seq<ReportCriterion>, milestone: Option<string>): Result<string> {
    if crits == [] then Ok("")
    else
      var pre :- Blocks(conf, crits[..|crits| - 1], milestone);
      var criteria :- GetCriteriaByName(conf, crits[|crits| - 1].name);
      Ok(pre + Block(criteria, crits[|crits| - 1], milestone))
  }

  /** `get_criteria_description(criterias, milestone_name)`. */
  function GetCriteriaDescription(conf: seq<CriteriaConfig>, crits: seq<ReportCriterion>, milestone: Option<string>): (r: Result<string>)
    ensures r.Ok? && r.value != [] ==> r.value[0] !in Whitespace && r.value[|r.value| - 1] !in Whitespace
  {
    var s :- Blocks(conf, crits, milestone);
    Ok(Strings.Strip(s, Whitespace))
  }

  /** The configuration has a criterion called `name`. */
  predicate Configured(conf: seq<CriteriaConfig>, name: string) {
    exists j :: 0 <= j < |conf| && conf[j].name == name
  }

  /** The legend fails exactly when the report names a criterion the
      configuration lacks. */
  lemma DescriptionFails(conf: seq<CriteriaConfig>, crits: seq<ReportCriterion>, milestone: Option<string>)
    ensures Blocks(conf, crits, milestone).Ok? <==>
      forall k :: 0 <= k < |crits| ==> Configured(conf, crits[k].name)
  {
    if forall k :: 0 <= k < |crits| ==> Configured(conf, crits[k].name) {
      BlocksOk(conf, crits, milestone);
    } else {
      var k :| 0 <= k < |crits| && !Configured(conf, crits[k].name);
      BlocksMissing(conf, crits, milestone, k);
    }
  }

  lemma {:induction false} BlocksOk(conf: seq<CriteriaConfig>, crits: seq<ReportCriterion>, milestone: Option<string>)
    requires forall k :: 0 <= k < |crits| ==> Configured(conf, crits[k].name)
    ensures Blocks(conf, crits, milestone).Ok?
  {
    if crits != [] {
      var pre := crits[..|crits| - 1];
      forall k | 0 <= k < |pre| ensures Configured(conf, pre[k].name) {
        assert pre[k] == crits[k];
      }
      BlocksOk(conf, pre, milestone);
      BlocksStep(conf, crits, milestone);
    }
  }

  lemma {:induction false} BlocksMissing(conf: seq<CriteriaConfig>, crits: seq<ReportCriterion>, milestone: Option<string>, k: nat)
    requires k < |crits| && !Configured(conf, crits[k].name)
    ensures Blocks(conf, crits, milestone).Err?
  {
    var pre := crits[..|crits| - 1];
    BlocksStep(conf, crits, milestone);
    if k < |pre| {
      assert pre[k] == crits[k];
      BlocksMissing(conf, pre, milestone, k);
      assert Blocks(conf, pre, milestone).Err?;
    } else {
      assert !Configured(conf, crits[|crits| - 1].name);
    }
  }

  lemma BlocksStep(conf: seq<CriteriaConfig>, crits: seq<ReportCriterion>, milestone: Option<string>)
    requires crits != []
    ensures Blocks(conf, crits, milestone).Ok? <==>
      Blocks(conf, crits[..|crits| - 1], milestone).Ok? && Configured(conf, crits[|crits| - 1].name)
  {
    var name := crits[|crits| - 1].name;
    if !Configured(conf, name) {
      assert GetCriteriaByName(conf, name).Err?;
    }
  }

  /** The legend of one criterion without keywords is its title line without
      the trailing colon's newlines. */
  lemma SingleDescription(conf: seq<CriteriaConfig>, crit: ReportCriterion, milestone: Option<string>)
    requires GetCriteriaByName(conf, crit.name).Ok?
    requires var c := GetCriteriaByName(conf, crit.name).value;
      c.config == [] && c.text.GetOr(c.name) != [] && c.text.GetOr(c.name)[0] !in Whitespace
    ensures var c := GetCriteriaByName(conf, crit.name).value;
      GetCriteriaDescription(conf, [crit], milestone) == Ok(c.text.GetOr(c.name) + " (" + c.name + "):")
  {
    var c := GetCriteriaByName(conf, crit.name).value;
    var head := c.text.GetOr(c.name) + " (" + c.name + "):";
    assert [crit][..0] == [];
    BlockWithoutConfig(c, crit, milestone);
    assert Blocks(conf, [crit], milestone) == Ok("" + (head + "\n\n"));
    assert "" + (head + "\n\n") == head + "\n\n";
    StripTitle(head);
  }

  lemma BlockWithoutConfig(c: CriteriaConfig, crit: ReportCriterion, milestone: Option<string>)
    requires c.config == []
    ensures Block(c, crit, milestone) == c.text.GetOr(c.name) + " (" + c.name + "):" + "\n\n"
  {
    assert Lines(c.config, crit.overrides, milestone) == [];
    var head := c.text.GetOr(c.name) + " (" + c.name + "):";
    assert head + "\n" + "" + "\n" == head + "\n\n";
  }

  /** Stripping a title line followed by blank lines leaves the title. */
  lemma StripTitle(head: string)
    requires head != [] && head[0] !in Whitespace && head[|head| - 1] == ':'
    ensures Strings.Strip(head + "\n\n", Whitespace) == head
  {
    var s := head + "\n\n";
    assert Strings.StripLeft(s, Whitespace) == s;
    assert s[..|s| - 1] == head + "\n";
    assert (head + "\n")[..|head|] == head;
    assert Strings.StripRight(head, Whitespace) == head;
  }
}
