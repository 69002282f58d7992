/** The SLA criteria: four rules deciding whether a bug breaks an SLA, and
    the hint text explaining which threshold it broke. A bug is the
    attribute dictionary of its wrapper object; `business_days_ago` reads
    the clock and a business-day calendar, so it is a parameter `ago` from a
    number of business days to an instant. */
module Criterias {
  import opened Wrappers
  import opened Documents
  import Strings
  import LpBug

  const CriticalImportance: string := "Critical"
  const HighImportance: string := "High"
  const ConfirmedStatus: string := "Confirmed"
  const InProgressStatus: string := "In Progress"
  const TriagedStatus: string := "Triaged"
  const CustomerFoundTag: string := "customer-found"

  /** A configured criterion: its class and the thresholds its constructor
      stored, as they came from the configuration. */
  datatype Criterion =
    | NonTriaged(threshold: Value)
    | SLAFullLifecycle(critical: Value, high: Value)
    | SLAConfirmedTriaged(threshold: Value)
    | SLAInProgress(criticalCustomerFound: Value, critical: Value, highCustomerFound: Value, high: Value, others: Value)

  /** The instance attributes each constructor sets. */
  function Fields(c: Criterion): (f: Doc)
    ensures "threshold" in f <==> c.NonTriaged? || c.SLAConfirmedTriaged?
  {
    match c
    case NonTriaged(t) => map["threshold" := t]
    case SLAFullLifecycle(cr, h) => map["critical_threshold" := cr, "high_threshold" := h]
    case SLAConfirmedTriaged(t) => map["threshold" := t]
    case SLAInProgress(ccf, cr, hcf, h, o) =>
      map["critical_customer_found_threshold" := ccf, "critical_threshold" := cr,
          "high_customer_found_threshold" := hcf, "high_threshold" := h, "others_threshold" := o]
  }

  function ClassName(c: Criterion): string {
    match c
    case NonTriaged(_) => "NonTriaged"
    case SLAFullLifecycle(_, _) => "SLAFullLifecycle"
    case SLAConfirmedTriaged(_) => "SLAConfirmedTriaged"
    case SLAInProgress(_, _, _, _, _) => "SLAInProgress"
  }

  /** The parameter names of each class's constructor, for the classes of
      the module. */
  function Params(className: string): Option<set<string>> {
    if className == "NonTriaged" || className == "SLAConfirmedTriaged" then Some({"threshold"})
    else if className == "SLAFullLifecycle" then Some({"critical_threshold", "high_threshold"})
    else if className == "SLAInProgress" then
      Some({"critical_customer_found_threshold", "critical_threshold",
            "high_customer_found_threshold", "high_threshold", "others_threshold"})
    else None
  }

  /** `ImplClass(**kwargs)`: keyword arguments that are not exactly the
      constructor's parameters raise `TypeError`. */
  function Construct(className: string, kwargs: Doc): (r: Result<Criterion>)
    requires Params(className).Some?
    ensures r.Ok? <==> kwargs.Keys == Params(className).value
    ensures r.Ok? ==> Fields(r.value) == kwargs && ClassName(r.value) == className
  {
    if kwargs.Keys != Params(className).value then Err(TypeError(className))
    else if className == "NonTriaged" then Ok(NonTriaged(kwargs["threshold"]))
    else if className == "SLAConfirmedTriaged" then Ok(SLAConfirmedTriaged(kwargs["threshold"]))
    else if className == "SLAFullLifecycle" then
      Ok(SLAFullLifecycle(kwargs["critical_threshold"], kwargs["high_threshold"]))
    else
      Ok(SLAInProgress(kwargs["critical_customer_found_threshold"], kwargs["critical_threshold"],
        kwargs["high_customer_found_threshold"], kwargs["high_threshold"], kwargs["others_threshold"]))
  }

  /** `business_days_ago(days)`: only an integer number of days can be
      subtracted. */
  function BusinessDaysAgo(ago: int -> int, days: Value): (r: Result<int>)
    ensures r.Ok? <==> days.VInt?
    ensures r.Ok? ==> r.value == ago(days.i)
  {
    if days.VInt? then Ok(ago(days.i)) else Err(TypeError("business_days_ago"))
  }

  /** `bug.<field> < business_days_ago(days)`: the attribute is read first,
      then the bound; comparing anything but a date with a date raises. */
  function OlderThan(bug: Doc, field: string, ago: int -> int, days: Value): (r: Result<bool>)
    ensures r.Ok? <==> field in bug && days.VInt? && bug[field].VDate?
    ensures r.Ok? ==> (r.value <==> bug[field].t < ago(days.i))
  {
    var v :- Attr(bug, field);
    var bound :- BusinessDaysAgo(ago, days);
    if v.VDate? then Ok(v.t < bound) else Err(TypeError("<"))
  }

  /** `CUSTOMER_FOUND_TAG in bug.tags`: membership in a list, a substring
      test on a string, and a `TypeError` on anything else. */
  function CustomerFound(bug: Doc): (r: Result<bool>)
    ensures "tags" in bug && bug["tags"].VList? ==> r == Ok(VStr(CustomerFoundTag) in bug["tags"].items)
    ensures r.Err? <==> "tags" !in bug || !(bug["tags"].VList? || bug["tags"].VStr?)
  {
    var tags :- Attr(bug, "tags");
    match tags
    case VList(items) => Ok(VStr(CustomerFoundTag) in items)
    case VStr(s) => Ok(Strings.Contains(s, CustomerFoundTag))
    case _ => Err(TypeError("in"))
  }

  /** `impl.is_satisfied(bug)`. */
  function IsSatisfied(c: Criterion, bug: Doc, ago: int -> int): Result<bool> {
    match c
    case NonTriaged(t) =>
      var older :- OlderThan(bug, "date_created", ago, t);
      if !older then Ok(false)
      else
        var milestone :- Attr(bug, "milestone");
        if milestone == VNone then Ok(true)
        else
          var importance :- Attr(bug, "importance");
          if importance == VNone then Ok(true)
          else
            var assignee :- Attr(bug, "assignee");
            Ok(assignee == VNone)
    case SLAFullLifecycle(critical, high) =>
      var importance :- Attr(bug, "importance");
      if importance == VStr(HighImportance) then OlderThan(bug, "date_created", ago, high)
      else if importance == VStr(CriticalImportance) then OlderThan(bug, "date_created", ago, critical)
      else Ok(false)
    case SLAConfirmedTriaged(t) =>
      var status :- Attr(bug, "status");
      if status in [VStr(ConfirmedStatus), VStr(TriagedStatus)] then OlderThan(bug, "date_last_updated", ago, t)
      else Ok(false)
    case SLAInProgress(ccf, critical, hcf, high, others) =>
      var status :- Attr(bug, "status");
      if status != VStr(InProgressStatus) then Ok(false)
      else
        var importance :- Attr(bug, "importance");
        if importance == VStr(CriticalImportance) then
          var cf :- CustomerFound(bug);
          OlderThan(bug, "date_in_progress", ago, if cf then ccf else critical)
        else if importance == VStr(HighImportance) then
          var cf :- CustomerFound(bug);
          OlderThan(bug, "date_in_progress", ago, if cf then hcf else high)
        else OlderThan(bug, "date_in_progress", ago, others)
  }

  /** A bug whose attributes are all readable: the date attributes are
      dates and the tags a list. */
  predicate WellFormed(bug: Doc) {
    (forall f :: f in ["date_created", "date_last_updated", "date_in_progress"] ==> f in bug && bug[f].VDate?) &&
    (forall f :: f in ["milestone", "importance", "assignee", "status"] ==> f in bug) &&
    "tags" in bug && bug["tags"].VList?
  }

  /** `NonTriaged` holds iff the bug was created before the threshold and
      lacks a milestone, an importance or an assignee. */
  lemma NonTriagedRule(n: int, bug: Doc, ago: int -> int)
    requires WellFormed(bug)
    ensures IsSatisfied(NonTriaged(VInt(n)), bug, ago) ==
      Ok(bug["date_created"].t < ago(n) &&
         (bug["milestone"] == VNone || bug["importance"] == VNone || bug["assignee"] == VNone))
  {
  }

  /** `SLAFullLifecycle` uses the High threshold for High bugs, the
      Critical one for Critical bugs, and holds for no other bug, without
      reading anything else of it. */
  lemma FullLifecycleRule(critical: int, high: int, bug: Doc, ago: int -> int)
    requires "importance" in bug
    ensures var r := IsSatisfied(SLAFullLifecycle(VInt(critical), VInt(high)), bug, ago);
      (bug["importance"] !in [VStr(HighImportance), VStr(CriticalImportance)] ==> r == Ok(false)) &&
      (WellFormed(bug) && bug["importance"] == VStr(HighImportance) ==> r == Ok(bug["date_created"].t < ago(high))) &&
      (WellFormed(bug) && bug["importance"] == VStr(CriticalImportance) ==> r == Ok(bug["date_created"].t < ago(critical)))
  {
  }

  /** `SLAConfirmedTriaged` holds for no bug outside Confirmed and Triaged;
      for those it compares the last update. */
  lemma ConfirmedTriagedRule(n: int, bug: Doc, ago: int -> int)
    requires "status" in bug
    ensures var r := IsSatisfied(SLAConfirmedTriaged(VInt(n)), bug, ago);
      (bug["status"] !in [VStr(ConfirmedStatus), VStr(TriagedStatus)] ==> r == Ok(false)) &&
      (WellFormed(bug) && bug["status"] in [VStr(ConfirmedStatus), VStr(TriagedStatus)] ==>
        r == Ok(bug["date_last_updated"].t < ago(n)))
  {
  }

  /** The threshold `SLAInProgress` applies, by precedence: Critical with
      the tag, Critical, High with the tag, High, the rest. */
  function InProgressDays(c: Criterion, importance: Value, customerFound: bool): (days: Value)
    requires c.SLAInProgress?
    ensures importance == VStr(CriticalImportance) && customerFound ==> days == c.criticalCustomerFound
    ensures importance == VStr(CriticalImportance) && !customerFound ==> days == c.critical
    ensures importance == VStr(HighImportance) && customerFound ==> days == c.highCustomerFound
    ensures importance == VStr(HighImportance) && !customerFound ==> days == c.high
    ensures importance != VStr(CriticalImportance) && importance != VStr(HighImportance) ==> days == c.others
  {
    if importance == VStr(CriticalImportance) then (if customerFound then c.criticalCustomerFound else c.critical)
    else if importance == VStr(HighImportance) then (if customerFound then c.highCustomerFound else c.high)
    else c.others
  }

  /** `SLAInProgress` holds for no bug outside In Progress; for those it
      compares the start of work with the threshold of the table above. */
  lemma InProgressRule(c: Criterion, bug: Doc, ago: int -> int)
    requires c.SLAInProgress? && "status" in bug
    requires c.criticalCustomerFound.VInt? && c.critical.VInt? && c.highCustomerFound.VInt?
    requires c.high.VInt? && c.others.VInt?
    ensures bug["status"] != VStr(InProgressStatus) ==> IsSatisfied(c, bug, ago) == Ok(false)
    ensures WellFormed(bug) && bug["status"] == VStr(InProgressStatus) ==>
      IsSatisfied(c, bug, ago) ==
        Ok(bug["date_in_progress"].t < ago(InProgressDays(c, bug["importance"], VStr(CustomerFoundTag) in bug["tags"].items).i))
  {
  }

  /** A piece of a `str.format` template: literal text or a named field. */
  datatype Piece = Literal(text: string) | Field(name: string)

  /** `template.format(**data)`: each field is replaced by `str` of its
      value; a field the data lacks raises `KeyError`. */
  function Format(template: seq<Piece>, data: map<string, Value>): (r: Result<string>)
    ensures r.Ok? <==> forall i :: 0 <= i < |template| && template[i].Field? ==> template[i].name in data
  {
    if template == [] then Ok("")
    else
      var pre := template[..|template| - 1];
      var last := template[|template| - 1];
      var head := Format(pre, data);
      assert forall i :: 0 <= i < |pre| ==> pre[i] == template[i];
      if head.Err? then head
      else match last
        case Literal(t) => Ok(head.value + t)
        case Field(name) => if name in data then Ok(head.value + Str(data[name])) else Err(KeyError(name))
  }

  /** The attribute name the hint looks up when the criterion has no truthy
      `threshold`: the lower-cased importance (Critical, High) or `others`,
      then `_customer_found` for a tagged bug, then `_threshold`; without
      the tag it is also what removing `_customer_found` leaves. */
  function ThresholdName(importance: Value, customerFound: bool): string {
    if importance == VStr(CriticalImportance) then
      (if customerFound then "critical_customer_found_threshold" else "critical_threshold")
    else if importance == VStr(HighImportance) then
      (if customerFound then "high_customer_found_threshold" else "high_threshold")
    else
      (if customerFound then "others_customer_found_threshold" else "others_threshold")
  }

  /** The threshold the hint reports: `self.threshold` when truthy; else
      the attribute named by importance and tag, falling back, for a
      customer-found bug only, to the name without `_customer_found`;
      otherwise the local variable is unbound and using it raises. */
  function HintThreshold(c: Criterion, bug: Doc, customerFound: bool): (r: Result<Value>)
    ensures Truthy(Get(Fields(c), "threshold")) ==> r == Ok(Get(Fields(c), "threshold"))
    ensures !Truthy(Get(Fields(c), "threshold")) && "importance" !in bug ==> r == Err(AttributeError("importance"))
    ensures !Truthy(Get(Fields(c), "threshold")) && "importance" in bug ==>
      var name := ThresholdName(bug["importance"], customerFound);
      var plain := ThresholdName(bug["importance"], false);
      (name in Fields(c) ==> r == Ok(Fields(c)[name])) &&
      (name !in Fields(c) && customerFound && plain in Fields(c) ==> r == Ok(Fields(c)[plain])) &&
      (name !in Fields(c) && customerFound && plain !in Fields(c) ==> r == Err(AttributeError(plain))) &&
      (name !in Fields(c) && !customerFound ==> r == Err(NameError("threshold")))
  {
    var own := Get(Fields(c), "threshold");
    if Truthy(own) then Ok(own)
    else
      var importance :- Attr(bug, "importance");
      match Attr(Fields(c), ThresholdName(importance, customerFound))
      case Ok(v) => Ok(v)
      case Err(_) =>
        if customerFound then Attr(Fields(c), ThresholdName(importance, false))
        else Err(NameError("threshold"))
  }

  const WithCustomerFoundText: string := "with `customer-found` tag"

  /** `get_hint_text(bug, template)`. */
  function GetHintText(c: Criterion, bug: Doc, template: seq<Piece>): Result<string> {
    var customerFound :- CustomerFound(bug);
    var threshold :- HintThreshold(c, bug, customerFound);
    var importance :- Attr(bug, "importance");
    Format(template, map["importance" := importance,
                         "with_customer_found" := VStr(if customerFound then WithCustomerFoundText else ""),
                         "threshold" := threshold])
  }

  /** The hint names the threshold the rule compared against: for a bug
      that `SLAInProgress` or `SLAFullLifecycle` flags, the threshold the
      hint looks up is the one the rule used; for the single-threshold
      criteria it is their threshold. */
  lemma HintThresholdAgrees(c: Criterion, bug: Doc, ago: int -> int)
    requires WellFormed(bug)
    requires forall f :: f in Fields(c) ==> Fields(c)[f].VInt?
    requires c.NonTriaged? || c.SLAConfirmedTriaged? ==> Fields(c)["threshold"] != VInt(0)
    requires IsSatisfied(c, bug, ago) == Ok(true)
    ensures var cf := VStr(CustomerFoundTag) in bug["tags"].items;
      HintThreshold(c, bug, cf) == Ok(match c
        case NonTriaged(t) => t
        case SLAConfirmedTriaged(t) => t
        case SLAFullLifecycle(critical, high) => if bug["importance"] == VStr(HighImportance) then high else critical
        case SLAInProgress(_, _, _, _, _) => InProgressDays(c, bug["importance"], cf))
  {
    var cf := VStr(CustomerFoundTag) in bug["tags"].items;
    var imp := bug["importance"];
    match c
    case NonTriaged(t) =>
    case SLAConfirmedTriaged(t) =>
    case SLAFullLifecycle(critical, high) =>
      assert imp == VStr(HighImportance) || imp == VStr(CriticalImportance);
    case SLAInProgress(_, _, _, _, _) =>
  }

  /** The hint's `with_customer_found` text is non-empty iff the bug carries
      the tag. */
  lemma CustomerFoundHint(c: Criterion, bug: Doc)
    requires WellFormed(bug)
    requires HintThreshold(c, bug, VStr(CustomerFoundTag) in bug["tags"].items).Ok?
    ensures GetHintText(c, bug, [Field("with_customer_found")]) ==
      Ok(if VStr(CustomerFoundTag) in bug["tags"].items then WithCustomerFoundText else "")
  {
    var data := map["importance" := bug["importance"],
                     "with_customer_found" := VStr(if VStr(CustomerFoundTag) in bug["tags"].items then WithCustomerFoundText else ""),
                     "threshold" := HintThreshold(c, bug, VStr(CustomerFoundTag) in bug["tags"].items).value];
    var t := [Field("with_customer_found")];
    assert t[..0] == [];
    assert Format(t, data) == Ok("" + Str(data["with_customer_found"]));
    assert "" + Str(data["with_customer_found"]) == Str(data["with_customer_found"]);
    assert CustomerFound(bug) == Ok(VStr(CustomerFoundTag) in bug["tags"].items);
  }

  /** A single-threshold criterion whose threshold is falsy looks up the
      per-importance attributes it does not have: without the tag the hint
      uses an unbound variable, with it the fallback lookup raises. */
  lemma FalsyThresholdHint(c: Criterion, bug: Doc, customerFound: bool)
    requires c == NonTriaged(VInt(0)) || c == SLAConfirmedTriaged(VNone)
    requires "importance" in bug
    ensures HintThreshold(c, bug, customerFound) ==
      if customerFound then Err(AttributeError(ThresholdName(bug["importance"], false))) else Err(NameError("threshold"))
  {
  }

  /** A stored bug wrapped with the intended field list has no
      `date_last_updated` attribute, so `SLAConfirmedTriaged` raises for
      every Confirmed or Triaged stored bug. */
  lemma ConfirmedTriagedOnStoredBug(record: Doc, t: Value, ago: int -> int)
    requires Get(record, "status") in [VStr(ConfirmedStatus), VStr(TriagedStatus)]
    ensures IsSatisfied(SLAConfirmedTriaged(t), LpBug.CopiedAttrs(record, LpBug.FieldsToCopy), ago) ==
      Err(AttributeError("date_last_updated"))
  {
    var attrs := LpBug.CopiedAttrs(record, LpBug.FieldsToCopy);
    assert LpBug.FieldsToCopy[15] == "status";
    assert "date_last_updated" !in LpBug.FieldsToCopy;
    ConfirmedTriagedWithoutUpdate(attrs, t, ago);
  }

  /** A confirmed or triaged bug without a `date_last_updated` attribute
      makes `SLAConfirmedTriaged` raise. */
  lemma ConfirmedTriagedWithoutUpdate(bug: Doc, t: Value, ago: int -> int)
    requires "status" in bug && bug["status"] in [VStr(ConfirmedStatus), VStr(TriagedStatus)]
    requires "date_last_updated" !in bug
    ensures IsSatisfied(SLAConfirmedTriaged(t), bug, ago) == Err(AttributeError("date_last_updated"))
  {
  }

  /** With the field list as written, `milestone` is never set, so
      `NonTriaged` raises for every stored bug created before its
      threshold. */
  lemma NonTriagedAsWritten(record: Doc, n: int, ago: int -> int)
    requires Get(record, "date_created").VDate? && Get(record, "date_created").t < ago(n)
    ensures IsSatisfied(NonTriaged(VInt(n)), LpBug.CopiedAttrs(record, LpBug.FieldsAsWritten), ago) ==
      Err(AttributeError("milestone"))
  {
    var attrs := LpBug.CopiedAttrs(record, LpBug.FieldsAsWritten);
    LpBug.MissingCommaDropsFields(record);
    assert LpBug.FieldsAsWritten[3] == "date_created";
    NonTriagedWithoutMilestone(attrs, n, ago);
  }

  /** An old enough bug without a `milestone` attribute makes `NonTriaged`
      raise. */
  lemma NonTriagedWithoutMilestone(bug: Doc, n: int, ago: int -> int)
    requires "date_created" in bug && bug["date_created"].VDate? && bug["date_created"].t < ago(n)
    requires "milestone" !in bug
    ensures IsSatisfied(NonTriaged(VInt(n)), bug, ago) == Err(AttributeError("milestone"))
  {
  }
}
