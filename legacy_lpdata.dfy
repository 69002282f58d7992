/** The query layer of the older reporting package: the cascading bug
    search over the store, the common milestones and the distinct-id
    counts. */
module LegacyLpData {
  import opened Wrappers
  import opened Documents
  import opened Sifting
  import Store
  import LpData
  import LegacyBug
  import LegacyStatuses

  /** `x is None or x == 'None'`: the request's way of leaving an argument
      out. */
  predicate Absent(v: Value) {
    v == VNone || v == VStr("None")
  }

  /** The importance condition: the query as written asks for equality
      with the whole argument; the intended one asks for membership in it. */
  function ImportanceCondition(importance: Value, intended: bool): LpData.Condition {
    if intended && importance.VList? then LpData.In("importance", importance.items)
    else LpData.Equals("importance", importance)
  }

  /** The store query of the branch `get_bugs` takes. */
  function Conditions(statuses: seq<string>, milestone: Value, tags: Value, importance: Value, intended: bool): seq<LpData.Condition> {
    var status := LpData.In("status", VStrs(statuses));
    if Absent(milestone) then [status]
    else if Absent(tags) || Absent(importance) then [status, LpData.Equals("milestone", milestone)]
    else [status, LpData.Equals("milestone", milestone), ImportanceCondition(importance, intended)]
  }

  /** `list(set(r['tags']).intersection(tags))` is not empty: a record
      without tags raises `KeyError`, a value that is not iterable
      `TypeError`. */
  function SharedTagTest(tags: Value): Doc -> Result<bool> {
    r =>
      var own :- if "tags" in r then Ok(r["tags"]) else Err(KeyError("tags"));
      var mine :- Iterate(own);
      var theirs :- Iterate(tags);
      Ok(exists t :: t in mine && t in theirs)
  }

  /** The records `get_bugs` wraps, in store order: the query's matches,
      and, once both a milestone and tags are given, only those sharing a
      tag with `tags`. */
  function Selection(db: Store.Collections, project: string, statuses: seq<string>, milestone: Value, tags: Value,
                     importance: Value, intended: bool): Result<seq<Doc>> {
    var found := LpData.Find(Store.Coll(db, project), Conditions(statuses, milestone, tags, importance, intended));
    if Absent(milestone) || Absent(tags) then Ok(found) else Sift(found, SharedTagTest(tags))
  }

  /** `get_bugs(project_name, statuses, milestone_name, tags, importance)`
      as written: every selected record is a store dictionary, and the
      wrapper's constructor reads its first field with `getattr`, which a
      dictionary does not answer. */
  function GetBugs(db: Store.Collections, project: string, statuses: seq<string>, milestone: Value, tags: Value,
                   importance: Value): Result<seq<Doc>> {
    var records :- Selection(db, project, statuses, milestone, tags, importance, false);
    if records == [] then Ok([]) else Err(AttributeError(LegacyBug.FieldsToCopy[0]))
  }

  /** `get_bugs` as evidently intended: the selected records themselves,
      in store order, with the importance list read as a set of allowed
      importances. */
  function IntendedGetBugs(db: Store.Collections, project: string, statuses: seq<string>, milestone: Value, tags: Value,
                           importance: Value): (r: Result<seq<Doc>>)
    ensures var docs := Store.Coll(db, project);
      r.Ok? ==> (Subsequence(r.value, docs) &&
        forall d :: d in r.value <==> (d in docs && FieldIn(d, "status", VStrs(statuses)) &&
          (!Absent(milestone) ==> Get(d, "milestone") == milestone) &&
          (!Absent(milestone) && !Absent(tags) ==> SharesTag(d, tags)) &&
          (!Absent(milestone) && !Absent(tags) && !Absent(importance) ==> ImportanceMatches(d, importance, true))))
  {
    var sel := Selection(db, project, statuses, milestone, tags, importance, true);
    if sel.Ok? then
      SelectionCascade(db, project, statuses, milestone, tags, importance, true);
      sel
    else sel
  }

  /** A record shares a tag with the argument. */
  predicate SharesTag(r: Doc, tags: Value) {
    SharedTagTest(tags)(r) == Ok(true)
  }

  /** The importance condition, stated on a record. */
  predicate ImportanceMatches(r: Doc, importance: Value, intended: bool) {
    if intended && importance.VList? then FieldIn(r, "importance", importance.items)
    else Get(r, "importance") == importance
  }

  /** The cascade of `get_bugs`: without a milestone only the status
      counts; with a milestone but without tags the status and the exact
      milestone; with tags also a shared tag; with an importance also the
      importance (equality as written, membership as intended). The order
      of the store is kept. */
  lemma SelectionCascade(db: Store.Collections, project: string, statuses: seq<string>, milestone: Value, tags: Value,
                         importance: Value, intended: bool)
    requires Selection(db, project, statuses, milestone, tags, importance, intended).Ok?
    ensures var docs := Store.Coll(db, project);
      var sel := Selection(db, project, statuses, milestone, tags, importance, intended).value;
      Subsequence(sel, docs) &&
      forall r :: r in sel <==> (r in docs && FieldIn(r, "status", VStrs(statuses)) &&
        (!Absent(milestone) ==> Get(r, "milestone") == milestone) &&
        (!Absent(milestone) && !Absent(tags) ==> SharesTag(r, tags)) &&
        (!Absent(milestone) && !Absent(tags) && !Absent(importance) ==> ImportanceMatches(r, importance, intended)))
  {
    var docs := Store.Coll(db, project);
    var search := Conditions(statuses, milestone, tags, importance, intended);
    var found := LpData.Find(docs, search);
    forall r ensures LpData.AllHold(r, search) <==> (FieldIn(r, "status", VStrs(statuses)) &&
        (!Absent(milestone) ==> Get(r, "milestone") == milestone) &&
        (!Absent(milestone) && !Absent(tags) && !Absent(importance) ==> ImportanceMatches(r, importance, intended)))
    {
      ConditionsHold(r, statuses, milestone, tags, importance, intended);
    }
    if !Absent(milestone) && !Absent(tags) {
      SiftFails(found, SharedTagTest(tags));
      SiftKeeps(found, SharedTagTest(tags));
      SubsequenceTrans(Sift(found, SharedTagTest(tags)).value, found, docs);
    }
  }

  lemma ConditionsHold(r: Doc, statuses: seq<string>, milestone: Value, tags: Value, importance: Value, intended: bool)
    ensures var search := Conditions(statuses, milestone, tags, importance, intended);
      LpData.AllHold(r, search) <==> (FieldIn(r, "status", VStrs(statuses)) &&
        (!Absent(milestone) ==> Get(r, "milestone") == milestone) &&
        (!Absent(milestone) && !Absent(tags) && !Absent(importance) ==> ImportanceMatches(r, importance, intended)))
  {
    var search := Conditions(statuses, milestone, tags, importance, intended);
    if LpData.AllHold(r, search) {
      assert LpData.Holds(r, search[0]);
      if !Absent(milestone) {
        assert LpData.Holds(r, search[1]);
      }
      if !Absent(milestone) && !Absent(tags) && !Absent(importance) {
        assert LpData.Holds(r, search[2]);
      }
    }
  }

  /** A search whose selection is not empty raises in the wrapper. */
  lemma GetBugsRaises(db: Store.Collections, project: string, statuses: seq<string>, milestone: Value, tags: Value,
                      importance: Value)
    requires Selection(db, project, statuses, milestone, tags, importance, false).Ok?
    requires Selection(db, project, statuses, milestone, tags, importance, false).value != []
    ensures GetBugs(db, project, statuses, milestone, tags, importance) == Err(AttributeError("date_assigned"))
  {
  }

  /** As written, a list of importances is compared whole with each
      record's importance, so no record with a textual importance passes:
      with a milestone and tags given, every record the search returns has
      exactly that list as its importance. */
  lemma ImportanceListAsWritten(db: Store.Collections, project: string, statuses: seq<string>, milestone: Value,
                                tags: Value, levels: seq<string>)
    requires !Absent(milestone) && !Absent(tags)
    requires Selection(db, project, statuses, milestone, tags, VList(VStrs(levels)), false).Ok?
    ensures forall r :: r in Selection(db, project, statuses, milestone, tags, VList(VStrs(levels)), false).value ==>
      Get(r, "importance") == VList(VStrs(levels)) && !Get(r, "importance").VStr?
  {
    SelectionCascade(db, project, statuses, milestone, tags, VList(VStrs(levels)), false);
  }

  /** As intended, a record with a milestone, a shared tag and one of the
      listed importances is found. */
  lemma ImportanceListIntended(db: Store.Collections, project: string, statuses: seq<string>, milestone: Value,
                               tags: Value, levels: seq<string>, r: Doc)
    requires !Absent(milestone) && !Absent(tags)
    requires IntendedGetBugs(db, project, statuses, milestone, tags, VList(VStrs(levels))).Ok?
    requires r in Store.Coll(db, project) && FieldIn(r, "status", VStrs(statuses))
    requires Get(r, "milestone") == milestone && SharesTag(r, tags)
    requires "importance" in r && r["importance"].VStr? && r["importance"].s in levels
    ensures r in IntendedGetBugs(db, project, statuses, milestone, tags, VList(VStrs(levels))).value
  {
    SelectionCascade(db, project, statuses, milestone, tags, VList(VStrs(levels)), true);
    var i :| 0 <= i < |levels| && levels[i] == r["importance"].s;
    assert VStrs(levels)[i] == Get(r, "importance");
  }

  /** `count(milestone, tag, bug_type, importance)` inside `bugs_ids`, over
      the intended search: the number of distinct ids among the fuel and
      mos records. */
  method Count(db: Store.Collections, statuses: seq<string>, milestone: Value, tags: Value, importance: Value)
    returns (r: Result<nat>)
    ensures r == CountOf(db, statuses, milestone, tags, importance)
  {
    var fuel := IntendedGetBugs(db, "fuel", statuses, milestone, tags, importance);
    var mos := IntendedGetBugs(db, "mos", statuses, milestone, tags, importance);
    r := CountBoth(fuel, mos);
  }

  /** The id loops of `count` once both searches have returned. */
  method CountBoth(fuel: Result<seq<Doc>>, mos: Result<seq<Doc>>) returns (r: Result<nat>)
    ensures fuel.Err? ==> r == Err(fuel.error)
    ensures fuel.Ok? && mos.Err? ==> r == Err(mos.error)
    ensures fuel.Ok? && mos.Ok? ==> r == Ok(LpData.DistinctCount(LpData.Ids(fuel.value) + LpData.Ids(mos.value)))
  {
    if fuel.Err? {
      return Err(fuel.error);
    }
    if mos.Err? {
      return Err(mos.error);
    }
    var n := LpData.CountIds(fuel.value, mos.value);
    r := Ok(n);
  }

  /** The number of distinct ids `count` returns, or the exception of the
      first search that raises. */
  function CountOf(db: Store.Collections, statuses: seq<string>, milestone: Value, tags: Value, importance: Value): Result<nat> {
    var fuel :- IntendedGetBugs(db, "fuel", statuses, milestone, tags, importance);
    var mos :- IntendedGetBugs(db, "mos", statuses, milestone, tags, importance);
    Ok(LpData.DistinctCount(LpData.Ids(fuel) + LpData.Ids(mos)))
  }

  /** A count never exceeds the number of records found. */
  lemma CountBounded(db: Store.Collections, statuses: seq<string>, milestone: Value, tags: Value, importance: Value)
    requires CountOf(db, statuses, milestone, tags, importance).Ok?
    ensures CountOf(db, statuses, milestone, tags, importance).value <=
      |IntendedGetBugs(db, "fuel", statuses, milestone, tags, importance).value| +
      |IntendedGetBugs(db, "mos", statuses, milestone, tags, importance).value|
  {
    var fuel := IntendedGetBugs(db, "fuel", statuses, milestone, tags, importance).value;
    var mos := IntendedGetBugs(db, "mos", statuses, milestone, tags, importance).value;
    LpData.DistinctCountBound(LpData.Ids(fuel) + LpData.Ids(mos));
  }

  /** `bugs_ids(tag, milestone)`: distinct closed bugs, all bugs, and
      unfinished critical or high bugs, over fuel and mos. */
  method BugsIds(db: Store.Collections, tags: Value, milestone: Value) returns (r: Result<LpData.IdCounts>)
    ensures r == BugsIdsOf(db, tags, milestone)
  {
    var done := Count(db, LegacyStatuses.Closed, milestone, tags, VNone);
    if done.Err? {
      return Err(done.error);
    }
    var total := Count(db, LegacyStatuses.All, milestone, tags, VNone);
    if total.Err? {
      return Err(total.error);
    }
    var high := Count(db, LegacyStatuses.NotDone, milestone, tags, HighLevels);
    if high.Err? {
      return Err(high.error);
    }
    r := Ok(LpData.IdCounts(done.value, total.value, high.value));
  }

  /** `["Critical", "High"]`. */
  const HighLevels: Value := VList([VStr("Critical"), VStr("High")])

  function BugsIdsOf(db: Store.Collections, tags: Value, milestone: Value): Result<LpData.IdCounts> {
    var done :- CountOf(db, LegacyStatuses.Closed, milestone, tags, VNone);
    var total :- CountOf(db, LegacyStatuses.All, milestone, tags, VNone);
    var high :- CountOf(db, LegacyStatuses.NotDone, milestone, tags, HighLevels);
    Ok(LpData.IdCounts(done, total, high))
  }

  /** "Closed" holds statuses "All" lacks, so the closed count can exceed
      the total: one fuel bug in status Opinion counts as done but not in
      the total. */
  lemma DoneMayExceedTotal()
    ensures var rec := map["status" := VStr("Opinion"), "id" := VInt(1)];
      var db := map["fuel" := [rec]];
      BugsIdsOf(db, VNone, VNone) == Ok(LpData.IdCounts(1, 0, 0))
  {
    var rec := map["status" := VStr("Opinion"), "id" := VInt(1)];
    var db := map["fuel" := [rec]];
    LegacyStatuses.AllOmitsOpinionAndExpired();
    OpinionCounts(rec, db, LegacyStatuses.Closed, 1);
    OpinionCounts(rec, db, LegacyStatuses.All, 0);
    OpinionCounts(rec, db, LegacyStatuses.NotDone, 0);
  }

  /** The one-record store counts its record exactly when its status is
      in the group. */
  lemma OpinionCounts(rec: Doc, db: Store.Collections, statuses: seq<string>, n: nat)
    requires rec == map["status" := VStr("Opinion"), "id" := VInt(1)] && db == map["fuel" := [rec]]
    requires n == if "Opinion" in statuses then 1 else 0
    ensures CountOf(db, statuses, VNone, VNone, VNone) == Ok(n)
    ensures CountOf(db, statuses, VNone, VNone, HighLevels) == Ok(n)
  {
    OpinionSearch(rec, db, statuses, VNone);
    OpinionSearch(rec, db, statuses, HighLevels);
    var fuel := if "Opinion" in statuses then [rec] else [];
    var ids := LpData.Ids(fuel) + LpData.Ids([]);
    if "Opinion" in statuses {
      assert ids == [VInt(1)];
      assert (set x | x in ids) == {VInt(1)};
    } else {
      assert ids == [];
      assert (set x | x in ids) == {};
    }
  }

  /** Without milestone and tags, the search over the one-record store
      returns that record from fuel exactly when its status is listed, and
      nothing from mos, whatever the importance. */
  lemma OpinionSearch(rec: Doc, db: Store.Collections, statuses: seq<string>, importance: Value)
    requires rec == map["status" := VStr("Opinion"), "id" := VInt(1)] && db == map["fuel" := [rec]]
    ensures IntendedGetBugs(db, "fuel", statuses, VNone, VNone, importance) ==
      Ok(if "Opinion" in statuses then [rec] else [])
    ensures IntendedGetBugs(db, "mos", statuses, VNone, VNone, importance) == Ok([])
  {
    assert Conditions(statuses, VNone, VNone, importance, true) == [LpData.In("status", VStrs(statuses))];
    assert Store.Coll(db, "fuel") == [rec];
    assert Store.Coll(db, "mos") == [];
    OpinionFound(rec, statuses);
  }

  /** The status search over the one Opinion record finds it exactly when
      Opinion is among the statuses. */
  lemma OpinionFound(rec: Doc, statuses: seq<string>)
    requires rec == map["status" := VStr("Opinion"), "id" := VInt(1)]
    ensures LpData.Find([rec], [LpData.In("status", VStrs(statuses))]) ==
      if "Opinion" in statuses then [rec] else []
  {
    var search := [LpData.In("status", VStrs(statuses))];
    assert [rec][..0] == [];
    assert LpData.AllHold(rec, search) <==> "Opinion" in statuses by {
      assert Get(rec, "status") == VStr("Opinion");
      assert LpData.AllHold(rec, search) <==> LpData.Holds(rec, search[0]);
      if "Opinion" in statuses {
        var i :| 0 <= i < |statuses| && statuses[i] == "Opinion";
        assert VStrs(statuses)[i] == VStr("Opinion");
      } else {
        assert VStr("Opinion") !in VStrs(statuses);
      }
    }
  }
}
