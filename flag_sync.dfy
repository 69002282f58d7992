/** The flag-based synchroniser of the older package (`db.py`): every
    stored bug of the listed projects is first marked stale, every fetched
    bug is then written, marked fresh, under its id into the collection
    named by its target, the fetched list being cut into ten slices for ten
    workers, and what is still stale at the end is purged. */
module FlagSync {
  import opened Wrappers
  import opened Documents
  import opened Store
  import SyncUtil
  import LegacySync

  // ---------------------------------------------------------------------
  // The document of one fetched bug

  /** `obj.name if obj else obj`: a falsy object is stored as it is. */
  function NameOrSelf(v: Value, field: string): (r: Result<Value>)
    ensures !Truthy(v) ==> r == Ok(v)
    ensures Truthy(v) ==> r == Member(v, field)
  {
    if Truthy(v) then Member(v, field) else Ok(v)
  }

  /** The lifecycle dates read as they are, failing on the first missing
      one. */
  function RawDateValues(bug: Doc, names: seq<string>): (r: Result<Doc>)
    ensures r.Ok? <==> forall n :: n in names ==> n in bug
    ensures r.Ok? ==> forall n :: n in r.value <==> n in names
    ensures r.Ok? ==> forall n :: n in names ==> r.value[n] == bug[n]
  {
    if names == [] then Ok(map[])
    else
      var rest :- RawDateValues(bug, names[1..]);
      var v :- Attr(bug, names[0]);
      Ok(rest[names[0] := v])
  }

  /** The bug's own fields: its link, status, tags, title and importance. */
  function OwnFields(bug: Doc, item: Value): Result<Doc> {
    var webLink :- Attr(bug, "web_link");
    var status :- Attr(bug, "status");
    var tags :- Member(item, "tags");
    var title :- Member(item, "title");
    var importance :- Attr(bug, "importance");
    Ok(map["web_link" := webLink, "status" := status, "tags" := tags, "title" := title,
           "importance" := importance])
  }

  /** The names and links of the milestone and the assignee, which may be
      missing, and of the owner, which may not. */
  function People(bug: Doc): Result<Doc> {
    var milestone :- Attr(bug, "milestone");
    var milestoneName :- NameOrSelf(milestone, "name");
    var milestoneLink :- NameOrSelf(milestone, "web_link");
    var owner :- Attr(bug, "owner");
    var ownerName :- Member(owner, "name");
    var ownerLink :- Member(owner, "web_link");
    var assignee :- Attr(bug, "assignee");
    var assigneeName :- NameOrSelf(assignee, "name");
    var assigneeLink :- NameOrSelf(assignee, "web_link");
    Ok(map["milestone" := milestoneName, "milestone_link" := milestoneLink,
           "owner" := ownerName, "owner_link" := ownerLink,
           "assignee" := assigneeName, "assignee_link" := assigneeLink])
  }

  /** The four recency flags: the creation date against both thresholds,
      and the fix date against both, or `None` without a fix date. */
  function RecencyFlags(created: Value, fixed: Value, th: SyncUtil.Thresholds): (r: Result<Doc>)
    ensures r.Ok? <==> created.VDate? && (fixed == VNone || fixed.VDate?)
    ensures r.Ok? ==> ("created less than week" in r.value && "created less than month" in r.value &&
                       "fixed less than week" in r.value && "fixed less than month" in r.value)
    ensures r.Ok? ==> (
      Get(r.value, "created less than week") == VBool(created.t > th.weekAgo) &&
      Get(r.value, "created less than month") == VBool(created.t > th.monthAgo) &&
      (fixed == VNone ==> Get(r.value, "fixed less than week") == VNone && Get(r.value, "fixed less than month") == VNone) &&
      (fixed.VDate? ==> Get(r.value, "fixed less than week") == VBool(fixed.t > th.weekAgo) &&
                        Get(r.value, "fixed less than month") == VBool(fixed.t > th.monthAgo)))
  {
    match (LegacySync.After(created, th.weekAgo), LegacySync.FixedFlag(fixed, th.weekAgo))
    case (Err(e), _) => Err(e)
    case (_, Err(e)) => Err(e)
    case (Ok(createdWeek), Ok(fixedWeek)) =>
      var m: Doc := map[
        "created less than week" := VBool(createdWeek),
        "created less than month" := VBool(LegacySync.After(created, th.monthAgo).value),
        "fixed less than week" := fixedWeek,
        "fixed less than month" := LegacySync.FixedFlag(fixed, th.monthAgo).value];
      Ok(m)
  }

  /** The date names are none of the other keys of the document. */
  lemma DateNamesPlain()
    ensures "date_created" in SyncUtil.DateNames && "date_fix_committed" in SyncUtil.DateNames
    ensures forall n :: n in SyncUtil.DateNames ==> (n != "flag" && n != "id" &&
      n != "created less than week" && n != "created less than month" &&
      n != "fixed less than week" && n != "fixed less than month")
  {
  }

  /** The written document: the fields, then the dates, then the fresh
      flag and the id, which the store finds it by. */
  function Compose(fields: Doc, dates: Doc, id: Value): (r: Doc)
    requires "flag" !in dates && "id" !in dates
    ensures Get(r, "id") == id && Get(r, "flag") == VBool(true)
    ensures forall n :: n in dates ==> Get(r, n) == dates[n]
    ensures forall n :: n in fields && n !in dates && n != "flag" && n != "id" ==> Get(r, n) == fields[n]
  {
    fields + dates + map["flag" := VBool(true), "id" := id]
  }

  /** The document `create_collections` writes for one bug. */
  function BugDocument(bug: Doc, th: SyncUtil.Thresholds): Result<Doc> {
    var item :- Attr(bug, "bug");
    var id :- Member(item, "id");
    var own :- OwnFields(bug, item);
    var people :- People(bug);
    var dates :- RawDateValues(bug, SyncUtil.DateNames);
    var flags :- RecencyFlags(Get(dates, "date_created"), Get(dates, "date_fix_committed"), th);
    DateNamesPlain();
    Ok(Compose(own + people + flags, dates, id))
  }

  /** What one fetched bug writes: the collection named by its whole
      target name (series included), and its document. */
  function BugWrite(bug: Doc, th: SyncUtil.Thresholds): Result<(string, Doc)> {
    var target :- Attr(bug, "bug_target_name");
    var doc :- BugDocument(bug, th);
    Ok((Str(target), doc))
  }

  /** A written document goes to the collection of the whole target name,
      carries the bug's id and the fresh flag, the eleven dates unchanged,
      and the creation flags of its creation date. */
  lemma BugWriteShape(bug: Doc, th: SyncUtil.Thresholds)
    requires BugWrite(bug, th).Ok?
    ensures "bug_target_name" in bug && BugWrite(bug, th).value.0 == Str(bug["bug_target_name"])
    ensures "bug" in bug && Member(bug["bug"], "id").Ok?
    ensures var doc := BugWrite(bug, th).value.1;
      Get(doc, "id") == Member(bug["bug"], "id").value && Fresh(doc) &&
      (forall n :: n in SyncUtil.DateNames ==> n in bug && Get(doc, n) == bug[n]) &&
      "date_created" in bug && bug["date_created"].VDate? &&
      Get(doc, "created less than week") == VBool(bug["date_created"].t > th.weekAgo) &&
      Get(doc, "created less than month") == VBool(bug["date_created"].t > th.monthAgo)
  {
    BugDocumentParts(bug, th);
    DateNamesPlain();
    WrittenFlag(bug, th, "created less than week");
    WrittenFlag(bug, th, "created less than month");
  }

  /** The written document, piece by piece: the dates are those of the
      bug, and the flags are computed from its creation and fix dates. */
  lemma BugDocumentParts(bug: Doc, th: SyncUtil.Thresholds)
    requires BugDocument(bug, th).Ok?
    ensures "bug" in bug && "date_created" in bug && "date_fix_committed" in bug
    ensures Member(bug["bug"], "id").Ok? && OwnFields(bug, bug["bug"]).Ok? && People(bug).Ok?
    ensures RawDateValues(bug, SyncUtil.DateNames).Ok? && RecencyFlags(bug["date_created"], bug["date_fix_committed"], th).Ok?
    ensures var dates := RawDateValues(bug, SyncUtil.DateNames).value;
      "flag" !in dates && "id" !in dates &&
      "created less than week" !in dates && "created less than month" !in dates &&
      "fixed less than week" !in dates && "fixed less than month" !in dates
    ensures BugDocument(bug, th).value ==
      Compose(OwnFields(bug, bug["bug"]).value + People(bug).value + RecencyFlags(bug["date_created"], bug["date_fix_committed"], th).value,
              RawDateValues(bug, SyncUtil.DateNames).value, Member(bug["bug"], "id").value)
  {
    var dates := RawDateValues(bug, SyncUtil.DateNames).value;
    DateNamesPlain();
    assert Get(dates, "date_created") == bug["date_created"];
    assert Get(dates, "date_fix_committed") == bug["date_fix_committed"];
  }

  /** A recency flag of the written document is the one computed from the
      bug's creation and fix dates. */
  lemma WrittenFlag(bug: Doc, th: SyncUtil.Thresholds, k: string)
    requires BugWrite(bug, th).Ok?
    requires k == "created less than week" || k == "created less than month" ||
             k == "fixed less than week" || k == "fixed less than month"
    ensures "date_created" in bug && "date_fix_committed" in bug
    ensures Get(BugWrite(bug, th).value.1, k) == Get(RecencyFlags(bug["date_created"], bug["date_fix_committed"], th).value, k)
  {
    BugDocumentParts(bug, th);
    var flags := RecencyFlags(bug["date_created"], bug["date_fix_committed"], th).value;
    var fields := OwnFields(bug, bug["bug"]).value + People(bug).value + flags;
    assert fields[k] == flags[k];
  }

  /** Without a fix date both "fixed" flags are `None`, and only then. */
  lemma FixedFlagsNone(bug: Doc, th: SyncUtil.Thresholds)
    requires BugWrite(bug, th).Ok?
    ensures var doc := BugWrite(bug, th).value.1;
      "date_fix_committed" in bug &&
      (bug["date_fix_committed"] == VNone <==>
        Get(doc, "fixed less than week") == VNone && Get(doc, "fixed less than month") == VNone)
  {
    BugDocumentParts(bug, th);
    WrittenFlag(bug, th, "fixed less than week");
    WrittenFlag(bug, th, "fixed less than month");
  }

  /** With a fix date the "fixed" flags compare it with the thresholds. */
  lemma FixedFlagsDated(bug: Doc, th: SyncUtil.Thresholds)
    requires BugWrite(bug, th).Ok?
    requires "date_fix_committed" in bug && bug["date_fix_committed"].VDate?
    ensures var doc := BugWrite(bug, th).value.1;
      Get(doc, "fixed less than week") == VBool(bug["date_fix_committed"].t > th.weekAgo) &&
      Get(doc, "fixed less than month") == VBool(bug["date_fix_committed"].t > th.monthAgo)
  {
    WrittenFlag(bug, th, "fixed less than week");
    WrittenFlag(bug, th, "fixed less than month");
  }

  /** A bug without a creation date cannot be written: its worker retries
      it for ever. */
  lemma NoCreationDateStuck(bug: Doc, th: SyncUtil.Thresholds)
    requires "date_created" !in bug || !bug["date_created"].VDate?
    ensures BugWrite(bug, th).Err?
  {
    if BugWrite(bug, th).Ok? {
      BugWriteShape(bug, th);
    }
  }

  // ---------------------------------------------------------------------
  // The store operations

  /** The documents of the current run carry `flag: True`, the others
      `flag: False`. */
  predicate Fresh(d: Doc) {
    Get(d, "flag") == VBool(true)
  }

  predicate Stale(d: Doc) {
    Get(d, "flag") == VBool(false)
  }

  /** `{"flag": False}`, the purge's query. */
  const StaleQuery: Query := map["flag" := VBool(false)]

  /** `{"id": x}`, the write's query. */
  function IdQuery(x: Value): Query {
    map["id" := x]
  }

  lemma MatchesId(d: Doc, x: Value)
    ensures Matches(d, IdQuery(x)) <==> Get(d, "id") == x
  {
    assert "id" in IdQuery(x);
  }

  /** Every document of a collection with `flag` set to `False`. */
  function SetStale(docs: seq<Doc>): (r: seq<Doc>)
    ensures |r| == |docs|
    ensures forall i :: 0 <= i < |docs| ==> r[i] == docs[i]["flag" := VBool(false)]
  {
    if docs == [] then [] else SetStale(docs[..|docs| - 1]) + [docs[|docs| - 1]["flag" := VBool(false)]]
  }

  /** `update({}, {"$set": {"flag": False}}, upsert=True, multi=True)`:
      every document is marked stale; an empty collection gets one stale
      document made from the update itself. */
  function ResetColl(docs: seq<Doc>): (r: seq<Doc>) {
    if docs == [] then [map["flag" := VBool(false)]] else SetStale(docs)
  }

  /** After the reset every document of the collection is stale, and each
      is one of the old documents with only its flag changed. */
  lemma ResetCollStale(docs: seq<Doc>)
    ensures ResetColl(docs) != []
    ensures forall i :: 0 <= i < |ResetColl(docs)| ==> Stale(ResetColl(docs)[i])
    ensures docs != [] ==> (|ResetColl(docs)| == |docs| &&
      forall i :: 0 <= i < |docs| ==> ResetColl(docs)[i] == docs[i]["flag" := VBool(false)])
  {
  }

  /** Resetting twice is resetting once. */
  lemma ResetCollIdempotent(docs: seq<Doc>)
    ensures ResetColl(ResetColl(docs)) == ResetColl(docs)
  {
    var r := ResetColl(docs);
    var rr := ResetColl(r);
    assert r != [];
    forall i | 0 <= i < |r| ensures rr[i] == r[i] {
      assert r[i]["flag" := VBool(false)] == r[i];
    }
  }

  /** Removing twice is removing once. */
  lemma {:induction false} RemoveIdempotent(docs: seq<Doc>, q: Query)
    ensures Remove(Remove(docs, q), q) == Remove(docs, q)
  {
    if docs != [] {
      var pre := docs[..|docs| - 1];
      var last := docs[|docs| - 1];
      RemoveIdempotent(pre, q);
      if !Matches(last, q) {
        var r := Remove(pre, q) + [last];
        assert r[..|r| - 1] == Remove(pre, q);
      }
    }
  }

  /** The store after the reset of each listed collection in turn. */
  function ResetAll(db: Collections, projects: seq<string>): Collections {
    if projects == [] then db
    else
      var prev := ResetAll(db, projects[..|projects| - 1]);
      var p := projects[|projects| - 1];
      prev[p := ResetColl(Coll(prev, p))]
  }

  /** Each listed collection is reset once, whatever the repetitions in the
      list; the others are untouched. */
  lemma {:induction false} ResetAllColl(db: Collections, projects: seq<string>)
    ensures forall n :: (Coll(ResetAll(db, projects), n) ==
      if n in projects then ResetColl(Coll(db, n)) else Coll(db, n))
  {
    if projects != [] {
      var pre := projects[..|projects| - 1];
      var p := projects[|projects| - 1];
      var prev := ResetAll(db, pre);
      ResetAllColl(db, pre);
      assert ResetAll(db, projects) == prev[p := ResetColl(Coll(prev, p))];
      forall n ensures Coll(ResetAll(db, projects), n) == if n in projects then ResetColl(Coll(db, n)) else Coll(db, n) {
        assert n in projects <==> n in pre || n == p;
        if n == p && p in pre {
          ResetCollIdempotent(Coll(db, p));
        }
      }
    }
  }

  /** The store after the purge of each listed collection in turn. */
  function PurgeAll(db: Collections, projects: seq<string>): Collections {
    if projects == [] then db
    else
      var prev := PurgeAll(db, projects[..|projects| - 1]);
      var p := projects[|projects| - 1];
      prev[p := Remove(Coll(prev, p), StaleQuery)]
  }

  /** Each listed collection loses its stale documents; the others are
      untouched. */
  lemma {:induction false} PurgeAllColl(db: Collections, projects: seq<string>)
    ensures forall n :: (Coll(PurgeAll(db, projects), n) ==
      if n in projects then Remove(Coll(db, n), StaleQuery) else Coll(db, n))
  {
    if projects != [] {
      var pre := projects[..|projects| - 1];
      var p := projects[|projects| - 1];
      PurgeAllColl(db, pre);
      if p in pre {
        RemoveIdempotent(Coll(db, p), StaleQuery);
      }
      assert forall n :: n in projects <==> n in pre || n == p;
    }
  }

  /** One write: `db[target].update({"id": id}, doc, upsert=True)`. */
  function Write(db: Collections, w: (string, Doc)): Collections {
    db[w.0 := Upsert(Coll(db, w.0), IdQuery(Get(w.1, "id")), w.1)]
  }

  /** The store after the writes, in order. */
  function WriteAll(db: Collections, ws: seq<(string, Doc)>): Collections {
    if ws == [] then db else Write(WriteAll(db, ws[..|ws| - 1]), ws[|ws| - 1])
  }

  /** The writes of a worker: one per bug, up to the first bug whose
      document cannot be built, where the worker stays for ever. */
  function Writes(bugs: seq<Doc>, th: SyncUtil.Thresholds): (seq<(string, Doc)>, Option<Error>) {
    MapUntilError(bugs, b => BugWrite(b, th))
  }

  lemma WritesStep(bugs: seq<Doc>, k: nat, th: SyncUtil.Thresholds)
    requires k < |bugs| && Writes(bugs[..k], th).1.None?
    ensures Writes(bugs[..k + 1], th) ==
      (var w := BugWrite(bugs[k], th);
       if w.Err? then (Writes(bugs[..k], th).0, Some(w.error)) else (Writes(bugs[..k], th).0 + [w.value], None))
  {
    assert bugs[..k + 1][..k] == bugs[..k];
  }

  lemma WritesStop(bugs: seq<Doc>, k: nat, th: SyncUtil.Thresholds)
    requires k <= |bugs| && Writes(bugs[..k], th).1.Some?
    ensures Writes(bugs, th) == Writes(bugs[..k], th)
  {
    MapUntilErrorStops(bugs, b => BugWrite(b, th), k);
  }

  /** No bug is skipped: the writes are those of the first bugs, in order,
      and when the worker is stuck it is on the bug right after them. */
  lemma WritesInOrder(bugs: seq<Doc>, th: SyncUtil.Thresholds)
    ensures var ws := Writes(bugs, th);
      |ws.0| <= |bugs| &&
      (forall i :: 0 <= i < |ws.0| ==> BugWrite(bugs[i], th) == Ok(ws.0[i])) &&
      (ws.1.None? ==> |ws.0| == |bugs|) &&
      (ws.1.Some? ==> |ws.0| < |bugs| && BugWrite(bugs[|ws.0|], th) == Err(ws.1.value))
  {
    var f := b => BugWrite(b, th);
    var ws := Writes(bugs, th);
    if ws.1.None? {
      MapUntilErrorComplete(bugs, f);
    } else {
      MapUntilErrorFails(bugs, f);
      var k :| 0 <= k < |bugs| && MapUntilError(bugs[..k], f) == (ws.0, None) && f(bugs[k]) == Err(ws.1.value);
      MapUntilErrorComplete(bugs[..k], f);
    }
  }

  // ---------------------------------------------------------------------
  // The ten workers' slices

  /** Start of slice `i` (counted from 1): `(i-1)*len/10` in Python 2
      integer division. */
  function SliceStart(n: nat, i: nat): nat
    requires 1 <= i
  {
    (i - 1) * n / 10
  }

  lemma SliceBounds(n: nat, i: nat)
    requires 1 <= i <= 10
    ensures SliceStart(n, i) <= SliceStart(n, i + 1) <= n
    ensures SliceStart(n, 1) == 0 && SliceStart(n, 11) == n
  {
    assert (i - 1) * n <= i * n;
    assert i * n <= 10 * n;
  }

  /** The first `k` slices. */
  function Slices(bugs: seq<Doc>, k: nat): (parts: seq<seq<Doc>>)
    requires k <= 10
    ensures |parts| == k
  {
    if k == 0 then []
    else
      SliceBounds(|bugs|, k);
      Slices(bugs, k - 1) + [bugs[SliceStart(|bugs|, k)..SliceStart(|bugs|, k + 1)]]
  }

  /** The lists one after the other. */
  function Concat(parts: seq<seq<Doc>>): seq<Doc> {
    if parts == [] then [] else Concat(parts[..|parts| - 1]) + parts[|parts| - 1]
  }

  /** The slices follow each other without gap or overlap: together, in
      order, they are the whole list. */
  lemma {:induction false} SlicesCover(bugs: seq<Doc>, k: nat)
    requires k <= 10
    ensures SliceStart(|bugs|, k + 1) <= |bugs|
    ensures Concat(Slices(bugs, k)) == bugs[..SliceStart(|bugs|, k + 1)]
  {
    if k == 0 {
      SliceBounds(|bugs|, 1);
    } else {
      SlicesCover(bugs, k - 1);
      SliceBounds(|bugs|, k);
      var parts := Slices(bugs, k);
      assert parts[..k - 1] == Slices(bugs, k - 1);
      var a := SliceStart(|bugs|, k);
      var b := SliceStart(|bugs|, k + 1);
      assert bugs[..a] + bugs[a..b] == bugs[..b];
    }
  }

  /** `processes`: the ten slices, built one per worker. */
  method SliceBugs(bugs: seq<Doc>) returns (parts: seq<seq<Doc>>)
    ensures parts == Slices(bugs, 10)
  {
    parts := [];
    var i := 1;
    while i < 11
      invariant 1 <= i <= 11 && parts == Slices(bugs, i - 1)
    {
      SliceBounds(|bugs|, i);
      parts := parts + [bugs[(i - 1) * |bugs| / 10..i * |bugs| / 10]];
      i := i + 1;
    }
  }

  /** The writes of all workers, one worker after the other. */
  function PartsWrites(parts: seq<seq<Doc>>, th: SyncUtil.Thresholds): seq<(string, Doc)> {
    if parts == [] then [] else PartsWrites(parts[..|parts| - 1], th) + Writes(parts[|parts| - 1], th).0
  }

  /** Some worker is stuck on a bug it cannot write. */
  predicate PartsStuck(parts: seq<seq<Doc>>, th: SyncUtil.Thresholds) {
    parts != [] && (PartsStuck(parts[..|parts| - 1], th) || Stuck(parts[|parts| - 1], th))
  }

  /** A worker is stuck on a bug it cannot write. */
  predicate Stuck(part: seq<Doc>, th: SyncUtil.Thresholds) {
    Writes(part, th).1.Some?
  }

  /** When no worker is stuck, the workers together write every bug of the
      list, in list order. */
  lemma {:induction false} PartsWritesAll(parts: seq<seq<Doc>>, th: SyncUtil.Thresholds)
    requires !PartsStuck(parts, th)
    ensures Writes(Concat(parts), th) == (PartsWrites(parts, th), None)
  {
    if parts != [] {
      var pre := parts[..|parts| - 1];
      var last := parts[|parts| - 1];
      PartsWritesAll(pre, th);
      assert Writes(last, th).1.None?;
      WritesAppend(Concat(pre), last, th);
    }
  }

  lemma WritesAppend(a: seq<Doc>, b: seq<Doc>, th: SyncUtil.Thresholds)
    requires Writes(a, th).1.None?
    ensures Writes(a + b, th) == (Writes(a, th).0 + Writes(b, th).0, Writes(b, th).1)
  {
    MapUntilErrorAppend(a, b, bug => BugWrite(bug, th));
  }

  // ---------------------------------------------------------------------
  // What a collection holds

  /** The last of the documents with id `x`. */
  function Latest(docs: seq<Doc>, x: Value): (r: Option<Doc>)
    ensures r.Some? ==> r.value in docs && Get(r.value, "id") == x
    ensures r.None? ==> forall i :: 0 <= i < |docs| ==> Get(docs[i], "id") != x
  {
    if docs == [] then None
    else if Get(docs[|docs| - 1], "id") == x then Some(docs[|docs| - 1])
    else Latest(docs[..|docs| - 1], x)
  }

  lemma LatestAppend(docs: seq<Doc>, d: Doc, x: Value)
    ensures Latest(docs + [d], x) == if Get(d, "id") == x then Some(d) else Latest(docs, x)
  {
    assert (docs + [d])[..|docs|] == docs;
  }

  /** The documents written into collection `p`, in order. */
  function Into(ws: seq<(string, Doc)>, p: string): seq<Doc> {
    if ws == [] then []
    else Into(ws[..|ws| - 1], p) + (if ws[|ws| - 1].0 == p then [ws[|ws| - 1].1] else [])
  }

  /** The first document with id `x` in `c` is `d`. */
  predicate Shows(c: seq<Doc>, x: Value, d: Doc) {
    var m := FirstMatch(c, IdQuery(x));
    m.Some? && c[m.value] == d
  }

  /** The state of a reset collection after the documents `written` went
      into it: every document is stale or fresh; the fresh ones are the
      last written of their id, one per id; and the first document with a
      written id is the last one written with it. */
  ghost predicate Tracks(c: seq<Doc>, written: seq<Doc>) {
    (forall i :: 0 <= i < |written| ==> Fresh(written[i])) &&
    (forall i :: 0 <= i < |c| ==> Stale(c[i]) || Fresh(c[i])) &&
    (forall i :: 0 <= i < |c| && Fresh(c[i]) ==> Latest(written, Get(c[i], "id")) == Some(c[i])) &&
    (forall x :: Latest(written, x).Some? ==> Shows(c, x, Latest(written, x).value)) &&
    (forall i, j :: 0 <= i < j < |c| && Fresh(c[i]) && Fresh(c[j]) ==> Get(c[i], "id") != Get(c[j], "id"))
  }

  lemma TracksReset(docs: seq<Doc>)
    ensures Tracks(ResetColl(docs), [])
  {
    ResetCollStale(docs);
  }

  /** The first match is where a match is preceded by none. */
  lemma FirstMatchAt(c: seq<Doc>, q: Query, m: nat)
    requires m < |c| && Matches(c[m], q)
    requires forall k :: 0 <= k < m ==> !Matches(c[k], q)
    ensures FirstMatch(c, q) == Some(m)
  {
  }

  /** Writing a fresh document keeps the collection tracked. */
  lemma TracksUpsert(c: seq<Doc>, written: seq<Doc>, doc: Doc)
    requires Tracks(c, written) && Fresh(doc)
    ensures Tracks(Upsert(c, IdQuery(Get(doc, "id")), doc), written + [doc])
  {
    var x := Get(doc, "id");
    var q := IdQuery(x);
    forall d ensures Matches(d, q) <==> Get(d, "id") == x {
      MatchesId(d, x);
    }
    forall y ensures Latest(written + [doc], y) == if x == y then Some(doc) else Latest(written, y) {
      LatestAppend(written, doc, y);
    }
    if FirstMatch(c, q).Some? {
      TracksReplace(c, written, doc, FirstMatch(c, q).value);
    } else {
      TracksAppend(c, written, doc);
    }
  }

  lemma TracksReplace(c: seq<Doc>, written: seq<Doc>, doc: Doc, i: nat)
    requires Tracks(c, written) && Fresh(doc)
    requires FirstMatch(c, IdQuery(Get(doc, "id"))) == Some(i)
    requires forall d :: Matches(d, IdQuery(Get(doc, "id"))) <==> Get(d, "id") == Get(doc, "id")
    requires forall y :: Latest(written + [doc], y) == if Get(doc, "id") == y then Some(doc) else Latest(written, y)
    ensures Tracks(c[i := doc], written + [doc])
  {
    var x := Get(doc, "id");
    var c' := c[i := doc];
    var w' := written + [doc];
    forall j | 0 <= j < |c| && j != i && Fresh(c[j]) ensures Get(c[j], "id") != x {
      ReplaceOnlyOne(c, written, doc, i, j);
    }
    assert forall j :: 0 <= j < |w'| ==> Fresh(w'[j]);
    forall y | Latest(w', y).Some? ensures Shows(c', y, Latest(w', y).value) {
      ReplaceShows(c, written, doc, i, y);
    }
  }

  /** No fresh document but the one replaced has the id written. */
  lemma ReplaceOnlyOne(c: seq<Doc>, written: seq<Doc>, doc: Doc, i: nat, j: nat)
    requires Tracks(c, written)
    requires FirstMatch(c, IdQuery(Get(doc, "id"))) == Some(i)
    requires forall d :: Matches(d, IdQuery(Get(doc, "id"))) <==> Get(d, "id") == Get(doc, "id")
    requires j < |c| && j != i && Fresh(c[j])
    ensures Get(c[j], "id") != Get(doc, "id")
  {
    if Get(c[j], "id") == Get(doc, "id") {
      assert false;
    }
  }

  /** After the replacement every written id still shows its last write. */
  lemma ReplaceShows(c: seq<Doc>, written: seq<Doc>, doc: Doc, i: nat, y: Value)
    requires Tracks(c, written) && Fresh(doc)
    requires FirstMatch(c, IdQuery(Get(doc, "id"))) == Some(i)
    requires forall y :: Latest(written + [doc], y) == if Get(doc, "id") == y then Some(doc) else Latest(written, y)
    requires Latest(written + [doc], y).Some?
    ensures Shows(c[i := doc], y, Latest(written + [doc], y).value)
  {
    var x := Get(doc, "id");
    var c' := c[i := doc];
    if y == x {
      FirstMatchAt(c', IdQuery(x), i);
    } else {
      MatchesId(doc, y);
      var m := FirstMatch(c, IdQuery(y)).value;
      MatchesId(c[m], y);
      MatchesId(c[i], y);
      forall k | 0 <= k < m ensures !Matches(c'[k], IdQuery(y)) {
        if k == i {
          MatchesId(c'[k], y);
        }
      }
      FirstMatchAt(c', IdQuery(y), m);
    }
  }

  lemma TracksAppend(c: seq<Doc>, written: seq<Doc>, doc: Doc)
    requires Tracks(c, written) && Fresh(doc)
    requires FirstMatch(c, IdQuery(Get(doc, "id"))).None?
    requires forall d :: Matches(d, IdQuery(Get(doc, "id"))) <==> Get(d, "id") == Get(doc, "id")
    requires forall y :: Latest(written + [doc], y) == if Get(doc, "id") == y then Some(doc) else Latest(written, y)
    ensures Tracks(c + [doc], written + [doc])
  {
    var x := Get(doc, "id");
    var c' := c + [doc];
    var w' := written + [doc];
    assert forall j :: 0 <= j < |c| ==> Get(c[j], "id") != x;
    assert forall j :: 0 <= j < |w'| ==> Fresh(w'[j]);
    forall j | 0 <= j < |c'| ensures Stale(c'[j]) || Fresh(c'[j]) {
      if j < |c| { assert c'[j] == c[j]; }
    }
    forall j | 0 <= j < |c'| && Fresh(c'[j]) ensures Latest(w', Get(c'[j], "id")) == Some(c'[j]) {
      if j < |c| { assert c'[j] == c[j]; }
    }
    forall j, k | 0 <= j < k < |c'| && Fresh(c'[j]) && Fresh(c'[k]) ensures Get(c'[j], "id") != Get(c'[k], "id") {
      assert c'[j] == c[j];
      if k < |c| { assert c'[k] == c[k]; }
    }
    forall y | Latest(w', y).Some? ensures Shows(c', y, Latest(w', y).value) {
      AppendShows(c, written, doc, y);
    }
  }

  /** After the append every written id still shows its last write. */
  lemma AppendShows(c: seq<Doc>, written: seq<Doc>, doc: Doc, y: Value)
    requires Tracks(c, written) && Fresh(doc)
    requires FirstMatch(c, IdQuery(Get(doc, "id"))).None?
    requires forall d :: Matches(d, IdQuery(Get(doc, "id"))) <==> Get(d, "id") == Get(doc, "id")
    requires forall y :: Latest(written + [doc], y) == if Get(doc, "id") == y then Some(doc) else Latest(written, y)
    requires Latest(written + [doc], y).Some?
    ensures Shows(c + [doc], y, Latest(written + [doc], y).value)
  {
    var c' := c + [doc];
    if y == Get(doc, "id") {
      FirstMatchAt(c', IdQuery(y), |c|);
    } else {
      var m := FirstMatch(c, IdQuery(y)).value;
      FirstMatchAt(c', IdQuery(y), m);
    }
  }

  /** The writes into every collection but `p` leave it alone; those into
      `p` keep it tracked. */
  lemma {:induction false} WriteAllTracks(db: Collections, ws: seq<(string, Doc)>, p: string, before: seq<Doc>)
    requires Tracks(Coll(db, p), before)
    requires forall k :: 0 <= k < |ws| ==> Fresh(ws[k].1)
    ensures Tracks(Coll(WriteAll(db, ws), p), before + Into(ws, p))
  {
    if ws == [] {
      assert before + [] == before;
    } else {
      var pre := ws[..|ws| - 1];
      var last := ws[|ws| - 1];
      WriteAllTracks(db, pre, p, before);
      if last.0 == p {
        TracksUpsert(Coll(WriteAll(db, pre), p), before + Into(pre, p), last.1);
        AppendAssoc(before, Into(pre, p), [last.1]);
      } else {
        assert Into(ws, p) == Into(pre, p) + [];
        assert Into(pre, p) + [] == Into(pre, p);
        assert Coll(WriteAll(db, ws), p) == Coll(WriteAll(db, pre), p);
      }
    }
  }

  /** What survives the purge is a fresh document, hence the last one
      written with its id. */
  lemma PurgedIsLatest(c: seq<Doc>, written: seq<Doc>, d: Doc)
    requires Tracks(c, written) && d in Remove(c, StaleQuery)
    ensures Latest(written, Get(d, "id")) == Some(d)
  {
    assert "flag" in StaleQuery;
    var i :| 0 <= i < |c| && c[i] == d;
    assert Fresh(c[i]);
  }

  /** The last document written with an id survives the purge. */
  lemma LatestIsPurged(c: seq<Doc>, written: seq<Doc>, x: Value)
    requires Tracks(c, written) && Latest(written, x).Some?
    ensures Latest(written, x).value in Remove(c, StaleQuery)
  {
    var d := Latest(written, x).value;
    assert "flag" in StaleQuery;
    assert Shows(c, x, d);
    var k :| 0 <= k < |written| && written[k] == d;
    assert Fresh(d);
  }

  /** After the purge a tracked collection holds exactly the last document
      written for each id, and no two of them share an id. */
  lemma TracksPurged(c: seq<Doc>, written: seq<Doc>)
    requires Tracks(c, written)
    ensures forall d :: d in Remove(c, StaleQuery) ==> Latest(written, Get(d, "id")) == Some(d)
    ensures forall x :: Latest(written, x).Some? ==> Latest(written, x).value in Remove(c, StaleQuery)
  {
    forall d | d in Remove(c, StaleQuery) ensures Latest(written, Get(d, "id")) == Some(d) {
      PurgedIsLatest(c, written, d);
    }
    forall x | Latest(written, x).Some? ensures Latest(written, x).value in Remove(c, StaleQuery) {
      LatestIsPurged(c, written, x);
    }
  }

  /** Every written document is fresh. */
  lemma WritesFresh(bugs: seq<Doc>, th: SyncUtil.Thresholds)
    ensures forall k :: 0 <= k < |Writes(bugs, th).0| ==> Fresh(Writes(bugs, th).0[k].1)
  {
    WritesInOrder(bugs, th);
    forall k | 0 <= k < |Writes(bugs, th).0| ensures Fresh(Writes(bugs, th).0[k].1) {
      BugWriteShape(bugs[k], th);
    }
  }

  lemma {:induction false} PartsWritesFresh(parts: seq<seq<Doc>>, th: SyncUtil.Thresholds)
    ensures forall k :: 0 <= k < |PartsWrites(parts, th)| ==> Fresh(PartsWrites(parts, th)[k].1)
  {
    if parts != [] {
      PartsWritesFresh(parts[..|parts| - 1], th);
      WritesFresh(parts[|parts| - 1], th);
    }
  }

  /** When no worker is stuck, the ten workers together write every
      fetched bug, in list order. */
  lemma RunWritesAll(bugs: seq<Doc>, th: SyncUtil.Thresholds)
    requires !PartsStuck(Slices(bugs, 10), th)
    ensures Writes(bugs, th) == (PartsWrites(Slices(bugs, 10), th), None)
  {
    SlicesCover(bugs, 10);
    SliceBounds(|bugs|, 10);
    assert bugs[..|bugs|] == bugs;
    PartsWritesAll(Slices(bugs, 10), th);
  }

  /** A listed collection, reset and then written, is tracked by what was
      written into it. */
  lemma ResetWrittenTracks(db: Collections, projects: seq<string>, ws: seq<(string, Doc)>, p: string)
    requires p in projects
    requires forall k :: 0 <= k < |ws| ==> Fresh(ws[k].1)
    ensures Tracks(Coll(WriteAll(ResetAll(db, projects), ws), p), Into(ws, p))
  {
    ResetAllColl(db, projects);
    TracksReset(Coll(db, p));
    WriteAllTracks(ResetAll(db, projects), ws, p, []);
    assert [] + Into(ws, p) == Into(ws, p);
  }

  /** The outcome of a run: once every worker is done, each listed
      project's collection holds exactly the last document written for
      each id among the fetched bugs of that collection, one per id, and
      nothing older. */
  lemma RunKeepsLatest(db: Collections, projects: seq<string>, bugs: seq<Doc>, th: SyncUtil.Thresholds, p: string)
    requires !PartsStuck(Slices(bugs, 10), th) && p in projects
    ensures var ws := Writes(bugs, th);
      var final := PurgeAll(WriteAll(ResetAll(db, projects), PartsWrites(Slices(bugs, 10), th)), projects);
      ws.1.None? &&
      (forall d :: d in Coll(final, p) ==> Latest(Into(ws.0, p), Get(d, "id")) == Some(d)) &&
      (forall x :: Latest(Into(ws.0, p), x).Some? ==> Latest(Into(ws.0, p), x).value in Coll(final, p))
  {
    var parts := Slices(bugs, 10);
    RunWritesAll(bugs, th);
    var ws := PartsWrites(parts, th);
    PartsWritesFresh(parts, th);
    ResetWrittenTracks(db, projects, ws, p);
    var written := WriteAll(ResetAll(db, projects), ws);
    PurgeAllColl(written, projects);
    TracksPurged(Coll(written, p), Into(ws, p));
  }

  // ---------------------------------------------------------------------
  // The run

  class Database {
    var db: Collections

    constructor (db: Collections)
      ensures this.db == db
    {
      this.db := db;
    }

    /** Every listed project's collection is marked stale. */
    method ResetFlags(projects: seq<string>)
      modifies this
      ensures db == ResetAll(old(db), projects)
    {
      var i := 0;
      while i < |projects|
        invariant 0 <= i <= |projects| && db == ResetAll(old(db), projects[..i])
      {
        assert projects[..i + 1][..i] == projects[..i];
        db := db[projects[i] := ResetColl(Coll(db, projects[i]))];
        i := i + 1;
      }
      assert projects[..i] == projects;
    }

    /** `create_collections(bugs)`: each bug's document is written under its
        id; a failing store update is retried, so only a document that
        cannot be built stops the worker, which the source then retries for
        ever: `stuck` reports it, and the bugs after it are not written. */
    method CreateCollections(bugs: seq<Doc>, th: SyncUtil.Thresholds) returns (stuck: bool)
      modifies this
      ensures db == WriteAll(old(db), Writes(bugs, th).0)
      ensures stuck <==> Writes(bugs, th).1.Some?
    {
      var k := 0;
      while k < |bugs|
        invariant 0 <= k <= |bugs| && Writes(bugs[..k], th).1.None?
        invariant db == WriteAll(old(db), Writes(bugs[..k], th).0)
      {
        WritesStep(bugs, k, th);
        var w := BugWrite(bugs[k], th);
        if w.Err? {
          WritesStop(bugs, k + 1, th);
          return true;
        }
        ghost var ws := Writes(bugs[..k + 1], th).0;
        assert ws[..|ws| - 1] == Writes(bugs[..k], th).0;
        db := Write(db, w.value);
        k := k + 1;
      }
      assert bugs[..k] == bugs;
      return false;
    }

    /** The stale documents of every listed project go. */
    method Purge(projects: seq<string>)
      modifies this
      ensures db == PurgeAll(old(db), projects)
    {
      var i := 0;
      while i < |projects|
        invariant 0 <= i <= |projects| && db == PurgeAll(old(db), projects[..i])
      {
        assert projects[..i + 1][..i] == projects[..i];
        db := db[projects[i] := Remove(Coll(db, projects[i]), StaleQuery)];
        i := i + 1;
      }
      assert projects[..i] == projects;
    }

    /** The script: reset, the ten workers over their slices (one after the
        other here), and the purge once all have finished; a stuck worker
        never finishes, so then nothing is purged. */
    method Run(projects: seq<string>, bugs: seq<Doc>, th: SyncUtil.Thresholds) returns (stuck: bool)
      modifies this
      ensures stuck <==> PartsStuck(Slices(bugs, 10), th)
      ensures var written := WriteAll(ResetAll(old(db), projects), PartsWrites(Slices(bugs, 10), th));
        db == if stuck then written else PurgeAll(written, projects)
    {
      ResetFlags(projects);
      var parts := SliceBugs(bugs);
      stuck := RunWorkers(parts, th);
      if !stuck {
        Purge(projects);
      }
    }

    /** The workers, one after the other, each over its slice. */
    method RunWorkers(parts: seq<seq<Doc>>, th: SyncUtil.Thresholds) returns (stuck: bool)
      modifies this
      ensures stuck <==> PartsStuck(parts, th)
      ensures db == WriteAll(old(db), PartsWrites(parts, th))
    {
      stuck := false;
      var i := 0;
      while i < |parts|
        invariant 0 <= i <= |parts|
        invariant db == WriteAll(old(db), PartsWrites(parts[..i], th))
        invariant stuck <==> PartsStuck(parts[..i], th)
      {
        PartsWritesStep(parts, i, th);
        var s := CreateCollections(parts[i], th);
        WriteAllAppend(old(db), PartsWrites(parts[..i], th), Writes(parts[i], th).0);
        stuck := stuck || s;
        i := i + 1;
      }
      assert parts[..i] == parts;
    }
  }

  /** One more worker adds its writes after the others', and is stuck or
      not on its own. */
  lemma PartsWritesStep(parts: seq<seq<Doc>>, i: nat, th: SyncUtil.Thresholds)
    requires i < |parts|
    ensures PartsWrites(parts[..i + 1], th) == PartsWrites(parts[..i], th) + Writes(parts[i], th).0
    ensures PartsStuck(parts[..i + 1], th) <==> PartsStuck(parts[..i], th) || Stuck(parts[i], th)
  {
    assert parts[..i + 1][..i] == parts[..i];
  }

  lemma {:induction false} WriteAllAppend(db: Collections, a: seq<(string, Doc)>, b: seq<(string, Doc)>)
    ensures WriteAll(db, a + b) == WriteAll(WriteAll(db, a), b)
  {
    if b == [] {
      assert a + b == a;
    } else {
      var pre := b[..|b| - 1];
      var last := b[|b| - 1];
      calc {
        WriteAll(db, a + b);
      == { assert a + b == (a + pre) + [last]; }
        WriteAll(db, (a + pre) + [last]);
      == { WriteAllSnoc(db, a + pre, last); }
        Write(WriteAll(db, a + pre), last);
      == { WriteAllAppend(db, a, pre); }
        Write(WriteAll(WriteAll(db, a), pre), last);
      == { WriteAllSnoc(WriteAll(db, a), pre, last); }
        WriteAll(WriteAll(db, a), pre + [last]);
      == { assert pre + [last] == b; }
        WriteAll(WriteAll(db, a), b);
      }
    }
  }

  lemma WriteAllSnoc(db: Collections, ws: seq<(string, Doc)>, w: (string, Doc))
    ensures WriteAll(db, ws + [w]) == Write(WriteAll(db, ws), w)
  {
    assert (ws + [w])[..|ws|] == ws;
  }
}
