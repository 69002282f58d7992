/** The document store the synchronisers write into: named collections of
    documents, equality queries, `remove` and replacing `update` with
    `upsert`. Documents are matched with `Get`, so a query asking for `None`
    also matches a document without that field. */
module Store {
  import opened Wrappers
  import opened Documents
  import Strings

  /** The collections by name; a collection never written is empty. */
  type Collections = map<string, seq<Doc>>

  function Coll(db: Collections, name: string): (r: seq<Doc>)
    ensures name in db ==> r == db[name]
    ensures name !in db ==> r == []
  {
    if name in db then db[name] else []
  }

  /** A query of equality conditions, all of which must hold. */
  type Query = map<string, Value>

  predicate Matches(d: Doc, q: Query) {
    forall k :: k in q ==> Get(d, k) == q[k]
  }

  /** `remove(query)`: every matching document goes, the others stay in
      order. */
  function Remove(docs: seq<Doc>, q: Query): (r: seq<Doc>)
    ensures forall d :: d in r <==> d in docs && !Matches(d, q)
    ensures |r| <= |docs|
  {
    if docs == [] then []
    else
      var pre := docs[..|docs| - 1];
      var last := docs[|docs| - 1];
      assert docs == pre + [last];
      if Matches(last, q) then Remove(pre, q) else Remove(pre, q) + [last]
  }

  /** The position of the first matching document. */
  function FirstMatch(docs: seq<Doc>, q: Query): (r: Option<nat>)
    ensures r.Some? ==> (r.value < |docs| && Matches(docs[r.value], q) &&
      forall i :: 0 <= i < r.value ==> !Matches(docs[i], q))
    ensures r.None? <==> forall i :: 0 <= i < |docs| ==> !Matches(docs[i], q)
  {
    if docs == [] then None
    else if Matches(docs[0], q) then Some(0)
    else
      var rest := FirstMatch(docs[1..], q);
      if rest.Some? then Some(rest.value + 1) else None
  }

  /** `update(query, doc, upsert=True)` with a whole document: the first
      matching document is replaced, or `doc` is added when none matches. */
  function Upsert(docs: seq<Doc>, q: Query, doc: Doc): seq<Doc> {
    var i := FirstMatch(docs, q);
    if i.Some? then docs[i.value := doc] else docs + [doc]
  }

  /** The values of `keys` in a document, as the query that finds it. */
  function KeyOf(d: Doc, keys: set<string>): Query {
    map k | k in keys :: Get(d, k)
  }

  lemma MatchesKey(d: Doc, e: Doc, keys: set<string>)
    ensures Matches(d, KeyOf(e, keys)) <==> KeyOf(d, keys) == KeyOf(e, keys)
  {
    if Matches(d, KeyOf(e, keys)) {
      assert forall k :: k in keys ==> KeyOf(d, keys)[k] == KeyOf(e, keys)[k];
    }
  }

  /** No two documents of a collection agree on all of `keys`. */
  predicate UniqueOn(docs: seq<Doc>, keys: set<string>) {
    forall i, j :: 0 <= i < j < |docs| ==> KeyOf(docs[i], keys) != KeyOf(docs[j], keys)
  }

  /** An upsert keyed by the document's own `keys` keeps a collection
      unique on them, and leaves the document as the only one with its key;
      the collection grows by at most one and only when the key was new. */
  lemma UpsertUnique(docs: seq<Doc>, keys: set<string>, doc: Doc)
    requires UniqueOn(docs, keys)
    ensures var r := Upsert(docs, KeyOf(doc, keys), doc);
      UniqueOn(r, keys) && doc in r &&
      (forall d :: d in r && KeyOf(d, keys) == KeyOf(doc, keys) ==> d == doc) &&
      (forall d :: d in docs && KeyOf(d, keys) != KeyOf(doc, keys) ==> d in r) &&
      (|r| == |docs| <==> exists d :: d in docs && KeyOf(d, keys) == KeyOf(doc, keys)) &&
      |r| <= |docs| + 1
  {
    var q := KeyOf(doc, keys);
    var r := Upsert(docs, q, doc);
    forall d | d in docs ensures Matches(d, q) <==> KeyOf(d, keys) == q {
      MatchesKey(d, doc, keys);
    }
    var m := FirstMatch(docs, q);
    if m.Some? {
      var i := m.value;
      forall a, b | 0 <= a < b < |r| ensures KeyOf(r[a], keys) != KeyOf(r[b], keys) {
        if a == i {
          assert KeyOf(docs[i], keys) == q;
        } else if b == i {
          assert KeyOf(docs[i], keys) == q;
        }
      }
      forall d | d in r && KeyOf(d, keys) == q ensures d == doc {
        var j :| 0 <= j < |r| && r[j] == d;
        assert KeyOf(docs[i], keys) == q;
      }
      forall d | d in docs && KeyOf(d, keys) != q ensures d in r {
        var j :| 0 <= j < |docs| && docs[j] == d;
        assert r[j] == d;
      }
      assert docs[i] in docs && KeyOf(docs[i], keys) == q;
      assert r[i] == doc;
      assert UniqueOn(r, keys);
    } else {
      MatchesKey(doc, doc, keys);
      forall a, b | 0 <= a < b < |r| ensures KeyOf(r[a], keys) != KeyOf(r[b], keys) {
        if b == |docs| {
          assert !Matches(docs[a], q);
        }
      }
      forall d | d in docs ensures KeyOf(d, keys) != q {
        var j :| 0 <= j < |docs| && docs[j] == d;
        assert !Matches(docs[j], q);
      }
    }
  }

  /** Removing only takes documents away: what stays keeps the collection
      unique. */
  lemma RemoveUnique(docs: seq<Doc>, q: Query, keys: set<string>)
    requires UniqueOn(docs, keys)
    ensures UniqueOn(Remove(docs, q), keys)
  {
    if docs != [] {
      var pre := docs[..|docs| - 1];
      var last := docs[|docs| - 1];
      assert UniqueOn(pre, keys);
      RemoveUnique(pre, q, keys);
      if !Matches(last, q) {
        var r := Remove(pre, q) + [last];
        forall a, b | 0 <= a < b < |r| ensures KeyOf(r[a], keys) != KeyOf(r[b], keys) {
          if b == |r| - 1 {
            assert r[a] in Remove(pre, q);
            var j :| 0 <= j < |pre| && pre[j] == r[a];
            assert KeyOf(docs[j], keys) != KeyOf(docs[|docs| - 1], keys);
          }
        }
      }
    }
  }

  // ---------------------------------------------------------------------
  // `process_bugs`: upserts keyed by (id, milestone)

  /** The fields a processed document is found by. */
  const UpsertKeys: set<string> := {"id", "milestone"}

  /** The collection a document goes to: its target name up to the first
      `/`. */
  function TargetCollection(doc: Doc): string {
    Strings.BeforeFirst(Str(Get(doc, "target_name")), '/')
  }

  /** One upsert of `process_bugs`: the document replaces the first one of
      its collection with the same id and milestone, or is added. */
  function UpsertDoc(db: Collections, doc: Doc): Collections {
    db[TargetCollection(doc) := Upsert(Coll(db, TargetCollection(doc)), KeyOf(doc, UpsertKeys), doc)]
  }

  /** An upsert touches only the document's own collection. */
  lemma UpsertDocElsewhere(db: Collections, doc: Doc)
    ensures forall n :: n != TargetCollection(doc) ==> Coll(UpsertDoc(db, doc), n) == Coll(db, n)
  {
  }

  /** The store after the queued documents are upserted in order. */
  function ProcessedDocs(db: Collections, docs: seq<Doc>): Collections {
    if docs == [] then db
    else UpsertDoc(ProcessedDocs(db, docs[..|docs| - 1]), docs[|docs| - 1])
  }

  /** The processor's loop: the queued documents are upserted one by one,
      in order. */
  method Drain(db: Collections, docs: seq<Doc>) returns (r: Collections)
    ensures r == ProcessedDocs(db, docs)
  {
    r := db;
    var i := 0;
    while i < |docs|
      invariant 0 <= i <= |docs|
      invariant r == ProcessedDocs(db, docs[..i])
    {
      ProcessedStep(db, docs, i);
      r := UpsertDoc(r, docs[i]);
      i := i + 1;
    }
    assert docs[..i] == docs;
  }

  lemma ProcessedStep(db: Collections, docs: seq<Doc>, i: nat)
    requires i < |docs|
    ensures ProcessedDocs(db, docs[..i + 1]) == UpsertDoc(ProcessedDocs(db, docs[..i]), docs[i])
  {
    assert docs[..i + 1][..i] == docs[..i];
  }

  /** Every collection holds at most one document per (id, milestone). */
  predicate KeyedStore(db: Collections) {
    forall n :: n in db ==> UniqueOn(db[n], UpsertKeys)
  }

  /** An upsert keeps the store keyed, and leaves the document as the only
      one with its id and milestone in its collection. */
  lemma UpsertDocKeyed(db: Collections, doc: Doc)
    requires KeyedStore(db)
    ensures KeyedStore(UpsertDoc(db, doc))
    ensures var c := Coll(UpsertDoc(db, doc), TargetCollection(doc));
      doc in c && forall d :: d in c && KeyOf(d, UpsertKeys) == KeyOf(doc, UpsertKeys) ==> d == doc
  {
    UpsertUnique(Coll(db, TargetCollection(doc)), UpsertKeys, doc);
  }

  /** Processing any queue keeps the store keyed, and the last document
      of the queue is then the only one with its key in its collection. */
  lemma {:induction false} ProcessedKeyed(db: Collections, docs: seq<Doc>)
    requires KeyedStore(db)
    ensures KeyedStore(ProcessedDocs(db, docs))
    ensures docs != [] ==> var last := docs[|docs| - 1];
      var c := Coll(ProcessedDocs(db, docs), TargetCollection(last));
      last in c && forall d :: d in c && KeyOf(d, UpsertKeys) == KeyOf(last, UpsertKeys) ==> d == last
  {
    if docs != [] {
      ProcessedKeyed(db, docs[..|docs| - 1]);
      UpsertDocKeyed(ProcessedDocs(db, docs[..|docs| - 1]), docs[|docs| - 1]);
    }
  }
}
