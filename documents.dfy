/** Dynamically typed values as they appear in the tracker's JSON, in the
    document store and in the attribute dictionaries of the source's bug
    objects. */
module Documents {
  import opened Wrappers
  import Strings

  /** A Python value. Instants are seconds since the epoch: `VDate` is a
      parsed `datetime`, `VDateText` the tracker's textual timestamp before
      parsing. Lists and tuples are both `VList` (the store keeps both as
      arrays). `VObj` is an object of the tracker's client (a person, a
      milestone, a bug) with its attributes. */
  datatype Value =
    | VNone
    | VBool(b: bool)
    | VInt(i: int)
    | VStr(s: string)
    | VList(items: seq<Value>)
    | VDate(t: int)
    | VDateText(t: int)
    | VObj(fields: map<string, Value>)

  /** A store document, or the attribute dictionary of an object. */
  type Doc = map<string, Value>

  /** Python truthiness. */
  predicate Truthy(v: Value) {
    match v
    case VNone => false
    case VBool(b) => b
    case VInt(i) => i != 0
    case VStr(s) => s != ""
    case VList(items) => items != []
    case VDate(_) => true
    case VDateText(_) => true
    case VObj(_) => true
  }

  /** `d.get(k)`: `None` for a missing key. */
  function Get(d: Doc, k: string): (v: Value)
    ensures k !in d ==> v == VNone
    ensures k in d ==> v == d[k]
  {
    if k in d then d[k] else VNone
  }

  /** `getattr(obj, k)` on an object whose attributes are `d`. */
  function Attr(d: Doc, k: string): (r: Result<Value>)
    ensures r.Ok? <==> k in d
    ensures r.Ok? ==> r.value == d[k]
  {
    if k in d then Ok(d[k]) else Err(AttributeError(k))
  }

  /** `getattr(v, k)` on any value: only an object with that attribute has
      it. */
  function Member(v: Value, k: string): (r: Result<Value>)
    ensures r.Ok? <==> v.VObj? && k in v.fields
    ensures r.Ok? ==> r.value == v.fields[k]
  {
    if v.VObj? && k in v.fields then Ok(v.fields[k]) else Err(AttributeError(k))
  }

  /** The entries of a dictionary in iteration order (`d.iteritems()`). */
  type Items = seq<(string, Value)>

  /** `d[k]` on a dictionary given by its entries. */
  function ItemAt(items: Items, k: string): (r: Result<Value>)
    ensures r.Ok? <==> exists i :: 0 <= i < |items| && items[i].0 == k
  {
    if items == [] then Err(KeyError(k))
    else if items[|items| - 1].0 == k then Ok(items[|items| - 1].1)
    else
      var r := ItemAt(items[..|items| - 1], k);
      assert r.Ok? ==> exists i :: 0 <= i < |items| && items[i].0 == k by {
        if r.Ok? {
          var i :| 0 <= i < |items| - 1 && items[..|items| - 1][i].0 == k;
          assert items[i].0 == k;
        }
      }
      r
  }

  /** A date attribute read as an optional instant: anything but a parsed
      date counts as absent. */
  function DateOf(v: Value): Option<int> {
    if v.VDate? then Some(v.t) else None
  }

  /** A string attribute read as an optional string. */
  function StrOf(v: Value): Option<string> {
    if v.VStr? then Some(v.s) else None
  }

  /** The strings of a list value (non-strings are skipped). */
  function StrsOf(v: Value): (r: seq<string>)
    ensures forall x :: x in r <==> v.VList? && VStr(x) in v.items
  {
    if !v.VList? then [] else StrsIn(v.items)
  }

  function StrsIn(vs: seq<Value>): (r: seq<string>)
    ensures forall x :: x in r <==> VStr(x) in vs
  {
    if vs == [] then []
    else (if vs[0].VStr? then [vs[0].s] else []) + StrsIn(vs[1..])
  }

  /** The elements `set(v)` and `for x in v` see: the items of a list, the
      one-character strings of a string; anything else is not iterable. */
  function Iterate(v: Value): (r: Result<seq<Value>>)
    ensures r.Ok? <==> v.VList? || v.VStr?
    ensures v.VList? ==> r == Ok(v.items)
    ensures v.VStr? ==> |r.value| == |v.s| && forall i :: 0 <= i < |v.s| ==> r.value[i] == VStr([v.s[i]])
  {
    match v
    case VList(items) => Ok(items)
    case VStr(s) => Ok(Chars(s))
    case _ => Err(TypeError("iteration"))
  }

  function Chars(s: string): (r: seq<Value>)
    ensures |r| == |s| && forall i :: 0 <= i < |s| ==> r[i] == VStr([s[i]])
  {
    if s == [] then [] else [VStr([s[0]])] + Chars(s[1..])
  }

  /** Strings as list values. */
  function VStrs(xs: seq<string>): (r: seq<Value>)
    ensures |r| == |xs|
    ensures forall i :: 0 <= i < |xs| ==> r[i] == VStr(xs[i])
  {
    if xs == [] then [] else [VStr(xs[0])] + VStrs(xs[1..])
  }

  /** `str(v)` for the values the source formats; an object of the
      tracker's client prints as its `self_link`. */
  function Str(v: Value): string {
    match v
    case VNone => "None"
    case VBool(b) => if b then "True" else "False"
    case VInt(i) => Strings.IntToString(i)
    case VStr(s) => s
    case VObj(f) =>
      if "self_link" in f && f["self_link"].VStr? then f["self_link"].s else "<object>"
    case _ => "<value>"
  }

  /** Equality of a field with a value in a store query: a missing field
      equals `None`. */
  predicate FieldIs(d: Doc, k: string, v: Value) {
    Get(d, k) == v
  }

  /** `{k: {"$in": vs}}`: the field, or one element of it when it is an
      array, is among `vs`. */
  predicate FieldIn(d: Doc, k: string, vs: seq<Value>) {
    var f := Get(d, k);
    f in vs || (f.VList? && exists x :: x in f.items && x in vs)
  }
}
