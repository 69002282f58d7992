/** The status groups (`BUG_STATUSES`) of the query layer. */
module Statuses {

  const New: seq<string> := ["New"]
  const Incomplete: seq<string> := ["Incomplete"]
  const Open: seq<string> := ["Triaged", "In Progress", "Confirmed"]
  const Closed: seq<string> :=
    ["Fix Committed", "Fix Released", "Won't Fix", "Invalid", "Expired", "Opinion", "Incomplete"]
  const All: seq<string> :=
    ["New", "Incomplete", "Invalid", "Won't Fix", "Confirmed", "Triaged",
     "In Progress", "Fix Committed", "Fix Released", "Opinion", "Expired"]
  const NotDone: seq<string> := ["New", "Confirmed", "Triaged", "In Progress"]
  const Fixed: seq<string> := ["Fix Committed", "Fix Released"]

  /** The group names, in declaration order. */
  const GroupNames: seq<string> := ["New", "Incomplete", "Open", "Closed", "All", "NotDone", "Fixed"]

  /** `BUG_STATUSES[name]`. */
  function Group(name: string): (r: seq<string>)
    requires name in GroupNames
    ensures forall s :: s in r ==> s in All
  {
    match name
    case "New" => New
    case "Incomplete" => Incomplete
    case "Open" => Open
    case "Closed" => Closed
    case "All" => All
    case "NotDone" => NotDone
    case _ => Fixed
  }

  predicate Subset(a: seq<string>, b: seq<string>) {
    forall s :: s in a ==> s in b
  }

  lemma GroupInclusions()
    ensures Subset(NotDone, All) && Subset(Open, All) && Subset(Fixed, All)
    ensures Subset(Fixed, Closed)
    ensures "Incomplete" in Closed && "Incomplete" in Incomplete
    ensures Subset(Closed, All)
  {
  }
}

/** The status groups of the older query layer, which has no "Fixed" group
    and whose "All" lacks two statuses of "Closed". */
module LegacyStatuses {

  const New: seq<string> := ["New"]
  const Incomplete: seq<string> := ["Incomplete"]
  const Open: seq<string> := ["Triaged", "In Progress", "Confirmed"]
  const Closed: seq<string> :=
    ["Fix Committed", "Fix Released", "Won't Fix", "Invalid", "Expired", "Opinion", "Incomplete"]
  const All: seq<string> :=
    ["New", "Incomplete", "Invalid", "Won't Fix", "Confirmed", "Triaged",
     "In Progress", "Fix Released", "Fix Committed"]
  const NotDone: seq<string> := ["New", "Confirmed", "Triaged", "In Progress"]

  lemma AllOmitsOpinionAndExpired()
    ensures "Opinion" in Closed && "Opinion" !in All
    ensures "Expired" in Closed && "Expired" !in All
    ensures forall s :: s in NotDone ==> s in All
  {
  }
}
