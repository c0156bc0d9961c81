/** The mergeable Space-Saving sketch of the most requested URIs (src/metrics.rs). */
module UriTops {
  import opened Prelude

  type Uri = seq<byte>

  datatype Stat = Stat(uri: Uri, estimated: nat, error: nat)

  // ----- entries -----

  ghost predicate Unique(entries: seq<Stat>)
  {
    forall i, j :: 0 <= i < j < |entries| ==> entries[i].uri != entries[j].uri
  }

  /** The position of a URI among the entries. */
  function Find(entries: seq<Stat>, uri: Uri): (r: Option<nat>)
    ensures r.Some? ==> r.value < |entries| && entries[r.value].uri == uri
    ensures r.None? ==> forall i :: 0 <= i < |entries| ==> entries[i].uri != uri
  {
    if entries == [] then None
    else if entries[0].uri == uri then Some(0)
    else match Find(entries[1..], uri)
      case None => None
      case Some(k) => Some(k + 1)
  }

  /** The first entry with the smallest estimate. */
  function Smallest(entries: seq<Stat>): (k: nat)
    requires entries != []
    ensures k < |entries| && forall i :: 0 <= i < |entries| ==> entries[k].estimated <= entries[i].estimated
    ensures forall i :: 0 <= i < k ==> entries[k].estimated < entries[i].estimated
  {
    if |entries| == 1 then 0
    else
      var k := Smallest(entries[..|entries| - 1]);
      if entries[|entries| - 1].estimated < entries[k].estimated then |entries| - 1 else k
  }

  /** An upper bound on the count of any URI that is not tracked. */
  function MinimumCount(entries: seq<Stat>, capacity: nat): (m: nat)
    ensures forall i :: 0 <= i < |entries| ==> m <= entries[i].estimated
  {
    if |entries| < capacity || entries == [] then 0 else entries[Smallest(entries)].estimated
  }

  // ----- recording -----

  function RecordWeight(entries: seq<Stat>, capacity: nat, uri: Uri, count: nat, error: nat): seq<Stat>
    requires 0 < capacity
  {
    match Find(entries, uri)
    case Some(k) => entries[k := Stat(uri, entries[k].estimated + count, entries[k].error + error)]
    case None =>
      if |entries| < capacity then entries + [Stat(uri, count, error)]
      else
        var k := Smallest(entries);
        var minimum := entries[k].estimated;
        entries[k := Stat(uri, minimum + count, minimum + error)]
  }

  function Record(entries: seq<Stat>, capacity: nat, uri: Uri): seq<Stat>
    requires 0 < capacity
  {
    match Find(entries, uri)
    case Some(k) => entries[k := Stat(uri, entries[k].estimated + 1, entries[k].error)]
    case None => RecordWeight(entries, capacity, uri, 1, 0)
  }

  // ----- merging -----

  /** What a sketch says of any URI: its entry, or the bound on untracked URIs. */
  function Estimate(entries: seq<Stat>, minimum: nat, uri: Uri): nat
  {
    match Find(entries, uri) case Some(k) => entries[k].estimated case None => minimum
  }

  function ErrorOf(entries: seq<Stat>, minimum: nat, uri: Uri): nat
  {
    match Find(entries, uri) case Some(k) => entries[k].error case None => minimum
  }

  function MergeLeft(left: seq<Stat>, right: seq<Stat>, rightMinimum: nat): (m: seq<Stat>)
    ensures |m| == |left|
  {
    if left == [] then []
    else
      var k := |left| - 1;
      MergeLeft(left[..k], right, rightMinimum) +
      [Stat(left[k].uri, left[k].estimated + Estimate(right, rightMinimum, left[k].uri),
            left[k].error + ErrorOf(right, rightMinimum, left[k].uri))]
  }

  function MergeRight(left: seq<Stat>, right: seq<Stat>, leftMinimum: nat): seq<Stat>
  {
    if right == [] then []
    else
      var k := |right| - 1;
      MergeRight(left, right[..k], leftMinimum) +
      (if Find(left, right[k].uri).Some? then []
       else [Stat(right[k].uri, right[k].estimated + leftMinimum, right[k].error + leftMinimum)])
  }

  function Combined(left: seq<Stat>, right: seq<Stat>, capacity: nat): seq<Stat>
  {
    MergeLeft(left, right, MinimumCount(right, capacity)) + MergeRight(left, right, MinimumCount(left, capacity))
  }

  /** Byte-wise order of URIs. */
  predicate UriBefore(a: Uri, b: Uri)
  {
    a == [] || (b != [] && (a[0] < b[0] || (a[0] == b[0] && UriBefore(a[1..], b[1..]))))
  }

  /** Larger estimates first, then smaller URIs. */
  predicate Ahead(a: Stat, b: Stat)
  {
    b.estimated < a.estimated || (a.estimated == b.estimated && UriBefore(a.uri, b.uri))
  }

  lemma {:induction false} UriOrderTotal(a: Uri, b: Uri)
    ensures UriBefore(a, b) || UriBefore(b, a)
  {
    if a != [] && b != [] && a[0] == b[0] { UriOrderTotal(a[1..], b[1..]); }
  }

  lemma {:induction false} UriOrderTransitive(a: Uri, b: Uri, c: Uri)
    requires UriBefore(a, b) && UriBefore(b, c)
    ensures UriBefore(a, c)
  {
    if a != [] && a[0] == b[0] == c[0] { UriOrderTransitive(a[1..], b[1..], c[1..]); }
  }

  function Place(sorted: seq<Stat>, e: Stat): seq<Stat>
  {
    if sorted == [] || Ahead(e, sorted[0]) then [e] + sorted else [sorted[0]] + Place(sorted[1..], e)
  }

  function SortStats(entries: seq<Stat>): seq<Stat>
  {
    if entries == [] then [] else Place(SortStats(entries[1..]), entries[0])
  }

  predicate InOrder(s: seq<Stat>)
  {
    forall i, j :: 0 <= i < j < |s| ==> Ahead(s[i], s[j])
  }

  lemma {:induction false} PlaceKeepsOrder(sorted: seq<Stat>, e: Stat)
    requires InOrder(sorted)
    ensures InOrder(Place(sorted, e)) && multiset(Place(sorted, e)) == multiset(sorted) + multiset{e}
  {
    if sorted != [] {
      assert sorted == [sorted[0]] + sorted[1..];
      UriOrderTotal(e.uri, sorted[0].uri);
      if Ahead(e, sorted[0]) {
        forall i | 0 <= i < |sorted| ensures Ahead(e, sorted[i]) {
          if 0 < i && e.estimated == sorted[0].estimated == sorted[i].estimated {
            UriOrderTransitive(e.uri, sorted[0].uri, sorted[i].uri);
          }
        }
      } else {
        PlaceKeepsOrder(sorted[1..], e);
        var rest := Place(sorted[1..], e);
        forall x | x in rest ensures Ahead(sorted[0], x) {
          assert x in multiset(rest);
          assert x in sorted[1..] || x == e;
        }
      }
    }
  }

  /** Sorting orders the entries and keeps exactly them. */
  lemma {:induction false} SortIsSorted(entries: seq<Stat>)
    ensures InOrder(SortStats(entries)) && multiset(SortStats(entries)) == multiset(entries)
  {
    if entries != [] {
      assert entries == [entries[0]] + entries[1..];
      SortIsSorted(entries[1..]);
      PlaceKeepsOrder(SortStats(entries[1..]), entries[0]);
    }
  }

  function Truncate(s: seq<Stat>, capacity: nat): seq<Stat>
  {
    if |s| <= capacity then s else s[..capacity]
  }

  function MergeEntries(left: seq<Stat>, right: seq<Stat>, capacity: nat): seq<Stat>
  {
    Truncate(SortStats(Combined(left, right, capacity)), capacity)
  }

  // ----- histories -----

  /** How a sketch came about: any tree of recordings and merges. */
  datatype History = Empty | Recorded(before: History, uri: Uri) | Merged(left: History, right: History)

  /** The true number of requests for a URI. */
  function Count(h: History, uri: Uri): nat
  {
    match h
    case Empty => 0
    case Recorded(before, u) => Count(before, uri) + if u == uri then 1 else 0
    case Merged(left, right) => Count(left, uri) + Count(right, uri)
  }

  function Total(h: History): nat
  {
    match h
    case Empty => 0
    case Recorded(before, _) => Total(before) + 1
    case Merged(left, right) => Total(left) + Total(right)
  }

  /** The entries of the sketch with that history. */
  function Sketch(h: History, capacity: nat): seq<Stat>
    requires 0 < capacity
  {
    match h
    case Empty => []
    case Recorded(before, uri) => Record(Sketch(before, capacity), capacity, uri)
    case Merged(left, right) => MergeEntries(Sketch(left, capacity), Sketch(right, capacity), capacity)
  }

  function EstimatedOf(e: Stat): int { e.estimated }

  /** The one-sided error bounds for a URI that was requested `count` times. */
  predicate Tight(entries: seq<Stat>, minimum: nat, uri: Uri, count: nat)
  {
    count <= Estimate(entries, minimum, uri) <= count + ErrorOf(entries, minimum, uri)
  }

  ghost predicate AllTight(entries: seq<Stat>, minimum: nat, h: History)
  {
    forall uri :: Tight(entries, minimum, uri, Count(h, uri))
  }

  /** What the entries promise about the true counts of a history. */
  ghost predicate Sound(entries: seq<Stat>, h: History, capacity: nat)
  {
    var minimum := MinimumCount(entries, capacity);
    && Unique(entries) && |entries| <= capacity
    && AllTight(entries, minimum, h)
    && (forall i :: 0 <= i < |entries| ==> entries[i].error <= minimum)
    && Sum(entries, EstimatedOf) <= Total(h)
  }
}
