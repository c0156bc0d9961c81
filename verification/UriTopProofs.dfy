/** The error bounds and the heavy-hitter guarantee of the URI sketch, for every tree of recordings and merges. */
module UriTopProofs {
  import opened Prelude
  import opened Arithmetic
  import opened UriTops

  // ----- looking entries up -----

  lemma FindUnique(entries: seq<Stat>, k: nat)
    requires Unique(entries) && k < |entries|
    ensures Find(entries, entries[k].uri) == Some(k)
  {
  }

  lemma MinimumGrows(a: seq<Stat>, b: seq<Stat>, capacity: nat)
    requires |a| <= |b| && (|a| < capacity || |a| == |b|) && |b| <= capacity
    requires |a| == |b| ==> forall i :: 0 <= i < |a| ==> a[i].estimated <= b[i].estimated || MinimumCount(a, capacity) <= b[i].estimated
    ensures MinimumCount(a, capacity) <= MinimumCount(b, capacity)
  {
  }

  // ----- recording -----

  /** Entries with the same URIs in the same places are found in the same places. */
  lemma {:induction false} FindSame(a: seq<Stat>, b: seq<Stat>, uri: Uri)
    requires |a| == |b| && forall i :: 0 <= i < |a| ==> a[i].uri == b[i].uri
    ensures Find(a, uri) == Find(b, uri)
  {
    if a != [] { FindSame(a[1..], b[1..], uri); }
  }

  lemma {:induction false} FindAppended(entries: seq<Stat>, e: Stat, uri: Uri)
    ensures Find(entries + [e], uri) ==
            if Find(entries, uri).Some? then Find(entries, uri)
            else if e.uri == uri then Some(|entries|) else None
  {
    if entries == [] {
      assert entries + [e] == [e];
    } else {
      assert (entries + [e])[1..] == entries[1..] + [e];
      FindAppended(entries[1..], e, uri);
    }
  }

  /** Replacing an entry by one for a new URI forgets the old URI and leaves the others in place. */
  lemma {:induction false} FindReplaced(entries: seq<Stat>, k: nat, e: Stat, uri: Uri)
    requires k < |entries| && Unique(entries) && Find(entries, e.uri).None?
    ensures Find(entries[k := e], uri) ==
            if uri == e.uri then Some(k) else if uri == entries[k].uri then None else Find(entries, uri)
  {
    if k == 0 {
      assert entries[k := e][1..] == entries[1..];
    } else {
      assert entries[k := e][1..] == entries[1..][k - 1 := e];
      FindReplaced(entries[1..], k - 1, e, uri);
    }
  }

  lemma TrackedIsTight(entries: seq<Stat>, k: nat, m: nat, next: nat, uri: Uri, count: nat)
    requires k < |entries| && Unique(entries) && m <= next && Tight(entries, m, uri, count)
    ensures var e := entries[k];
            Tight(entries[k := Stat(e.uri, e.estimated + 1, e.error)], next, uri,
                  count + if uri == e.uri then 1 else 0)
  {
    var e := entries[k];
    FindSame(entries, entries[k := Stat(e.uri, e.estimated + 1, e.error)], uri);
    FindUnique(entries, k);
  }

  lemma NewIsTight(entries: seq<Stat>, e: Stat, next: nat, uri: Uri, count: nat)
    requires Find(entries, e.uri).None? && e.estimated == 1 && e.error == 0 && Tight(entries, 0, uri, count)
    ensures Tight(entries + [e], next, uri, count + if uri == e.uri then 1 else 0)
  {
    FindAppended(entries, e, uri);
  }

  lemma EvictingIsTight(entries: seq<Stat>, k: nat, e: Stat, next: nat, uri: Uri, count: nat)
    requires k < |entries| && Unique(entries) && Find(entries, e.uri).None?
    requires e.estimated == entries[k].estimated + 1 && e.error == entries[k].estimated
    requires entries[k].estimated <= next && Tight(entries, entries[k].estimated, uri, count)
    ensures Tight(entries[k := e], next, uri, count + if uri == e.uri then 1 else 0)
  {
    FindReplaced(entries, k, e, uri);
    FindUnique(entries, k);
  }

  /** Everything but the bounds, after one more request for a tracked URI. */
  lemma RaisedEntries(entries: seq<Stat>, capacity: nat, k: nat, next: seq<Stat>)
    requires Unique(entries) && |entries| <= capacity && k < |entries|
    requires next == entries[k := Stat(entries[k].uri, entries[k].estimated + 1, entries[k].error)]
    requires forall i :: 0 <= i < |entries| ==> entries[i].error <= MinimumCount(entries, capacity)
    ensures Unique(next) && |next| <= capacity && Sum(next, EstimatedOf) == Sum(entries, EstimatedOf) + 1
    ensures MinimumCount(entries, capacity) <= MinimumCount(next, capacity)
    ensures forall i :: 0 <= i < |next| ==> next[i].error <= MinimumCount(next, capacity)
  {
    MinimumGrows(entries, next, capacity);
    SumUpdate(entries, k, next[k], EstimatedOf);
    RenewedUnique(entries, k, next[k]);
  }

  lemma RecordTracked(entries: seq<Stat>, h: History, capacity: nat, uri: Uri, next: seq<Stat>)
    requires Sound(entries, h, capacity) && Find(entries, uri).Some? && 0 < capacity
    requires next == Record(entries, capacity, uri)
    ensures Sound(next, Recorded(h, uri), capacity)
  {
    var k := Find(entries, uri).value;
    RaisedEntries(entries, capacity, k, next);
    RaisedAreTight(entries, MinimumCount(entries, capacity), h, k, next, MinimumCount(next, capacity));
  }

  lemma RaisedAreTight(entries: seq<Stat>, m: nat, h: History, k: nat, next: seq<Stat>, n: nat)
    requires AllTight(entries, m, h) && Unique(entries) && k < |entries| && m <= n
    requires next == entries[k := Stat(entries[k].uri, entries[k].estimated + 1, entries[k].error)]
    ensures AllTight(next, n, Recorded(h, entries[k].uri))
  {
    var after := Recorded(h, entries[k].uri);
    forall u ensures Tight(next, n, u, Count(after, u)) {
      assert Tight(entries, m, u, Count(h, u));
      TrackedIsTight(entries, k, m, n, u, Count(h, u));
    }
  }

  lemma RecordNew(entries: seq<Stat>, h: History, capacity: nat, uri: Uri, next: seq<Stat>)
    requires Sound(entries, h, capacity) && Find(entries, uri).None? && |entries| < capacity
    requires next == Record(entries, capacity, uri)
    ensures Sound(next, Recorded(h, uri), capacity)
  {
    var e := Stat(uri, 1, 0);
    var n := MinimumCount(next, capacity);
    SumAppend(entries, e, EstimatedOf);
    forall u ensures Tight(next, n, u, Count(Recorded(h, uri), u)) {
      NewIsTight(entries, e, n, u, Count(h, u));
    }
  }

  lemma RecordEvicting(entries: seq<Stat>, h: History, capacity: nat, uri: Uri, next: seq<Stat>)
    requires Sound(entries, h, capacity) && Find(entries, uri).None? && |entries| == capacity && 0 < capacity
    requires next == Record(entries, capacity, uri)
    ensures Sound(next, Recorded(h, uri), capacity)
  {
    var k := Smallest(entries);
    var e := next[k];
    var n := MinimumCount(next, capacity);
    MinimumGrows(entries, next, capacity);
    SumUpdate(entries, k, e, EstimatedOf);
    ReplacedUnique(entries, k, e);
    forall u ensures Tight(next, n, u, Count(Recorded(h, uri), u)) {
      EvictingIsTight(entries, k, e, n, u, Count(h, u));
    }
  }

  lemma RenewedUnique(entries: seq<Stat>, k: nat, e: Stat)
    requires Unique(entries) && k < |entries| && entries[k].uri == e.uri
    ensures Unique(entries[k := e])
  {
  }

  lemma ReplacedUnique(entries: seq<Stat>, k: nat, e: Stat)
    requires Unique(entries) && k < |entries| && Find(entries, e.uri).None?
    ensures Unique(entries[k := e])
  {
  }

  lemma RecordKeepsSound(entries: seq<Stat>, h: History, capacity: nat, uri: Uri)
    requires Sound(entries, h, capacity) && 0 < capacity
    ensures Sound(Record(entries, capacity, uri), Recorded(h, uri), capacity)
  {
    var next := Record(entries, capacity, uri);
    if Find(entries, uri).Some? {
      RecordTracked(entries, h, capacity, uri, next);
    } else if |entries| < capacity {
      RecordNew(entries, h, capacity, uri, next);
    } else {
      RecordEvicting(entries, h, capacity, uri, next);
    }
  }

  // ----- merging: the combined entries -----

  lemma {:induction false} MergeLeftAt(left: seq<Stat>, right: seq<Stat>, minimum: nat, i: nat)
    requires i < |left|
    ensures MergeLeft(left, right, minimum)[i] ==
            Stat(left[i].uri, left[i].estimated + Estimate(right, minimum, left[i].uri),
                 left[i].error + ErrorOf(right, minimum, left[i].uri))
  {
    if i < |left| - 1 {
      MergeLeftAt(left[..|left| - 1], right, minimum, i);
    }
  }

  /** Each entry taken over from the right is a right entry unknown on the left. */
  lemma {:induction false} MergeRightAt(left: seq<Stat>, right: seq<Stat>, minimum: nat, i: nat) returns (j: nat)
    requires i < |MergeRight(left, right, minimum)|
    ensures j < |right| && Find(left, right[j].uri).None?
    ensures MergeRight(left, right, minimum)[i] ==
            Stat(right[j].uri, right[j].estimated + minimum, right[j].error + minimum)
  {
    var k := |right| - 1;
    if i < |MergeRight(left, right[..k], minimum)| {
      j := MergeRightAt(left, right[..k], minimum, i);
    } else {
      j := k;
    }
  }

  lemma {:induction false} MergeRightHas(left: seq<Stat>, right: seq<Stat>, minimum: nat, j: nat) returns (i: nat)
    requires j < |right| && Find(left, right[j].uri).None?
    ensures i < |MergeRight(left, right, minimum)| && MergeRight(left, right, minimum)[i].uri == right[j].uri
  {
    var k := |right| - 1;
    if j < k {
      i := MergeRightHas(left, right[..k], minimum, j);
    } else {
      i := |MergeRight(left, right[..k], minimum)|;
    }
  }

  lemma {:induction false} MergeRightUnique(left: seq<Stat>, right: seq<Stat>, minimum: nat)
    requires Unique(right)
    ensures Unique(MergeRight(left, right, minimum))
  {
    if right != [] {
      var k := |right| - 1;
      MergeRightUnique(left, right[..k], minimum);
      forall i | 0 <= i < |MergeRight(left, right[..k], minimum)|
        ensures MergeRight(left, right[..k], minimum)[i].uri != right[k].uri
      {
        var j := MergeRightAt(left, right[..k], minimum, i);
      }
    }
  }

  /** A combined entry adds up what both sketches say of its URI. */
  ghost predicate AddsUp(e: Stat, left: seq<Stat>, right: seq<Stat>, capacity: nat)
  {
    var ml, mr := MinimumCount(left, capacity), MinimumCount(right, capacity);
    && e.estimated == Estimate(left, ml, e.uri) + Estimate(right, mr, e.uri)
    && e.error == ErrorOf(left, ml, e.uri) + ErrorOf(right, mr, e.uri)
  }

  lemma CombinedEntry(left: seq<Stat>, right: seq<Stat>, capacity: nat, i: nat)
    requires Unique(left) && Unique(right) && i < |Combined(left, right, capacity)|
    ensures AddsUp(Combined(left, right, capacity)[i], left, right, capacity)
  {
    var ml, mr := MinimumCount(left, capacity), MinimumCount(right, capacity);
    if i < |left| {
      MergeLeftAt(left, right, mr, i);
      FindUnique(left, i);
    } else {
      var j := MergeRightAt(left, right, ml, i - |left|);
      FindUnique(right, j);
    }
  }

  lemma CombinedUnique(left: seq<Stat>, right: seq<Stat>, capacity: nat)
    requires Unique(left) && Unique(right)
    ensures Unique(Combined(left, right, capacity))
  {
    var ml, mr := MinimumCount(left, capacity), MinimumCount(right, capacity);
    var a, b := MergeLeft(left, right, mr), MergeRight(left, right, ml);
    MergeRightUnique(left, right, ml);
    var all: seq<Stat> := a + b;
    forall i, j | 0 <= i < j < |all| ensures all[i].uri != all[j].uri {
      if i < |a| { MergeLeftAt(left, right, mr, i); }
      if j < |a| {
        MergeLeftAt(left, right, mr, j);
      } else {
        var k := MergeRightAt(left, right, ml, j - |a|);
      }
    }
  }

  /** The combined entries track exactly the URIs that either sketch tracks. */
  lemma CombinedTracks(left: seq<Stat>, right: seq<Stat>, capacity: nat, uri: Uri)
    ensures Find(left, uri).Some? || Find(right, uri).Some? ==> Find(Combined(left, right, capacity), uri).Some?
  {
    var ml, mr := MinimumCount(left, capacity), MinimumCount(right, capacity);
    var m := Combined(left, right, capacity);
    var f, g := Find(left, uri), Find(right, uri);
    if f.Some? {
      MergeLeftAt(left, right, mr, f.value);
      assert m[f.value].uri == uri;
    } else if g.Some? {
      var i := MergeRightHas(left, right, ml, g.value);
      assert m[|left| + i].uri == uri;
    }
  }

  function Uris(entries: seq<Stat>): set<Uri>
  {
    if entries == [] then {} else Uris(entries[..|entries| - 1]) + {entries[|entries| - 1].uri}
  }

  lemma {:induction false} UrisTracked(entries: seq<Stat>, u: Uri)
    ensures u in Uris(entries) <==> Find(entries, u).Some?
  {
    if entries != [] {
      var init, last := entries[..|entries| - 1], entries[|entries| - 1];
      UrisTracked(init, u);
      assert entries == init + [last];
      FindAppended(init, last, u);
    }
  }

  lemma {:induction false} UrisCounted(entries: seq<Stat>)
    requires Unique(entries)
    ensures |Uris(entries)| == |entries|
  {
    if entries != [] {
      var init, last := entries[..|entries| - 1], entries[|entries| - 1];
      UrisCounted(init);
      UrisTracked(init, last.uri);
    }
  }

  lemma {:induction false} SubsetSize(a: set<Uri>, b: set<Uri>)
    requires a <= b
    ensures |a| <= |b|
  {
    if a != {} {
      var x :| x in a;
      SubsetSize(a - {x}, b - {x});
    }
  }

  lemma CombinedIsLarger(left: seq<Stat>, right: seq<Stat>, capacity: nat)
    requires Unique(left) && Unique(right)
    ensures |left| <= |Combined(left, right, capacity)| && |right| <= |Combined(left, right, capacity)|
  {
    var m := Combined(left, right, capacity);
    CombinedUnique(left, right, capacity);
    UrisCounted(right);
    UrisCounted(m);
    forall u | u in Uris(right) ensures u in Uris(m) {
      UrisTracked(right, u);
      CombinedTracks(left, right, capacity, u);
      UrisTracked(m, u);
    }
    SubsetSize(Uris(right), Uris(m));
  }

  // ----- merging: sorting and truncating -----

  lemma {:induction false} PlaceKeepsUnique(sorted: seq<Stat>, e: Stat)
    requires Unique(sorted) && Find(sorted, e.uri).None?
    ensures Unique(Place(sorted, e))
    ensures forall x :: x in Place(sorted, e) <==> x == e || x in sorted
  {
    if sorted != [] && !Ahead(e, sorted[0]) {
      PlaceKeepsUnique(sorted[1..], e);
      var rest := Place(sorted[1..], e);
      assert sorted == [sorted[0]] + sorted[1..];
      forall i | 0 <= i < |rest| ensures rest[i].uri != sorted[0].uri {
        assert rest[i] in rest;
      }
    }
  }

  lemma {:induction false} SortKeepsUnique(entries: seq<Stat>)
    requires Unique(entries)
    ensures Unique(SortStats(entries)) && |SortStats(entries)| == |entries|
    ensures forall x :: x in SortStats(entries) <==> x in entries
  {
    if entries != [] {
      var rest := SortStats(entries[1..]);
      SortKeepsUnique(entries[1..]);
      assert entries == [entries[0]] + entries[1..];
      forall i | 0 <= i < |rest| ensures rest[i].uri != entries[0].uri {
        assert rest[i] in entries[1..];
      }
      PlaceKeepsUnique(rest, entries[0]);
      SortIsSorted(entries);
      assert |multiset(SortStats(entries))| == |multiset(entries)|;
    }
  }

  // ----- merging: the bounds -----

  /** What a sketch says in total about the URIs of some entries. */
  function SaidOf(kept: seq<Stat>, entries: seq<Stat>, minimum: nat): nat
  {
    if kept == [] then 0 else Estimate(entries, minimum, kept[0].uri) + SaidOf(kept[1..], entries, minimum)
  }

  function Without(entries: seq<Stat>, j: nat): seq<Stat>
    requires j < |entries|
  {
    entries[..j] + entries[j + 1..]
  }

  lemma {:induction false} FindWithout(entries: seq<Stat>, j: nat, m: nat, uri: Uri)
    requires j < |entries| && entries[j].uri != uri
    ensures Estimate(Without(entries, j), m, uri) == Estimate(entries, m, uri)
  {
    var rest := Without(entries, j);
    if j == 0 {
      assert rest == entries[1..];
    } else {
      FindWithout(entries[1..], j - 1, m, uri);
      assert rest[0] == entries[0] && rest[1..] == Without(entries[1..], j - 1);
      EstimateNext(rest, m, uri);
    }
    EstimateNext(entries, m, uri);
  }

  lemma EstimateNext(entries: seq<Stat>, m: nat, uri: Uri)
    requires entries != []
    ensures Estimate(entries, m, uri) ==
            if entries[0].uri == uri then entries[0].estimated else Estimate(entries[1..], m, uri)
  {
  }

  lemma {:induction false} SaidWithout(kept: seq<Stat>, entries: seq<Stat>, minimum: nat, j: nat)
    requires j < |entries| && forall i :: 0 <= i < |kept| ==> kept[i].uri != entries[j].uri
    ensures SaidOf(kept, Without(entries, j), minimum) == SaidOf(kept, entries, minimum)
  {
    if kept != [] {
      FindWithout(entries, j, minimum, kept[0].uri);
      SaidWithout(kept[1..], entries, minimum, j);
    }
  }

  lemma {:induction false} SumWithout(entries: seq<Stat>, j: nat)
    requires j < |entries|
    ensures Sum(Without(entries, j), EstimatedOf) + entries[j].estimated == Sum(entries, EstimatedOf)
  {
    if j == 0 {
      assert Without(entries, 0) == entries[1..];
    } else {
      WithoutTail(entries, j);
      SumWithout(entries[1..], j - 1);
    }
  }

  lemma WithoutTail(entries: seq<Stat>, j: nat)
    requires 0 < j < |entries|
    ensures Without(entries, j) != [] && Without(entries, j)[0] == entries[0]
    ensures Without(entries, j)[1..] == Without(entries[1..], j - 1)
  {
  }

  lemma {:induction false} SumAtLeast(entries: seq<Stat>, minimum: nat)
    requires forall i :: 0 <= i < |entries| ==> minimum <= entries[i].estimated
    ensures |entries| * minimum <= Sum(entries, EstimatedOf)
  {
    if entries != [] {
      SumAtLeast(entries[1..], minimum);
      assert |entries| * minimum == |entries[1..]| * minimum + minimum;
    }
  }

  lemma WithoutUnique(entries: seq<Stat>, j: nat)
    requires Unique(entries) && j < |entries|
    ensures Unique(Without(entries, j))
  {
  }

  /** Distinct URIs draw on distinct entries, and every URI drawn beyond the entries costs the minimum. */
  lemma {:induction false} SaidIsCovered(kept: seq<Stat>, entries: seq<Stat>, minimum: nat)
    requires Unique(kept) && Unique(entries)
    requires forall i :: 0 <= i < |entries| ==> minimum <= entries[i].estimated
    ensures SaidOf(kept, entries, minimum) + |entries| * minimum <= Sum(entries, EstimatedOf) + |kept| * minimum
  {
    if kept == [] {
      SumAtLeast(entries, minimum);
    } else {
      MulNext(|kept| - 1, minimum);
      var f := Find(entries, kept[0].uri);
      if f.Some? {
        MulNext(|entries| - 1, minimum);
        WithoutUnique(entries, f.value);
        SaidWithout(kept[1..], entries, minimum, f.value);
        SumWithout(entries, f.value);
        SaidIsCovered(kept[1..], Without(entries, f.value), minimum);
      } else {
        SaidIsCovered(kept[1..], entries, minimum);
      }
    }
  }

  /** A sketch speaks of at most `capacity` URIs for no more than the sum of its own estimates. */
  lemma SaidIsBounded(kept: seq<Stat>, entries: seq<Stat>, capacity: nat)
    requires Unique(kept) && Unique(entries) && |kept| <= capacity
    ensures SaidOf(kept, entries, MinimumCount(entries, capacity)) <= Sum(entries, EstimatedOf)
  {
    var m := MinimumCount(entries, capacity);
    SaidIsCovered(kept, entries, m);
    if 0 < m { MulMonotone(|kept|, |entries|, m); }
  }

  lemma {:induction false} SumIsSaid(kept: seq<Stat>, left: seq<Stat>, right: seq<Stat>, capacity: nat)
    requires forall i :: 0 <= i < |kept| ==> AddsUp(kept[i], left, right, capacity)
    ensures Sum(kept, EstimatedOf) ==
            SaidOf(kept, left, MinimumCount(left, capacity)) + SaidOf(kept, right, MinimumCount(right, capacity))
  {
    if kept != [] {
      SumIsSaid(kept[1..], left, right, capacity);
    }
  }

  /** The entries that survive a merge are combined entries, and what is dropped is no larger than any of them. */
  lemma KeptEntries(all: seq<Stat>, capacity: nat, kept: seq<Stat>)
    requires Unique(all) && kept == Truncate(SortStats(all), capacity)
    ensures Unique(kept) && |kept| == Min(|all|, capacity)
    ensures forall i :: 0 <= i < |kept| ==> kept[i] in all
    ensures forall x, i :: x in all && x !in kept && 0 <= i < |kept| ==> x.estimated <= kept[i].estimated
  {
    var sorted := SortStats(all);
    SortKeepsUnique(all);
    SortIsSorted(all);
    forall i | 0 <= i < |kept| ensures kept[i] in all { assert kept[i] == sorted[i]; }
    forall x, i | x in all && x !in kept && 0 <= i < |kept| ensures x.estimated <= kept[i].estimated {
      assert x in sorted;
      assert Ahead(sorted[i], x);
    }
  }

  /** All entries of the merged sketch add up, and every URI known to either side is kept or cheap. */
  lemma MergedEntries(left: seq<Stat>, right: seq<Stat>, capacity: nat, kept: seq<Stat>)
    requires Unique(left) && Unique(right) && |left| <= capacity && |right| <= capacity
    requires kept == MergeEntries(left, right, capacity)
    ensures Unique(kept) && |kept| <= capacity
    ensures forall i :: 0 <= i < |kept| ==> AddsUp(kept[i], left, right, capacity)
    ensures |kept| < capacity ==> |left| <= |kept| && |right| <= |kept|
  {
    var all := Combined(left, right, capacity);
    CombinedUnique(left, right, capacity);
    CombinedIsLarger(left, right, capacity);
    KeptEntries(all, capacity, kept);
    forall i | 0 <= i < |kept| ensures AddsUp(kept[i], left, right, capacity) {
      var j :| 0 <= j < |all| && all[j] == kept[i];
      CombinedEntry(left, right, capacity, j);
    }
  }

  /** A URI that the merged sketch does not track has an estimate of at most every kept one. */
  lemma DroppedIsSmall(left: seq<Stat>, right: seq<Stat>, capacity: nat, kept: seq<Stat>, uri: Uri)
    requires Unique(left) && Unique(right) && |left| <= capacity && |right| <= capacity
    requires kept == MergeEntries(left, right, capacity) && Find(kept, uri).None?
    requires Find(left, uri).Some? || Find(right, uri).Some?
    ensures |kept| == capacity
    ensures forall i :: 0 <= i < |kept| ==>
              Estimate(left, MinimumCount(left, capacity), uri) + Estimate(right, MinimumCount(right, capacity), uri)
              <= kept[i].estimated
  {
    var all := Combined(left, right, capacity);
    CombinedUnique(left, right, capacity);
    KeptEntries(all, capacity, kept);
    CombinedTracks(left, right, capacity, uri);
    var j := Find(all, uri).value;
    CombinedEntry(left, right, capacity, j);
    assert all[j] in all && all[j] !in kept;
    SortKeepsUnique(all);
    assert all[j] in SortStats(all);
  }

  /** The bound on untracked URIs never shrinks in a merge. */
  lemma MergedMinimum(left: seq<Stat>, right: seq<Stat>, capacity: nat, kept: seq<Stat>)
    requires Unique(left) && Unique(right) && |left| <= capacity && |right| <= capacity
    requires kept == MergeEntries(left, right, capacity)
    ensures MinimumCount(left, capacity) + MinimumCount(right, capacity) <= MinimumCount(kept, capacity)
  {
    MergedEntries(left, right, capacity, kept);
    if 0 < |kept| == capacity {
      var k := Smallest(kept);
      assert AddsUp(kept[k], left, right, capacity);
      EstimateAtLeast(left, capacity, kept[k].uri);
      EstimateAtLeast(right, capacity, kept[k].uri);
    }
  }

  lemma EstimateAtLeast(entries: seq<Stat>, capacity: nat, uri: Uri)
    ensures MinimumCount(entries, capacity) <= Estimate(entries, MinimumCount(entries, capacity), uri)
  {
  }

  lemma MergedIsTight(left: seq<Stat>, right: seq<Stat>, capacity: nat, kept: seq<Stat>, uri: Uri, l: nat, r: nat)
    requires Unique(left) && Unique(right) && |left| <= capacity && |right| <= capacity && 0 < capacity
    requires kept == MergeEntries(left, right, capacity)
    requires Tight(left, MinimumCount(left, capacity), uri, l) && Tight(right, MinimumCount(right, capacity), uri, r)
    ensures Tight(kept, MinimumCount(kept, capacity), uri, l + r)
  {
    MergedEntries(left, right, capacity, kept);
    var f := Find(kept, uri);
    if f.Some? {
      assert AddsUp(kept[f.value], left, right, capacity);
    } else if Find(left, uri).Some? || Find(right, uri).Some? {
      DroppedIsSmall(left, right, capacity, kept, uri);
    } else {
      MergedMinimum(left, right, capacity, kept);
    }
  }

  lemma MergedErrors(left: seq<Stat>, right: seq<Stat>, capacity: nat, kept: seq<Stat>)
    requires Unique(left) && Unique(right) && |left| <= capacity && |right| <= capacity
    requires kept == MergeEntries(left, right, capacity)
    requires forall i :: 0 <= i < |left| ==> left[i].error <= MinimumCount(left, capacity)
    requires forall i :: 0 <= i < |right| ==> right[i].error <= MinimumCount(right, capacity)
    ensures forall i :: 0 <= i < |kept| ==> kept[i].error <= MinimumCount(kept, capacity)
  {
    MergedEntries(left, right, capacity, kept);
    MergedMinimum(left, right, capacity, kept);
    forall i | 0 <= i < |kept| ensures kept[i].error <= MinimumCount(kept, capacity) {
      assert AddsUp(kept[i], left, right, capacity);
    }
  }

  lemma MergedSum(left: seq<Stat>, right: seq<Stat>, capacity: nat, kept: seq<Stat>)
    requires Unique(left) && Unique(right) && |left| <= capacity && |right| <= capacity
    requires kept == MergeEntries(left, right, capacity)
    ensures Sum(kept, EstimatedOf) <= Sum(left, EstimatedOf) + Sum(right, EstimatedOf)
  {
    MergedEntries(left, right, capacity, kept);
    SumIsSaid(kept, left, right, capacity);
    SaidIsBounded(kept, left, capacity);
    SaidIsBounded(kept, right, capacity);
  }

  lemma MergeKeepsSound(left: seq<Stat>, a: History, right: seq<Stat>, b: History, capacity: nat)
    requires Sound(left, a, capacity) && Sound(right, b, capacity) && 0 < capacity
    ensures Sound(MergeEntries(left, right, capacity), Merged(a, b), capacity)
  {
    var kept := MergeEntries(left, right, capacity);
    MergedEntries(left, right, capacity, kept);
    MergedErrors(left, right, capacity, kept);
    MergedSum(left, right, capacity, kept);
    forall uri ensures Tight(kept, MinimumCount(kept, capacity), uri, Count(Merged(a, b), uri)) {
      MergedIsTight(left, right, capacity, kept, uri, Count(a, uri), Count(b, uri));
    }
  }

  // ----- the guarantees -----

  /** After any tree of recordings and equal-capacity merges the sketch keeps all its promises. */
  lemma {:induction false} SketchIsSound(h: History, capacity: nat)
    requires 0 < capacity
    ensures Sound(Sketch(h, capacity), h, capacity)
  {
    match h
    case Empty => EmptyIsSound(capacity);
    case Recorded(before, uri) =>
      SketchIsSound(before, capacity);
      RecordKeepsSound(Sketch(before, capacity), before, capacity, uri);
    case Merged(left, right) =>
      SketchIsSound(left, capacity);
      SketchIsSound(right, capacity);
      MergeKeepsSound(Sketch(left, capacity), left, Sketch(right, capacity), right, capacity);
  }

  lemma EmptyIsSound(capacity: nat)
    requires 0 < capacity
    ensures Sound([], Empty, capacity)
  {
  }

  /** The one-sided bounds: tracked URIs are bracketed, untracked ones were seen at most `minimum_count` times. */
  lemma SketchBounds(h: History, capacity: nat, uri: Uri)
    requires 0 < capacity
    ensures var entries := Sketch(h, capacity);
            var minimum := MinimumCount(entries, capacity);
            && |entries| <= capacity
            && (forall i, j :: 0 <= i < j < |entries| ==> entries[i].uri != entries[j].uri)
            && (forall i :: 0 <= i < |entries| && entries[i].uri == uri ==>
                  entries[i].estimated - entries[i].error <= Count(h, uri) <= entries[i].estimated)
            && ((forall i :: 0 <= i < |entries| ==> entries[i].uri != uri) ==> Count(h, uri) <= minimum)
  {
    SketchIsSound(h, capacity);
    var entries := Sketch(h, capacity);
    assert Tight(entries, MinimumCount(entries, capacity), uri, Count(h, uri));
    forall i | 0 <= i < |entries| && entries[i].uri == uri ensures Find(entries, uri) == Some(i) {
      FindUnique(entries, i);
    }
  }

  lemma MinimumIsShare(entries: seq<Stat>, capacity: nat)
    requires |entries| <= capacity
    ensures capacity * MinimumCount(entries, capacity) <= Sum(entries, EstimatedOf)
  {
    SumAtLeast(entries, MinimumCount(entries, capacity));
    SumAtLeast(entries, 0);
  }

  /** Every URI with more than a `capacity`-th of all requests is tracked, whatever was merged and truncated. */
  lemma HeavyHittersSurvive(h: History, capacity: nat, uri: Uri)
    requires 0 < capacity
    ensures var entries := Sketch(h, capacity);
            var minimum := MinimumCount(entries, capacity);
            && Sum(entries, EstimatedOf) <= Total(h)
            && capacity * minimum <= Total(h)
            && (forall i :: 0 <= i < |entries| ==> entries[i].error <= minimum)
            && (capacity * Count(h, uri) > Total(h) ==> exists i :: 0 <= i < |entries| && entries[i].uri == uri)
  {
    SketchIsSound(h, capacity);
    var entries := Sketch(h, capacity);
    var minimum := MinimumCount(entries, capacity);
    MinimumIsShare(entries, capacity);
    assert Tight(entries, minimum, uri, Count(h, uri));
    if Find(entries, uri).None? {
      MulMonotone(Count(h, uri), minimum, capacity);
      assert Count(h, uri) * capacity <= minimum * capacity;
    }
  }
}
