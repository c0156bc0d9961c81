/** The sketch as an object that records and merges in place (src/metrics.rs). */
module UriTopObjects {
  import opened Prelude
  import opened UriTops
  import opened UriTopProofs

  const URI_TOP_CAPACITY: nat := 20

  class UriTop {
    const capacity: nat
    var entries: seq<Stat>
    /** Every recording and merge that led here. */
    ghost var history: History

    ghost predicate Valid()
      reads this
    {
      0 < capacity && entries == Sketch(history, capacity)
    }

    constructor (capacity: nat := URI_TOP_CAPACITY)
      requires 0 < capacity
      ensures Valid() && this.capacity == capacity && entries == [] && history == Empty
    {
      this.capacity := capacity;
      entries := [];
      history := Empty;
    }

    method RecordUri(uri: Uri)
      requires Valid()
      modifies this
      ensures Valid() && history == Recorded(old(history), uri)
    {
      var found := Find(entries, uri);
      if found.Some? {
        var e := entries[found.value];
        entries := entries[found.value := e.(estimated := e.estimated + 1)];
      } else {
        RecordWeighted(uri, 1, 0);
      }
      history := Recorded(history, uri);
    }

    method RecordWeighted(uri: Uri, count: nat, error: nat)
      requires 0 < capacity
      modifies this`entries
      ensures entries == RecordWeight(old(entries), capacity, uri, count, error)
    {
      var found := Find(entries, uri);
      if found.Some? {
        var e := entries[found.value];
        entries := entries[found.value := e.(estimated := e.estimated + count, error := e.error + error)];
        return;
      }
      if |entries| < capacity {
        entries := entries + [Stat(uri, count, error)];
        return;
      }
      var k := Smallest(entries);
      var minimum := entries[k].estimated;
      entries := entries[k := Stat(uri, minimum + count, minimum + error)];
    }

    /** The own entries, each raised by what the other sketch says of its URI. */
    method RaiseOwn(right: seq<Stat>, minimum: nat) returns (merged: seq<Stat>)
      ensures merged == MergeLeft(entries, right, minimum)
    {
      merged := [];
      var i := 0;
      while i < |entries|
        invariant i <= |entries| && merged == MergeLeft(entries[..i], right, minimum)
      {
        var e := entries[i];
        assert entries[..i + 1][..i] == entries[..i] && entries[..i + 1][i] == e;
        var found := Find(right, e.uri);
        var estimated, error := minimum, minimum;
        if found.Some? {
          estimated, error := right[found.value].estimated, right[found.value].error;
        }
        merged := merged + [Stat(e.uri, e.estimated + estimated, e.error + error)];
        i := i + 1;
      }
      assert entries[..i] == entries;
    }

    /** The other sketch's entries for URIs not tracked here. */
    method TakeOver(right: seq<Stat>, minimum: nat) returns (merged: seq<Stat>)
      ensures merged == MergeRight(entries, right, minimum)
    {
      merged := [];
      var i := 0;
      while i < |right|
        invariant i <= |right| && merged == MergeRight(entries, right[..i], minimum)
      {
        var e := right[i];
        assert right[..i + 1][..i] == right[..i] && right[..i + 1][i] == e;
        if Find(entries, e.uri).None? {
          merged := merged + [Stat(e.uri, e.estimated + minimum, e.error + minimum)];
        }
        i := i + 1;
      }
      assert right[..i] == right;
    }

    method Merge(other: UriTop)
      requires Valid() && other.Valid() && other.capacity == capacity
      modifies this
      ensures Valid() && history == Merged(old(history), old(other.history))
    {
      var selfMinimum := MinimumCount(entries, capacity);
      var otherMinimum := MinimumCount(other.entries, other.capacity);
      var own := RaiseOwn(other.entries, otherMinimum);
      var taken := TakeOver(other.entries, selfMinimum);
      history := Merged(history, other.history);
      entries := Truncate(SortStats(own + taken), capacity);
    }

    /** The entries for a report: all of them, the most requested first. */
    method Sorted() returns (top: seq<Stat>)
      requires Valid()
      ensures InOrder(top) && multiset(top) == multiset(entries)
    {
      SortIsSorted(entries);
      top := SortStats(entries);
    }
  }
}
