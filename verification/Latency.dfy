/** Latency histograms and their correction for coordinated omission (src/metrics.rs). */
module Latencies {
  import opened Prelude
  import opened Arithmetic

  const MAX_LATENCY_US: nat := 3_600_000_000
  const U64_MAX: nat := 0xFFFF_FFFF_FFFF_FFFF

  /** How a histogram buckets latencies: any bucketing whose buckets cover all latencies up to the last one's value. */
  datatype Layout = Layout(size: nat, index: nat -> nat, value: nat -> nat)

  ghost predicate Covers(l: Layout)
  {
    && l.index(MAX_LATENCY_US) < l.size
    && (forall v: nat :: v <= MAX_LATENCY_US ==> l.index(v) < l.size)
    && (forall k: nat, v: nat :: k < l.size && v <= l.value(k) ==> l.index(v) < l.size)
  }

  type Counts = seq<nat>

  datatype Latency = Latency(histogram: Option<Counts>, overflow: nat)

  const NO_LATENCY := Latency(None, 0)

  predicate Shaped(h: Latency, l: Layout)
  {
    h.histogram.Some? ==> |h.histogram.value| == l.size
  }

  /** The number of samples in one bucket. */
  function At(h: Latency, j: nat): nat
  {
    if h.histogram.Some? && j < |h.histogram.value| then h.histogram.value[j] else 0
  }

  function Itself(n: nat): int { n }

  /** The number of samples in all buckets. */
  function Samples(h: Latency): int
  {
    if h.histogram.Some? then Sum(h.histogram.value, Itself) else 0
  }

  // ----- recording and merging -----

  function Zeros(n: nat): (s: Counts)
    ensures |s| == n && forall j :: 0 <= j < n ==> s[j] == 0
  {
    seq(n, _ => 0)
  }

  /** `histogram_mut`: the histogram is allocated on first use. */
  function Allocated(h: Latency, l: Layout): Counts
  {
    if h.histogram.Some? then h.histogram.value else Zeros(l.size)
  }

  function AddAt(c: Counts, j: nat, n: nat): Counts
    requires j < |c|
  {
    c[j := c[j] + n]
  }

  function Clamp(v: nat): nat
  {
    if v < 1 then 1 else if v > MAX_LATENCY_US then MAX_LATENCY_US else v
  }

  function RecordLatency(h: Latency, l: Layout, micros: nat): Latency
    requires Shaped(h, l) && Covers(l)
  {
    var raw := if micros <= U64_MAX then micros else U64_MAX;
    Latency(Some(AddAt(Allocated(h, l), l.index(Clamp(raw)), 1)),
            h.overflow + if raw > MAX_LATENCY_US then 1 else 0)
  }

  function AddCounts(a: Counts, b: Counts): (c: Counts)
    requires |a| == |b|
    ensures |c| == |a| && forall j :: 0 <= j < |a| ==> c[j] == a[j] + b[j]
  {
    seq(|a|, j requires 0 <= j < |a| => a[j] + b[j])
  }

  function MergeLatency(a: Latency, b: Latency, l: Layout): Latency
    requires Shaped(a, l) && Shaped(b, l)
  {
    var histogram :=
      match b.histogram
      case None => a.histogram
      case Some(other) => match a.histogram case None => Some(other) case Some(own) => Some(AddCounts(own, other));
    Latency(histogram, a.overflow + b.overflow)
  }

  // ----- correction for coordinated omission -----

  /** Fill in `count` samples at `missing`, `missing - interval`, and so on, all above `interval`. */
  function Spread(c: Counts, l: Layout, missing: nat, interval: nat, count: nat): (r: Counts)
    requires 0 < interval && |c| == l.size && forall v: nat :: v <= missing ==> l.index(v) < l.size
    ensures |r| == |c|
    decreases missing
  {
    if missing <= interval then c
    else Spread(AddAt(c, l.index(missing), count), l, missing - interval, interval, count)
  }

  function Missing(value: nat, interval: nat): nat
  {
    if value <= interval then 0 else value - interval
  }

  /** Correct `c` for the first `k` buckets of the uncorrected `source`. */
  function CorrectFrom(c: Counts, source: Counts, l: Layout, interval: nat, k: nat): (r: Counts)
    requires 0 < interval && |c| == |source| == l.size && k <= l.size && Covers(l)
    ensures |r| == |c|
  {
    if k == 0 then c
    else
      var done := CorrectFrom(c, source, l, interval, k - 1);
      if source[k - 1] == 0 then done
      else Spread(done, l, Missing(l.value(k - 1), interval), interval, source[k - 1])
  }

  function Interval(micros: nat): (i: nat)
    ensures 0 < i
  {
    var us := if micros <= U64_MAX then micros else U64_MAX;
    if us < 1 then 1 else us
  }

  function CorrectLatency(h: Latency, l: Layout, expected: nat): Latency
    requires Shaped(h, l) && Covers(l)
  {
    match h.histogram
    case None => h
    case Some(source) => Latency(Some(CorrectFrom(source, source, l, Interval(expected), l.size)), h.overflow)
  }

  // ----- what a correction adds -----

  /** The values filled in for one sample. */
  function Filled(missing: nat, interval: nat): seq<nat>
    requires 0 < interval
    decreases missing
  {
    if missing <= interval then [] else [missing] + Filled(missing - interval, interval)
  }

  /** How many of some values fall into one bucket. */
  function Hits(values: seq<nat>, l: Layout, j: nat): nat
  {
    if values == [] then 0 else (if l.index(values[0]) == j then 1 else 0) + Hits(values[1..], l, j)
  }

  /** What the first `k` buckets of `source` contribute to bucket `j`. */
  function Contribution(source: Counts, l: Layout, interval: nat, k: nat, j: nat): nat
    requires 0 < interval && k <= |source|
  {
    if k == 0 then 0
    else Contribution(source, l, interval, k - 1, j) +
         source[k - 1] * Hits(Filled(Missing(l.value(k - 1), interval), interval), l, j)
  }

  lemma FilledNext(l: Layout, missing: nat, interval: nat, j: nat)
    requires 0 < interval < missing
    ensures |Filled(missing, interval)| == 1 + |Filled(missing - interval, interval)|
    ensures Hits(Filled(missing, interval), l, j) ==
            (if l.index(missing) == j then 1 else 0) + Hits(Filled(missing - interval, interval), l, j)
  {
    assert Filled(missing, interval)[1..] == Filled(missing - interval, interval);
  }

  lemma {:induction false} SpreadAt(c: Counts, l: Layout, missing: nat, interval: nat, count: nat, j: nat)
    requires 0 < interval && |c| == l.size && j < l.size && forall v: nat :: v <= missing ==> l.index(v) < l.size
    ensures Spread(c, l, missing, interval, count)[j] == c[j] + count * Hits(Filled(missing, interval), l, j)
    decreases missing
  {
    if missing > interval {
      SpreadAt(AddAt(c, l.index(missing), count), l, missing - interval, interval, count, j);
      FilledNext(l, missing, interval, j);
      MulNext(Hits(Filled(missing - interval, interval), l, j), count);
    }
  }

  lemma {:induction false} CorrectFromAt(c: Counts, source: Counts, l: Layout, interval: nat, k: nat, j: nat)
    requires 0 < interval && |c| == |source| == l.size && k <= l.size && j < l.size && Covers(l)
    ensures CorrectFrom(c, source, l, interval, k)[j] == c[j] + Contribution(source, l, interval, k, j)
  {
    if 0 < k {
      CorrectFromAt(c, source, l, interval, k - 1, j);
      if source[k - 1] != 0 {
        SpreadAt(CorrectFrom(c, source, l, interval, k - 1), l, Missing(l.value(k - 1), interval), interval,
                 source[k - 1], j);
      }
    }
  }

  /** Every bucket gains exactly what the uncorrected buckets contribute to it: a correction never corrects its own additions. */
  lemma CorrectionAt(h: Latency, l: Layout, expected: nat, interval: nat, j: nat)
    requires Shaped(h, l) && Covers(l) && h.histogram.Some? && j < l.size
    requires expected == 0 ==> interval == 1
    requires 1 <= expected <= 0xFFFF_FFFF_FFFF_FFFF ==> interval == expected
    requires 0xFFFF_FFFF_FFFF_FFFF < expected ==> interval == 0xFFFF_FFFF_FFFF_FFFF
    ensures At(CorrectLatency(h, l, expected), j) == At(h, j) + Contribution(h.histogram.value, l, interval, l.size, j)
  {
    CorrectFromAt(h.histogram.value, h.histogram.value, l, interval, l.size, j);
  }

  /** The samples filled in for one of value `v`: each strictly between the interval and `v`, one interval apart, max(0, ceil(v / i) - 2) of them. */
  lemma {:induction false} FilledSamples(v: nat, interval: nat)
    requires 0 < interval
    ensures var filled := Filled(Missing(v, interval), interval);
            && |filled| == (if v <= 2 * interval then 0 else (v + interval - 1) / interval - 2)
            && forall n :: 0 <= n < |filled| ==> filled[n] == v - (n + 1) * interval && interval < filled[n] < v
    decreases v
  {
    if v > 2 * interval {
      var m := v - interval;
      FilledSamples(m, interval);
      var filled, rest := Filled(m, interval), Filled(m - interval, interval);
      assert filled == [m] + rest;
      var q, r := Divide(m + interval - 1, interval);
      Quotient(m + interval - 1, interval, q, r);
      MulNext(q, interval);
      Quotient(v + interval - 1, interval, q + 1, r);
      forall n | 0 <= n < |filled| ensures filled[n] == v - (n + 1) * interval && interval < filled[n] < v {
        MulNext(n, interval);
        if 0 < n { assert filled[n] == rest[n - 1]; }
      }
      if m <= 2 * interval { Quotient(v + interval - 1, interval, 3, v - 1 - 2 * interval); }
    }
  }

  /** The number of samples that correction adds for the first `k` buckets. */
  function AddedSamples(source: Counts, l: Layout, interval: nat, k: nat): nat
    requires 0 < interval && k <= |source|
  {
    if k == 0 then 0
    else AddedSamples(source, l, interval, k - 1) + source[k - 1] * |Filled(Missing(l.value(k - 1), interval), interval)|
  }

  lemma {:induction false} SpreadTotal(c: Counts, l: Layout, missing: nat, interval: nat, count: nat)
    requires 0 < interval && |c| == l.size && forall v: nat :: v <= missing ==> l.index(v) < l.size
    ensures Sum(Spread(c, l, missing, interval, count), Itself) == Sum(c, Itself) + count * |Filled(missing, interval)|
    decreases missing
  {
    if missing > interval {
      var next := AddAt(c, l.index(missing), count);
      SumUpdate(c, l.index(missing), next[l.index(missing)], Itself);
      SpreadTotal(next, l, missing - interval, interval, count);
      FilledNext(l, missing, interval, 0);
      MulNext(|Filled(missing - interval, interval)|, count);
    }
  }

  lemma {:induction false} CorrectFromTotal(c: Counts, source: Counts, l: Layout, interval: nat, k: nat)
    requires 0 < interval && |c| == |source| == l.size && k <= l.size && Covers(l)
    ensures Sum(CorrectFrom(c, source, l, interval, k), Itself) == Sum(c, Itself) + AddedSamples(source, l, interval, k)
  {
    if 0 < k {
      CorrectFromTotal(c, source, l, interval, k - 1);
      if source[k - 1] != 0 {
        SpreadTotal(CorrectFrom(c, source, l, interval, k - 1), l, Missing(l.value(k - 1), interval), interval,
                    source[k - 1]);
      }
    }
  }

  /** A correction adds, for each recorded sample of value `v`, max(0, ceil(v / i) - 2) samples, and leaves the overflow count alone. */
  lemma CorrectionTotal(h: Latency, l: Layout, expected: nat)
    requires Shaped(h, l) && Covers(l)
    ensures CorrectLatency(h, l, expected).overflow == h.overflow
    ensures Samples(CorrectLatency(h, l, expected)) == Samples(h) +
            (if h.histogram.Some? then AddedSamples(h.histogram.value, l, Interval(expected), l.size) else 0)
  {
    if h.histogram.Some? {
      CorrectFromTotal(h.histogram.value, h.histogram.value, l, Interval(expected), l.size);
    }
  }

  // ----- correction is linear -----

  lemma {:induction false} ContributionAdds(a: Counts, b: Counts, l: Layout, interval: nat, k: nat, j: nat)
    requires 0 < interval && |a| == |b| && k <= |a|
    ensures Contribution(AddCounts(a, b), l, interval, k, j) ==
            Contribution(a, l, interval, k, j) + Contribution(b, l, interval, k, j)
  {
    if 0 < k {
      ContributionAdds(a, b, l, interval, k - 1, j);
      var hits := Hits(Filled(Missing(l.value(k - 1), interval), interval), l, j);
      assert (a[k - 1] + b[k - 1]) * hits == a[k - 1] * hits + b[k - 1] * hits;
    }
  }

  /** Correcting a merged histogram or merging corrected ones makes no difference. */
  lemma CorrectionDistributes(a: Latency, b: Latency, l: Layout, expected: nat)
    requires Shaped(a, l) && Shaped(b, l) && Covers(l)
    ensures CorrectLatency(MergeLatency(a, b, l), l, expected) ==
            MergeLatency(CorrectLatency(a, l, expected), CorrectLatency(b, l, expected), l)
  {
    var one, other := CorrectLatency(MergeLatency(a, b, l), l, expected),
                      MergeLatency(CorrectLatency(a, l, expected), CorrectLatency(b, l, expected), l);
    if a.histogram.Some? && b.histogram.Some? {
      var x, y := a.histogram.value, b.histogram.value;
      forall j | 0 <= j < l.size ensures one.histogram.value[j] == other.histogram.value[j] {
        CorrectionAt(MergeLatency(a, b, l), l, expected, Interval(expected), j);
        CorrectionAt(a, l, expected, Interval(expected), j);
        CorrectionAt(b, l, expected, Interval(expected), j);
        ContributionAdds(x, y, l, Interval(expected), l.size, j);
      }
      assert one.histogram.value == other.histogram.value;
    }
  }

  // ----- merging -----

  lemma MergeCommutes(a: Latency, b: Latency, l: Layout)
    requires Shaped(a, l) && Shaped(b, l)
    ensures MergeLatency(a, b, l) == MergeLatency(b, a, l)
  {
    if a.histogram.Some? && b.histogram.Some? {
      assert AddCounts(a.histogram.value, b.histogram.value) == AddCounts(b.histogram.value, a.histogram.value);
    }
  }

  lemma MergeAssociates(a: Latency, b: Latency, c: Latency, l: Layout)
    requires Shaped(a, l) && Shaped(b, l) && Shaped(c, l)
    ensures MergeLatency(MergeLatency(a, b, l), c, l) == MergeLatency(a, MergeLatency(b, c, l), l)
  {
    if a.histogram.Some? && b.histogram.Some? && c.histogram.Some? {
      var x, y, z := a.histogram.value, b.histogram.value, c.histogram.value;
      assert AddCounts(AddCounts(x, y), z) == AddCounts(x, AddCounts(y, z));
    }
  }

  /** A sample recorded before or after a merge is the same sample. */
  lemma RecordThenMerge(a: Latency, b: Latency, l: Layout, micros: nat)
    requires Shaped(a, l) && Shaped(b, l) && Covers(l)
    ensures MergeLatency(RecordLatency(a, l, micros), b, l) == RecordLatency(MergeLatency(a, b, l), l, micros)
  {
    var one, other := MergeLatency(RecordLatency(a, l, micros), b, l),
                      RecordLatency(MergeLatency(a, b, l), l, micros);
    assert one.histogram.value == other.histogram.value;
  }

  /** The bucket of a latency: that of its microseconds, of one for none, and of an hour above it. */
  predicate Belongs(l: Layout, micros: nat, k: nat)
  {
    || (micros == 0 && k == l.index(1))
    || (1 <= micros <= 3_600_000_000 && k == l.index(micros))
    || (3_600_000_000 < micros && k == l.index(3_600_000_000))
  }

  /** Exactly the bucket of the latency grows, by one, and so does the overflow exactly above an hour. */
  lemma RecordedIn(h: Latency, l: Layout, micros: nat, k: nat)
    requires Shaped(h, l) && Covers(l)
    ensures var r := RecordLatency(h, l, micros);
            && At(r, k) == At(h, k) + (if Belongs(l, micros, k) then 1 else 0)
            && r.overflow == h.overflow + (if 3_600_000_000 < micros then 1 else 0)
  {
  }

  lemma RecordTotal(h: Latency, l: Layout, micros: nat)
    requires Shaped(h, l) && Covers(l)
    ensures Samples(RecordLatency(h, l, micros)) == Samples(h) + 1
  {
    var c := Allocated(h, l);
    var raw := if micros <= U64_MAX then micros else U64_MAX;
    var j := l.index(Clamp(raw));
    SumUpdate(c, j, c[j] + 1, Itself);
    if h.histogram.None? { ZerosTotal(c); }
  }

  lemma {:induction false} ZerosTotal(c: Counts)
    requires forall j :: 0 <= j < |c| ==> c[j] == 0
    ensures Sum(c, Itself) == 0
  {
    if c != [] { ZerosTotal(c[1..]); }
  }

  lemma {:induction false} AddCountsTotal(a: Counts, b: Counts)
    requires |a| == |b|
    ensures Sum(AddCounts(a, b), Itself) == Sum(a, Itself) + Sum(b, Itself)
  {
    if a != [] {
      assert AddCounts(a, b)[1..] == AddCounts(a[1..], b[1..]);
      AddCountsTotal(a[1..], b[1..]);
    }
  }

  lemma MergeTotal(a: Latency, b: Latency, l: Layout)
    requires Shaped(a, l) && Shaped(b, l)
    ensures Samples(MergeLatency(a, b, l)) == Samples(a) + Samples(b)
  {
    if a.histogram.Some? && b.histogram.Some? {
      AddCountsTotal(a.histogram.value, b.histogram.value);
    }
  }

  // ----- the histogram object -----

  class LatencyHistogram {
    const layout: Layout
    var histogram: Option<Counts>
    var overflowCount: nat

    function View(): Latency
      reads this
    {
      Latency(histogram, overflowCount)
    }

    ghost predicate Valid()
      reads this
    {
      Covers(layout) && Shaped(View(), layout)
    }

    constructor (layout: Layout)
      requires Covers(layout)
      ensures Valid() && this.layout == layout && View() == NO_LATENCY
    {
      this.layout := layout;
      histogram := None;
      overflowCount := 0;
    }

    method Record(micros: nat)
      requires Valid()
      modifies this
      ensures Valid() && View() == RecordLatency(old(View()), layout, micros)
    {
      var raw := micros;
      if U64_MAX < raw { raw := U64_MAX; }
      if MAX_LATENCY_US < raw {
        overflowCount := overflowCount + 1;
      }
      RecordN(Clamp(raw), 1);
    }

    /** `histogram_mut().record_n(...)`. */
    method RecordN(value: nat, count: nat)
      requires Valid() && layout.index(value) < layout.size
      modifies this`histogram
      ensures Valid() && histogram == Some(AddAt(Allocated(old(View()), layout), layout.index(value), count))
    {
      var counts := Allocated(View(), layout);
      histogram := Some(AddAt(counts, layout.index(value), count));
    }

    method Merge(other: LatencyHistogram)
      requires Valid() && other.Valid() && other.layout == layout
      modifies this
      ensures Valid() && View() == MergeLatency(old(View()), old(other.View()), layout)
    {
      if other.histogram.Some? {
        if histogram.Some? {
          histogram := Some(AddCounts(histogram.value, other.histogram.value));
        } else {
          histogram := other.histogram;
        }
      }
      overflowCount := overflowCount + other.overflowCount;
    }

    method CorrectForCoordinatedOmission(expected: nat)
      requires Valid()
      modifies this
      ensures Valid() && View() == CorrectLatency(old(View()), layout, expected)
    {
      var interval := Interval(expected);
      if histogram.None? { return; }
      var source := histogram.value;
      for k := 0 to layout.size
        invariant Valid() && overflowCount == old(overflowCount)
        invariant histogram == Some(CorrectFrom(source, source, layout, interval, k))
      {
        var count := source[k];
        if count != 0 {
          ghost var before := histogram.value;
          var value := layout.value(k);
          var missing := Missing(value, interval);
          while missing > interval
            invariant Valid() && overflowCount == old(overflowCount) && histogram.Some? && missing <= value
            invariant Spread(histogram.value, layout, missing, interval, count) ==
                      Spread(before, layout, Missing(value, interval), interval, count)
            decreases missing
          {
            RecordN(missing, count);
            missing := missing - interval;
          }
        }
      }
    }
  }
}
