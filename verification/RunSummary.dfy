/** What a run reports: totals, per-method summaries, status counts and the URI sketch (src/metrics.rs). */
module RunSummaries {
  import opened Prelude
  import opened Methods
  import opened Latencies
  import U = UriTops
  import P = UriTopProofs

  const STATUSES: nat := 1000
  const CAPACITY: nat := 20

  datatype MethodSummary = MethodSummary(completed: nat, statusErrors: nat, latencies: Latency)

  /** The plain sums of a summary: requests, bytes, socket errors, and what was skipped for which method or reason. */
  datatype Tally = Tally(
    abandoned: nat, recoveries: nat, readBytes: nat, bodyBytes: nat,
    connectErrors: nat, readErrors: nat, writeErrors: nat, timeoutErrors: nat,
    filteredEntries: nat, skippedMethods: map<string, nat>, skippedRecords: map<string, nat>)

  const NO_TALLY := Tally(0, 0, 0, 0, 0, 0, 0, 0, 0, map[], map[])

  datatype Summary = Summary(
    completed: nat, statusErrors: nat, tally: Tally, latencies: Latency,
    methods: seq<MethodSummary>, statuses: seq<nat>, uris: seq<U.Stat>)

  function CompletedOf(m: MethodSummary): int { m.completed }
  function ErrorsOf(m: MethodSummary): int { m.statusErrors }

  ghost predicate Shapely(s: Summary, l: Layout)
  {
    && Shaped(s.latencies, l) && |s.methods| == |ALL| && |s.statuses| == STATUSES
    && forall k :: 0 <= k < |s.methods| ==> Shaped(s.methods[k].latencies, l)
  }

  function NewSummary(): Summary
  {
    Summary(0, 0, NO_TALLY, NO_LATENCY, seq(|ALL|, _ => MethodSummary(0, 0, NO_LATENCY)), seq(STATUSES, _ => 0), [])
  }

  // ----- recording, merging, correcting -----

  function RecordMethod(m: MethodSummary, l: Layout, status: nat, micros: nat): MethodSummary
    requires Shaped(m.latencies, l) && Covers(l)
  {
    MethodSummary(m.completed + 1, m.statusErrors + if status >= 400 then 1 else 0, RecordLatency(m.latencies, l, micros))
  }

  function RecordStatus(statuses: seq<nat>, status: nat): seq<nat>
  {
    if status < |statuses| then statuses[status := statuses[status] + 1] else statuses
  }

  function RecordResponse(s: Summary, l: Layout, verb: Method, uri: U.Uri, status: nat, micros: nat): Summary
    requires Shapely(s, l) && Covers(l)
  {
    var k := Index(verb);
    Summary(s.completed + 1, s.statusErrors + (if status >= 400 then 1 else 0), s.tally,
            RecordLatency(s.latencies, l, micros),
            s.methods[k := RecordMethod(s.methods[k], l, status, micros)],
            RecordStatus(s.statuses, status), U.Record(s.uris, CAPACITY, uri))
  }

  function CountAt<K>(counts: map<K, nat>, key: K): nat
  {
    if key in counts then counts[key] else 0
  }

  /** Counts added key by key. */
  function AddKeyed<K>(a: map<K, nat>, b: map<K, nat>): map<K, nat>
  {
    map key | key in a.Keys + b.Keys :: CountAt(a, key) + CountAt(b, key)
  }

  function MergeTally(a: Tally, b: Tally): Tally
  {
    Tally(a.abandoned + b.abandoned, a.recoveries + b.recoveries, a.readBytes + b.readBytes, a.bodyBytes + b.bodyBytes,
          a.connectErrors + b.connectErrors, a.readErrors + b.readErrors, a.writeErrors + b.writeErrors,
          a.timeoutErrors + b.timeoutErrors, a.filteredEntries + b.filteredEntries,
          AddKeyed(a.skippedMethods, b.skippedMethods), AddKeyed(a.skippedRecords, b.skippedRecords))
  }

  function TallyTotal(ts: seq<Tally>, count: Tally -> nat): nat
  {
    if ts == [] then 0 else count(ts[0]) + TallyTotal(ts[1..], count)
  }

  lemma {:induction false} TallyTotalConcat(a: seq<Tally>, b: seq<Tally>, count: Tally -> nat)
    ensures TallyTotal(a + b, count) == TallyTotal(a, count) + TallyTotal(b, count)
  {
    if a == [] {
      assert a + b == b;
    } else {
      assert (a + b)[1..] == a[1..] + b;
      TallyTotalConcat(a[1..], b, count);
    }
  }

  lemma AddKeyedCommutes<K>(a: map<K, nat>, b: map<K, nat>)
    ensures AddKeyed(a, b) == AddKeyed(b, a)
  {
    assert a.Keys + b.Keys == b.Keys + a.Keys;
  }

  lemma AddKeyedAssociates<K>(a: map<K, nat>, b: map<K, nat>, c: map<K, nat>)
    ensures AddKeyed(AddKeyed(a, b), c) == AddKeyed(a, AddKeyed(b, c))
  {
    var x, y := AddKeyed(AddKeyed(a, b), c), AddKeyed(a, AddKeyed(b, c));
    assert x.Keys == a.Keys + b.Keys + c.Keys == y.Keys;
    forall key | key in x ensures x[key] == y[key] {
      assert x[key] == CountAt(a, key) + CountAt(b, key) + CountAt(c, key);
    }
  }

  lemma AddKeyedNothing<K>(a: map<K, nat>)
    ensures AddKeyed(a, map[]) == a
  {
    assert AddKeyed(a, map[]).Keys == a.Keys;
  }

  lemma TallyCommutes(a: Tally, b: Tally)
    ensures MergeTally(a, b) == MergeTally(b, a)
  {
    AddKeyedCommutes(a.skippedMethods, b.skippedMethods);
    AddKeyedCommutes(a.skippedRecords, b.skippedRecords);
  }

  lemma TallyAssociates(a: Tally, b: Tally, c: Tally)
    ensures MergeTally(MergeTally(a, b), c) == MergeTally(a, MergeTally(b, c))
  {
    AddKeyedAssociates(a.skippedMethods, b.skippedMethods, c.skippedMethods);
    AddKeyedAssociates(a.skippedRecords, b.skippedRecords, c.skippedRecords);
  }

  lemma TallyUnit(a: Tally)
    ensures MergeTally(a, NO_TALLY) == a
  {
    AddKeyedNothing(a.skippedMethods);
    AddKeyedNothing(a.skippedRecords);
  }

  /** The plain sums do not depend on the order in which summaries are merged. */
  lemma TallyOrder(a: Tally, b: Tally, c: Tally)
    ensures MergeTally(a, b) == MergeTally(b, a) && MergeTally(a, NO_TALLY) == a
    ensures MergeTally(MergeTally(a, b), c) == MergeTally(a, MergeTally(b, c))
  {
    TallyCommutes(a, b);
    TallyUnit(a);
    TallyAssociates(a, b, c);
  }

  /** `sum` has the other counts added except those still to do. */
  ghost predicate Adding<K(!new)>(counts: map<K, nat>, other: map<K, nat>, todo: set<K>, sum: map<K, nat>)
  {
    && todo <= other.Keys
    && (forall key :: key in sum <==> key in counts || (key in other && key !in todo))
    && (forall key :: key in sum ==> sum[key] == CountAt(counts, key) + if key in todo then 0 else CountAt(other, key))
  }

  lemma AddingNext<K(!new)>(counts: map<K, nat>, other: map<K, nat>, todo: set<K>, sum: map<K, nat>, key: K)
    requires Adding(counts, other, todo, sum) && key in todo
    ensures Adding(counts, other, todo - {key}, sum[key := CountAt(sum, key) + other[key]])
  {
    assert CountAt(sum, key) == CountAt(counts, key);
  }

  lemma AddingDone<K(!new)>(counts: map<K, nat>, other: map<K, nat>, sum: map<K, nat>)
    requires Adding(counts, other, {}, sum)
    ensures sum == AddKeyed(counts, other)
  {
    assert sum.Keys == AddKeyed(counts, other).Keys;
  }

  /** Every count of the other summary is added to its key, and a new key starts at zero. */
  method AddInto<K(==, !new)>(counts: map<K, nat>, other: map<K, nat>) returns (sum: map<K, nat>)
    ensures sum == AddKeyed(counts, other)
  {
    sum := counts;
    var todo := other.Keys;
    while todo != {}
      invariant Adding(counts, other, todo, sum)
      decreases |todo|
    {
      var key :| key in todo;
      AddingNext(counts, other, todo, sum, key);
      sum := sum[key := CountAt(sum, key) + other[key]];
      todo := todo - {key};
    }
    AddingDone(counts, other, sum);
  }

  method MergeTallies(a: Tally, b: Tally) returns (sums: Tally)
    ensures sums == MergeTally(a, b)
  {
    var verbs := AddInto(a.skippedMethods, b.skippedMethods);
    var records := AddInto(a.skippedRecords, b.skippedRecords);
    sums := Tally(
      a.abandoned + b.abandoned, a.recoveries + b.recoveries, a.readBytes + b.readBytes, a.bodyBytes + b.bodyBytes,
      a.connectErrors + b.connectErrors, a.readErrors + b.readErrors, a.writeErrors + b.writeErrors,
      a.timeoutErrors + b.timeoutErrors, a.filteredEntries + b.filteredEntries, verbs, records);
  }

  function MergeMethod(a: MethodSummary, b: MethodSummary, l: Layout): MethodSummary
    requires Shaped(a.latencies, l) && Shaped(b.latencies, l)
  {
    MethodSummary(a.completed + b.completed, a.statusErrors + b.statusErrors, MergeLatency(a.latencies, b.latencies, l))
  }

  function MergeMethods(a: seq<MethodSummary>, b: seq<MethodSummary>, l: Layout): (m: seq<MethodSummary>)
    requires |a| == |b|
    requires forall k :: 0 <= k < |a| ==> Shaped(a[k].latencies, l) && Shaped(b[k].latencies, l)
    ensures |m| == |a| && forall k :: 0 <= k < |a| ==> m[k] == MergeMethod(a[k], b[k], l)
  {
    seq(|a|, k requires 0 <= k < |a| => MergeMethod(a[k], b[k], l))
  }

  function MergeSummary(a: Summary, b: Summary, l: Layout): Summary
    requires Shapely(a, l) && Shapely(b, l)
  {
    Summary(a.completed + b.completed, a.statusErrors + b.statusErrors, MergeTally(a.tally, b.tally),
            MergeLatency(a.latencies, b.latencies, l),
            MergeMethods(a.methods, b.methods, l), AddCounts(a.statuses, b.statuses),
            U.MergeEntries(a.uris, b.uris, CAPACITY))
  }

  function CorrectMethod(m: MethodSummary, l: Layout, expected: nat): MethodSummary
    requires Shaped(m.latencies, l) && Covers(l)
  {
    m.(latencies := CorrectLatency(m.latencies, l, expected))
  }

  function CorrectMethods(ms: seq<MethodSummary>, l: Layout, expected: nat): (r: seq<MethodSummary>)
    requires Covers(l) && forall k :: 0 <= k < |ms| ==> Shaped(ms[k].latencies, l)
    ensures |r| == |ms| && forall k :: 0 <= k < |ms| ==> r[k] == CorrectMethod(ms[k], l, expected)
  {
    seq(|ms|, k requires 0 <= k < |ms| => CorrectMethod(ms[k], l, expected))
  }

  /** The aggregate and every method histogram corrected with the same interval. */
  function CorrectSummary(s: Summary, l: Layout, expected: nat): Summary
    requires Shapely(s, l) && Covers(l)
  {
    s.(latencies := CorrectLatency(s.latencies, l, expected), methods := CorrectMethods(s.methods, l, expected))
  }

  // ----- the aggregate is the methods together -----

  /** The histograms of some methods merged into one. */
  function Together(ms: seq<MethodSummary>, l: Layout): (h: Latency)
    requires forall k :: 0 <= k < |ms| ==> Shaped(ms[k].latencies, l)
    ensures Shaped(h, l)
  {
    if ms == [] then NO_LATENCY else MergeLatency(ms[0].latencies, Together(ms[1..], l), l)
  }

  ghost predicate Consistent(s: Summary, l: Layout)
  {
    && Shapely(s, l)
    && s.latencies == Together(s.methods, l)
    && s.completed == Sum(s.methods, CompletedOf)
    && s.statusErrors == Sum(s.methods, ErrorsOf)
  }

  lemma {:induction false} NothingTogether(ms: seq<MethodSummary>, l: Layout)
    requires forall k :: 0 <= k < |ms| ==> ms[k] == MethodSummary(0, 0, NO_LATENCY)
    ensures Together(ms, l) == NO_LATENCY && Sum(ms, CompletedOf) == 0 && Sum(ms, ErrorsOf) == 0
  {
    if ms != [] { NothingTogether(ms[1..], l); }
  }

  lemma {:induction false} RecordTogether(ms: seq<MethodSummary>, l: Layout, k: nat, status: nat, micros: nat)
    requires k < |ms| && Covers(l) && forall i :: 0 <= i < |ms| ==> Shaped(ms[i].latencies, l)
    ensures Together(ms[k := RecordMethod(ms[k], l, status, micros)], l) == RecordLatency(Together(ms, l), l, micros)
  {
    var next := ms[k := RecordMethod(ms[k], l, status, micros)];
    var rest := Together(ms[1..], l);
    if k == 0 {
      assert next[1..] == ms[1..];
      RecordThenMerge(ms[0].latencies, rest, l, micros);
    } else {
      assert next[1..] == ms[1..][k - 1 := RecordMethod(ms[k], l, status, micros)];
      RecordTogether(ms[1..], l, k - 1, status, micros);
      MergeCommutes(ms[0].latencies, rest, l);
      RecordThenMerge(rest, ms[0].latencies, l, micros);
      MergeCommutes(ms[0].latencies, RecordLatency(rest, l, micros), l);
    }
  }

  lemma Exchange(a: Latency, b: Latency, c: Latency, d: Latency, l: Layout)
    requires Shaped(a, l) && Shaped(b, l) && Shaped(c, l) && Shaped(d, l)
    ensures MergeLatency(MergeLatency(a, b, l), MergeLatency(c, d, l), l) ==
            MergeLatency(MergeLatency(a, c, l), MergeLatency(b, d, l), l)
  {
    MergeAssociates(a, b, MergeLatency(c, d, l), l);
    MergeAssociates(b, c, d, l);
    MergeCommutes(b, c, l);
    MergeAssociates(c, b, d, l);
    MergeAssociates(a, c, MergeLatency(b, d, l), l);
  }

  lemma {:induction false} MergeTogether(a: seq<MethodSummary>, b: seq<MethodSummary>, l: Layout)
    requires |a| == |b|
    requires forall k :: 0 <= k < |a| ==> Shaped(a[k].latencies, l) && Shaped(b[k].latencies, l)
    ensures Together(MergeMethods(a, b, l), l) == MergeLatency(Together(a, l), Together(b, l), l)
    ensures Sum(MergeMethods(a, b, l), CompletedOf) == Sum(a, CompletedOf) + Sum(b, CompletedOf)
    ensures Sum(MergeMethods(a, b, l), ErrorsOf) == Sum(a, ErrorsOf) + Sum(b, ErrorsOf)
  {
    if a != [] {
      assert MergeMethods(a, b, l)[1..] == MergeMethods(a[1..], b[1..], l);
      MergeTogether(a[1..], b[1..], l);
      Exchange(a[0].latencies, b[0].latencies, Together(a[1..], l), Together(b[1..], l), l);
    }
  }

  lemma {:induction false} CorrectTogether(ms: seq<MethodSummary>, l: Layout, expected: nat)
    requires Covers(l) && forall k :: 0 <= k < |ms| ==> Shaped(ms[k].latencies, l)
    ensures Together(CorrectMethods(ms, l, expected), l) == CorrectLatency(Together(ms, l), l, expected)
    ensures Sum(CorrectMethods(ms, l, expected), CompletedOf) == Sum(ms, CompletedOf)
    ensures Sum(CorrectMethods(ms, l, expected), ErrorsOf) == Sum(ms, ErrorsOf)
  {
    if ms != [] {
      assert CorrectMethods(ms, l, expected)[1..] == CorrectMethods(ms[1..], l, expected);
      CorrectTogether(ms[1..], l, expected);
      CorrectionDistributes(ms[0].latencies, Together(ms[1..], l), l, expected);
    }
  }

  lemma RecordKeepsConsistent(s: Summary, l: Layout, verb: Method, uri: U.Uri, status: nat, micros: nat)
    requires Consistent(s, l) && Covers(l)
    ensures Consistent(RecordResponse(s, l, verb, uri, status, micros), l)
  {
    var k := Index(verb);
    var m := RecordMethod(s.methods[k], l, status, micros);
    RecordTogether(s.methods, l, k, status, micros);
    SumUpdate(s.methods, k, m, CompletedOf);
    SumUpdate(s.methods, k, m, ErrorsOf);
  }

  lemma MergeKeepsConsistent(a: Summary, b: Summary, l: Layout)
    requires Consistent(a, l) && Consistent(b, l)
    ensures Consistent(MergeSummary(a, b, l), l)
  {
    MergeTogether(a.methods, b.methods, l);
  }

  /** Correction keeps the aggregate equal to the methods together, whatever the summary. */
  lemma CorrectKeepsConsistent(s: Summary, l: Layout, expected: nat)
    requires Consistent(s, l) && Covers(l)
    ensures Consistent(CorrectSummary(s, l, expected), l)
  {
    CorrectTogether(s.methods, l, expected);
  }

  /** Correcting every worker's summary and merging equals merging and correcting once. */
  lemma CorrectSummaryDistributes(a: Summary, b: Summary, l: Layout, expected: nat)
    requires Shapely(a, l) && Shapely(b, l) && Covers(l)
    ensures CorrectSummary(MergeSummary(a, b, l), l, expected) ==
            MergeSummary(CorrectSummary(a, l, expected), CorrectSummary(b, l, expected), l)
  {
    CorrectionDistributes(a.latencies, b.latencies, l, expected);
    var one := CorrectMethods(MergeMethods(a.methods, b.methods, l), l, expected);
    var other := MergeMethods(CorrectMethods(a.methods, l, expected), CorrectMethods(b.methods, l, expected), l);
    forall k | 0 <= k < |one| ensures one[k] == other[k] {
      CorrectionDistributes(a.methods[k].latencies, b.methods[k].latencies, l, expected);
    }
    assert one == other;
  }

  /** Correcting changes every histogram as it should, the aggregate and those of the methods, and nothing else. */
  lemma CorrectedShows(s: Summary, l: Layout, expected: nat, verb: Method)
    requires Shapely(s, l) && Covers(l)
    ensures var r := CorrectSummary(s, l, expected);
            var m, m' := s.methods[Index(verb)], r.methods[Index(verb)];
            && r.latencies == CorrectLatency(s.latencies, l, expected) && m'.latencies == CorrectLatency(m.latencies, l, expected)
            && m'.completed == m.completed && m'.statusErrors == m.statusErrors
            && r.completed == s.completed && r.statusErrors == s.statusErrors && r.tally == s.tally
            && r.statuses == s.statuses && r.uris == s.uris
  {
  }

  // ----- histories -----

  /** How a summary came about. */
  datatype History =
    | Fresh
    | Responded(before: History, verb: Method, uri: U.Uri, status: nat, micros: nat)
    | Joined(left: History, right: History)
    | Corrected(before: History, expected: nat)
    | Tallied(before: History, more: Tally)

  function Reached(h: History, l: Layout): (s: Summary)
    requires Covers(l)
    ensures Shapely(s, l)
  {
    match h
    case Fresh => NewSummary()
    case Responded(before, verb, uri, status, micros) =>
      RecordResponse(Reached(before, l), l, verb, uri, status, micros)
    case Joined(left, right) => MergeSummary(Reached(left, l), Reached(right, l), l)
    case Corrected(before, expected) => CorrectSummary(Reached(before, l), l, expected)
    case Tallied(before, more) => var s := Reached(before, l); s.(tally := MergeTally(s.tally, more))
  }

  /** In every reachable summary, before and after correction, the aggregate is exactly the methods together. */
  lemma {:induction false} AggregateIsMethods(h: History, l: Layout)
    requires Covers(l)
    ensures Consistent(Reached(h, l), l)
  {
    match h
    case Fresh => NothingTogether(NewSummary().methods, l);
    case Responded(before, verb, uri, status, micros) =>
      AggregateIsMethods(before, l);
      RecordKeepsConsistent(Reached(before, l), l, verb, uri, status, micros);
    case Joined(left, right) =>
      AggregateIsMethods(left, l);
      AggregateIsMethods(right, l);
      MergeKeepsConsistent(Reached(left, l), Reached(right, l), l);
    case Corrected(before, expected) =>
      AggregateIsMethods(before, l);
      CorrectKeepsConsistent(Reached(before, l), l, expected);
    case Tallied(before, _) => AggregateIsMethods(before, l);
  }

  // ----- counts -----

  /** The number of responses with a status in a range. */
  function ResponsesIn(h: History, from: nat, to: nat): nat
  {
    match h
    case Fresh => 0
    case Responded(before, _, _, status, _) => ResponsesIn(before, from, to) + if from <= status < to then 1 else 0
    case Joined(left, right) => ResponsesIn(left, from, to) + ResponsesIn(right, from, to)
    case Corrected(before, _) => ResponsesIn(before, from, to)
    case Tallied(before, _) => ResponsesIn(before, from, to)
  }

  function Responses(h: History): nat
  {
    match h
    case Fresh => 0
    case Responded(before, _, _, _, _) => Responses(before) + 1
    case Joined(left, right) => Responses(left) + Responses(right)
    case Corrected(before, _) => Responses(before)
    case Tallied(before, _) => Responses(before)
  }

  function Uncorrected(h: History): bool
  {
    match h
    case Fresh => true
    case Responded(before, _, _, _, _) => Uncorrected(before)
    case Joined(left, right) => Uncorrected(left) && Uncorrected(right)
    case Corrected(_, _) => false
    case Tallied(before, _) => Uncorrected(before)
  }

  /** The URI sketch is the sketch of the same responses. */
  function Requests(h: History): U.History
  {
    match h
    case Fresh => U.Empty
    case Responded(before, _, uri, _, _) => U.Recorded(Requests(before), uri)
    case Joined(left, right) => U.Merged(Requests(left), Requests(right))
    case Corrected(before, _) => Requests(before)
    case Tallied(before, _) => Requests(before)
  }

  lemma {:induction false} StatusesAreCounted(h: History, l: Layout, c: nat)
    requires Covers(l) && c < STATUSES
    ensures Reached(h, l).statuses[c] == ResponsesIn(h, c, c + 1)
  {
    match h
    case Fresh =>
    case Responded(before, verb, uri, status, micros) =>
      StatusesAreCounted(before, l, c);
      assert Reached(h, l).statuses == RecordStatus(Reached(before, l).statuses, status);
    case Joined(left, right) =>
      StatusesAreCounted(left, l, c);
      StatusesAreCounted(right, l, c);
    case Corrected(before, expected) =>
      StatusesAreCounted(before, l, c);
    case Tallied(before, _) => StatusesAreCounted(before, l, c);
  }

  /** Every response is counted once everywhere: in the total, among the status errors from 400 on, and as one sample until corrected. */
  lemma {:induction false} EveryResponseCounts(h: History, l: Layout)
    requires Covers(l)
    ensures var s := Reached(h, l);
            && s.completed == Responses(h)
            && s.statusErrors + ResponsesIn(h, 0, 400) == Responses(h)
            && s.uris == U.Sketch(Requests(h), CAPACITY)
            && (Uncorrected(h) ==> Samples(s.latencies) == s.completed)
  {
    match h
    case Fresh =>
    case Responded(before, verb, uri, status, micros) =>
      EveryResponseCounts(before, l);
      RecordTotal(Reached(before, l).latencies, l, micros);
    case Joined(left, right) =>
      EveryResponseCounts(left, l);
      EveryResponseCounts(right, l);
      MergeTotal(Reached(left, l).latencies, Reached(right, l).latencies, l);
    case Corrected(before, expected) =>
      EveryResponseCounts(before, l);
    case Tallied(before, _) => EveryResponseCounts(before, l);
  }

  /** Of some responses: how many belong in a bucket, took longer than an hour, there are, and have a status of 400 or more. */
  datatype Seen = Seen(here: nat, slow: nat, all: nat, errors: nat)

  function Plus(a: Seen, b: Seen): Seen
  {
    Seen(a.here + b.here, a.slow + b.slow, a.all + b.all, a.errors + b.errors)
  }

  function One(l: Layout, k: nat, status: nat, micros: nat): Seen
  {
    Seen(if Belongs(l, micros, k) then 1 else 0, if 3_600_000_000 < micros then 1 else 0, 1, if 400 <= status then 1 else 0)
  }

  /** What was seen of one method, or of all methods. */
  function SeenOf(h: History, l: Layout, k: nat, of: Option<Method>): Seen
  {
    match h
    case Fresh => Seen(0, 0, 0, 0)
    case Responded(before, verb, _, status, micros) =>
      Plus(SeenOf(before, l, k, of),
           if of.None? || of == Some(verb) then One(l, k, status, micros) else Seen(0, 0, 0, 0))
    case Joined(left, right) => Plus(SeenOf(left, l, k, of), SeenOf(right, l, k, of))
    case Corrected(before, _) => SeenOf(before, l, k, of)
    case Tallied(before, _) => SeenOf(before, l, k, of)
  }

  lemma MergedAt(a: Latency, b: Latency, l: Layout, k: nat)
    requires Shaped(a, l) && Shaped(b, l)
    ensures At(MergeLatency(a, b, l), k) == At(a, k) + At(b, k)
  {
  }

  lemma SameIndex(a: Method, b: Method)
    ensures Index(a) == Index(b) <==> a == b
  {
  }

  /** What a histogram and its counts show of one bucket. */
  function Shown(latencies: Latency, completed: nat, errors: nat, k: nat): Seen
  {
    Seen(At(latencies, k), latencies.overflow, completed, errors)
  }

  function ShownOf(s: Summary, k: nat, of: Option<Method>): Seen
    requires |s.methods| == |ALL|
  {
    match of
    case None => Shown(s.latencies, s.completed, s.statusErrors, k)
    case Some(verb) => var m := s.methods[Index(verb)]; Shown(m.latencies, m.completed, m.statusErrors, k)
  }

  lemma RespondedShows(s: Summary, l: Layout, verb: Method, uri: U.Uri, status: nat, micros: nat, k: nat, of: Option<Method>)
    requires Shapely(s, l) && Covers(l)
    ensures ShownOf(RecordResponse(s, l, verb, uri, status, micros), k, of) ==
            Plus(ShownOf(s, k, of), if of.None? || of == Some(verb) then One(l, k, status, micros) else Seen(0, 0, 0, 0))
  {
    RecordedIn(s.latencies, l, micros, k);
    RecordedIn(s.methods[Index(verb)].latencies, l, micros, k);
    if of.Some? { SameIndex(of.value, verb); }
  }

  lemma JoinedShows(a: Summary, b: Summary, l: Layout, k: nat, of: Option<Method>)
    requires Shapely(a, l) && Shapely(b, l)
    ensures ShownOf(MergeSummary(a, b, l), k, of) == Plus(ShownOf(a, k, of), ShownOf(b, k, of))
  {
    MergedAt(a.latencies, b.latencies, l, k);
    if of.Some? { MergedAt(a.methods[Index(of.value)].latencies, b.methods[Index(of.value)].latencies, l, k); }
  }

  /**
   * Until it is corrected, a summary shows exactly what was seen: every bucket counts the responses that belong in it,
   * and so do the overflow, the total and the status errors, in the aggregate and for each method.
   */
  lemma {:induction false} SummaryShowsResponses(h: History, l: Layout, k: nat, of: Option<Method>)
    requires Covers(l) && Uncorrected(h)
    ensures ShownOf(Reached(h, l), k, of) == SeenOf(h, l, k, of)
  {
    match h
    case Fresh =>
    case Responded(before, verb, uri, status, micros) =>
      SummaryShowsResponses(before, l, k, of);
      RespondedShows(Reached(before, l), l, verb, uri, status, micros, k, of);
    case Joined(left, right) =>
      SummaryShowsResponses(left, l, k, of);
      SummaryShowsResponses(right, l, k, of);
      JoinedShows(Reached(left, l), Reached(right, l), l, k, of);
    case Corrected(before, expected) =>
    case Tallied(before, _) => SummaryShowsResponses(before, l, k, of);
  }

  /** What was added to the plain sums. */
  function TalliesOf(h: History): seq<Tally>
  {
    match h
    case Fresh => []
    case Responded(before, _, _, _, _) => TalliesOf(before)
    case Joined(left, right) => TalliesOf(left) + TalliesOf(right)
    case Corrected(before, _) => TalliesOf(before)
    case Tallied(before, more) => TalliesOf(before) + [more]
  }

  /** A count of a tally that adds up in merging. */
  ghost predicate AddsUp(count: Tally -> nat)
  {
    count(NO_TALLY) == 0 && forall a, b :: count(MergeTally(a, b)) == count(a) + count(b)
  }

  /** Whatever adds up is, in every reachable summary, the sum of all that was added in any worker. */
  lemma {:induction false} SumsAreTotals(h: History, l: Layout, count: Tally -> nat)
    requires Covers(l) && AddsUp(count)
    ensures count(Reached(h, l).tally) == TallyTotal(TalliesOf(h), count)
  {
    match h
    case Fresh =>
    case Responded(before, verb, uri, status, micros) => SumsAreTotals(before, l, count);
    case Joined(left, right) =>
      SumsAreTotals(left, l, count);
      SumsAreTotals(right, l, count);
      TallyTotalConcat(TalliesOf(left), TalliesOf(right), count);
    case Corrected(before, expected) => SumsAreTotals(before, l, count);
    case Tallied(before, more) =>
      SumsAreTotals(before, l, count);
      TallyTotalConcat(TalliesOf(before), [more], count);
      assert TallyTotal([more], count) == count(more) + TallyTotal([more][1..], count);
  }

  /** All of them add up: requests, bytes, socket errors, filtered entries, and skipped counts by method and reason. */
  lemma EverySumAddsUp(key: string)
    ensures AddsUp((t: Tally) => t.abandoned) && AddsUp((t: Tally) => t.recoveries)
    ensures AddsUp((t: Tally) => t.readBytes) && AddsUp((t: Tally) => t.bodyBytes)
    ensures AddsUp((t: Tally) => t.connectErrors) && AddsUp((t: Tally) => t.readErrors)
    ensures AddsUp((t: Tally) => t.writeErrors) && AddsUp((t: Tally) => t.timeoutErrors)
    ensures AddsUp((t: Tally) => t.filteredEntries)
    ensures AddsUp((t: Tally) => CountAt(t.skippedMethods, key)) && AddsUp((t: Tally) => CountAt(t.skippedRecords, key))
  {
  }

  /** How often a URI was answered. */
  function ResponsesFor(h: History, uri: U.Uri): nat
  {
    match h
    case Fresh => 0
    case Responded(before, _, u, _, _) => ResponsesFor(before, uri) + if u == uri then 1 else 0
    case Joined(left, right) => ResponsesFor(left, uri) + ResponsesFor(right, uri)
    case Corrected(before, _) => ResponsesFor(before, uri)
    case Tallied(before, _) => ResponsesFor(before, uri)
  }

  lemma {:induction false} RequestsAreResponses(h: History, uri: U.Uri)
    ensures U.Total(Requests(h)) == Responses(h) && U.Count(Requests(h), uri) == ResponsesFor(h, uri)
  {
    match h
    case Fresh =>
    case Responded(before, _, _, _, _) => RequestsAreResponses(before, uri);
    case Joined(left, right) =>
      RequestsAreResponses(left, uri);
      RequestsAreResponses(right, uri);
    case Corrected(before, _) => RequestsAreResponses(before, uri);
    case Tallied(before, _) => RequestsAreResponses(before, uri);
  }

  /** A URI with more than a twentieth of all completed requests is always among the reported ones, with a bracketed count. */
  lemma PopularUrisAreReported(h: History, l: Layout, uri: U.Uri)
    requires Covers(l) && CAPACITY * ResponsesFor(h, uri) > Reached(h, l).completed
    ensures var uris := Reached(h, l).uris;
            exists i :: 0 <= i < |uris| && uris[i].uri == uri &&
                        uris[i].estimated - uris[i].error <= ResponsesFor(h, uri) <= uris[i].estimated
  {
    EveryResponseCounts(h, l);
    RequestsAreResponses(h, uri);
    P.HeavyHittersSurvive(Requests(h), CAPACITY, uri);
    P.SketchBounds(Requests(h), CAPACITY, uri);
  }

  // ----- the summary object -----

  class RunSummary {
    const layout: Layout
    var completed: nat
    var statusErrors: nat
    var tally: Tally
    var latencies: Latency
    var methodSummaries: seq<MethodSummary>
    var statusCounts: seq<nat>
    var uriTop: seq<U.Stat>

    function View(): Summary
      reads this
    {
      Summary(completed, statusErrors, tally, latencies, methodSummaries, statusCounts, uriTop)
    }

    ghost predicate Valid()
      reads this
    {
      Covers(layout) && Consistent(View(), layout)
    }

    constructor (layout: Layout)
      requires Covers(layout)
      ensures Valid() && this.layout == layout && View() == NewSummary()
    {
      this.layout := layout;
      completed, statusErrors, tally, latencies := 0, 0, NO_TALLY, NO_LATENCY;
      methodSummaries := seq(|ALL|, _ => MethodSummary(0, 0, NO_LATENCY));
      statusCounts := seq(STATUSES, _ => 0);
      uriTop := [];
      NothingTogether(NewSummary().methods, layout);
    }

    method Respond(verb: Method, uri: U.Uri, status: nat, micros: nat)
      requires Valid()
      modifies this
      ensures Valid() && View() == RecordResponse(old(View()), layout, verb, uri, status, micros)
    {
      RecordKeepsConsistent(View(), layout, verb, uri, status, micros);
      ghost var plan := RecordResponse(View(), layout, verb, uri, status, micros);
      var error := if status >= 400 then 1 else 0;
      var k := Index(verb);
      var m := RecordMethod(methodSummaries[k], layout, status, micros);
      var counts := RecordStatus(statusCounts, status);
      var all := RecordLatency(latencies, layout, micros);
      completed, statusErrors, latencies := completed + 1, statusErrors + error, all;
      methodSummaries, statusCounts := methodSummaries[k := m], counts;
      uriTop := U.Record(uriTop, CAPACITY, uri);
      assert View() == plan;
    }

    method Merge(other: RunSummary)
      requires Valid() && other.Valid() && other.layout == layout
      modifies this
      ensures Valid() && View() == MergeSummary(old(View()), old(other.View()), layout)
    {
      MergeKeepsConsistent(View(), other.View(), layout);
      ghost var plan := MergeSummary(View(), other.View(), layout);
      var merged: seq<MethodSummary> := [];
      for k := 0 to |methodSummaries|
        invariant |merged| == k && merged == plan.methods[..k]
      {
        merged := merged + [MergeMethod(methodSummaries[k], other.methodSummaries[k], layout)];
      }
      var counts := AddCounts(statusCounts, other.statusCounts);
      var uris := U.MergeEntries(uriTop, other.uriTop, CAPACITY);
      var all := MergeLatency(latencies, other.latencies, layout);
      var done, errors := completed + other.completed, statusErrors + other.statusErrors;
      var sums := MergeTallies(tally, other.tally);
      completed, statusErrors, tally, latencies := done, errors, sums, all;
      methodSummaries, statusCounts, uriTop := merged, counts, uris;
      assert View() == plan;
    }

    /** The aggregate first, then every method. */
    method Correct(expected: nat)
      requires Valid()
      modifies this
      ensures Valid() && View() == CorrectSummary(old(View()), layout, expected)
    {
      CorrectKeepsConsistent(View(), layout, expected);
      ghost var plan := CorrectSummary(View(), layout, expected);
      latencies := CorrectLatency(latencies, layout, expected);
      var corrected: seq<MethodSummary> := [];
      for k := 0 to |methodSummaries|
        invariant |corrected| == k && corrected == plan.methods[..k]
      {
        corrected := corrected + [CorrectMethod(methodSummaries[k], layout, expected)];
      }
      methodSummaries := corrected;
      assert View() == plan;
    }
  }
}
