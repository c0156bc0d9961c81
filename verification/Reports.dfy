/** The report of a run: what the workers answered, recorded in their summaries and merged (src/engine/mod.rs, src/metrics.rs). */
module Reports {
  import opened Prelude
  import opened Arithmetic
  import opened Decoder
  import opened Methods
  import opened Connections
  import opened WorkerSpec
  import opened WorkerRuns
  import opened Runs
  import opened Replay
  import I = Interleaving
  import L = Latencies
  import R = RunSummaries
  import U = UriTops

  /** What an entry of the sequence asks for. */
  datatype Target = Target(verb: Method, uri: U.Uri)

  const NANOS_PER_MICRO: nat := 1_000

  // ----- from workers to summaries -----

  /** The recordings of one worker, in the order of its completed responses. */
  function Recordings(answers: seq<Answer>, targets: nat -> Target): R.History
  {
    if answers == [] then R.Fresh
    else
      var answer := answers[|answers| - 1];
      var target := targets(answer.entry);
      R.Responded(Recordings(answers[..|answers| - 1], targets), target.verb, target.uri, answer.status,
                  answer.latency / NANOS_PER_MICRO)
  }

  /** The workers' summaries, merged into an empty one as they are joined. */
  function Merged(ws: seq<W>, targets: nat -> Target): R.History
  {
    if ws == [] then R.Fresh
    else R.Joined(Merged(ws[..|ws| - 1], targets), Recordings(ws[|ws| - 1].shared.answers, targets))
  }

  lemma {:induction false} RecordingsCount(answers: seq<Answer>, targets: nat -> Target)
    ensures R.Responses(Recordings(answers, targets)) == |answers| && R.Uncorrected(Recordings(answers, targets))
  {
    if answers != [] { RecordingsCount(answers[..|answers| - 1], targets); }
  }

  lemma {:induction false} MergedCount(ws: seq<W>, targets: nat -> Target)
    requires AllRecorded(ws)
    ensures R.Responses(Merged(ws, targets)) == MergeAll(ws).completed
  {
    if ws != [] {
      MergedCount(ws[..|ws| - 1], targets);
      RecordingsCount(ws[|ws| - 1].shared.answers, targets);
    }
  }

  lemma {:induction false} MergedUncorrected(ws: seq<W>, targets: nat -> Target)
    ensures R.Uncorrected(Merged(ws, targets))
  {
    if ws != [] {
      MergedUncorrected(ws[..|ws| - 1], targets);
      RecordingsCount(ws[|ws| - 1].shared.answers, targets);
    }
  }

  /** The total of the merged summary is the number of completed requests, and so is its number of latency samples. */
  lemma TotalsAgree(ws: seq<W>, targets: nat -> Target, l: L.Layout)
    requires AllRecorded(ws) && L.Covers(l)
    ensures var s := R.Reached(Merged(ws, targets), l);
            s.completed == L.Samples(s.latencies) == MergeAll(ws).completed
  {
    MergedCount(ws, targets);
    MergedUncorrected(ws, targets);
    R.EveryResponseCounts(Merged(ws, targets), l);
  }

  /**
   * The report of a request-limited run whose workers all finish: every requested response is one latency sample or is
   * abandoned, and the methods together make up the aggregate.
   */
  lemma RunIsReported(g: Grammar, timeout: nat, addresses: nat, parts: seq<seq<Limit>>, scripts: seq<Script>,
                      targets: nat -> Target, l: L.Layout)
    requires 0 < addresses && forall w :: 0 <= w < |parts| ==> Servable(parts[w]) && AllRequestLimits(parts[w])
    requires AllFinish(g, timeout, addresses, parts, scripts) && L.Covers(l)
    ensures var finals := FinalWorkers(g, timeout, addresses, parts, scripts);
            var s := R.Reached(Merged(finals, targets), l);
            && s.completed == L.Samples(s.latencies) == MergeAll(finals).completed
            && s.completed + MergeAll(finals).abandoned == Sum(parts, PartTotal)
            && R.Consistent(s, l)
  {
    var finals := FinalWorkers(g, timeout, addresses, parts, scripts);
    FinishedRunReports(g, timeout, addresses, parts, scripts);
    TotalsAgree(finals, targets, l);
    FinishedRunIsConserved(g, timeout, addresses, parts, scripts);
    R.AggregateIsMethods(Merged(finals, targets), l);
  }

  // ----- which entries were answered -----

  /** The entries that all workers completed. */
  function AllFinished(ws: seq<W>): multiset<nat>
  {
    if ws == [] then multiset{} else AllFinished(ws[..|ws| - 1]) + ws[|ws| - 1].shared.finished
  }

  lemma {:induction false} EntriesAreAnswers(answers: seq<Answer>)
    ensures |EntriesOf(answers)| == |answers|
  {
    if answers != [] { EntriesAreAnswers(answers[..|answers| - 1]); }
  }

  lemma {:induction false} FinishedCount(ws: seq<W>, x: nat)
    requires AllRecorded(ws)
    ensures |AllFinished(ws)| == MergeAll(ws).completed && AllFinished(ws)[x] == Sum(ws, I.FinishedOf(x))
  {
    if ws != [] {
      var k := |ws| - 1;
      FinishedCount(ws[..k], x);
      EntriesAreAnswers(ws[k].shared.answers);
      SumAppend(ws[..k], ws[k], I.FinishedOf(x));
      assert ws == ws[..k] + [ws[k]];
    }
  }

  /** The elements below `n`. */
  function Below(m: multiset<nat>, n: nat): nat
  {
    if n == 0 then 0 else Below(m, n - 1) + m[n - 1]
  }

  lemma {:induction false} BelowSame(m: multiset<nat>, n: nat, k: nat)
    requires n <= k
    ensures Below(m[k := 0], n) == Below(m, n)
  {
    if n != 0 { BelowSame(m, n - 1, k); }
  }

  lemma {:induction false} BelowFits(m: multiset<nat>, n: nat, y: nat)
    requires n <= y
    ensures Below(m, n) + m[y] <= |m|
  {
    if n == 0 {
      assert |m[y := 0]| == |m| - m[y];
    } else {
      BelowSame(m, n - 1, n - 1);
      BelowFits(m[n - 1 := 0], n - 1, y);
    }
  }

  lemma {:induction false} BelowEven(m: multiset<nat>, n: nat, times: nat)
    requires forall x: nat :: x < n ==> m[x] == times
    ensures Below(m, n) == times * n
  {
    if n != 0 { BelowEven(m, n - 1, times); }
  }

  /** Equally many of each element below `n`, and no room for others. */
  lemma NoOthers(m: multiset<nat>, n: nat, times: nat, y: nat)
    requires |m| == times * n && forall x: nat :: x < n ==> m[x] == times
    requires n <= y
    ensures m[y] == 0
  {
    BelowEven(m, n, times);
    BelowFits(m, n, y);
  }

  // ----- which URIs were answered -----

  predicate Under(m: multiset<nat>, n: nat)
  {
    forall y :: y in m ==> y < n
  }

  lemma UnderParts(a: multiset<nat>, b: multiset<nat>, n: nat)
    requires Under(a + b, n)
    ensures Under(a, n) && Under(b, n)
  {
    forall y | y in a ensures y < n { assert y in a + b; }
    forall y | y in b ensures y < n { assert y in a + b; }
  }

  /** How often the entries below `n` with a URI occur. */
  function Occurrences(m: multiset<nat>, targets: nat -> Target, uri: U.Uri, n: nat): nat
  {
    if n == 0 then 0
    else Occurrences(m, targets, uri, n - 1) + if targets(n - 1).uri == uri then m[n - 1] else 0
  }

  /** The entries below `n` with a URI. */
  function EntriesFor(targets: nat -> Target, uri: U.Uri, n: nat): nat
  {
    if n == 0 then 0 else EntriesFor(targets, uri, n - 1) + if targets(n - 1).uri == uri then 1 else 0
  }

  lemma {:induction false} OccurrencesAdd(a: multiset<nat>, b: multiset<nat>, targets: nat -> Target, uri: U.Uri, n: nat)
    ensures Occurrences(a + b, targets, uri, n) == Occurrences(a, targets, uri, n) + Occurrences(b, targets, uri, n)
  {
    if n != 0 { OccurrencesAdd(a, b, targets, uri, n - 1); }
  }

  lemma {:induction false} OccurrencesOfOne(e: nat, targets: nat -> Target, uri: U.Uri, n: nat)
    ensures Occurrences(multiset{e}, targets, uri, n) == if e < n && targets(e).uri == uri then 1 else 0
  {
    if n != 0 { OccurrencesOfOne(e, targets, uri, n - 1); }
  }

  lemma {:induction false} OccurrencesOfNone(targets: nat -> Target, uri: U.Uri, n: nat)
    ensures Occurrences(multiset{}, targets, uri, n) == 0
  {
    if n != 0 { OccurrencesOfNone(targets, uri, n - 1); }
  }

  lemma {:induction false} EvenOccurrences(m: multiset<nat>, targets: nat -> Target, uri: U.Uri, n: nat, times: nat)
    requires forall x: nat :: x < n ==> m[x] == times
    ensures Occurrences(m, targets, uri, n) == times * EntriesFor(targets, uri, n)
  {
    if n != 0 { EvenOccurrences(m, targets, uri, n - 1, times); }
  }

  lemma {:induction false} RecordedFor(answers: seq<Answer>, targets: nat -> Target, uri: U.Uri, n: nat)
    requires Under(EntriesOf(answers), n)
    ensures R.ResponsesFor(Recordings(answers, targets), uri) == Occurrences(EntriesOf(answers), targets, uri, n)
  {
    if answers == [] {
      OccurrencesOfNone(targets, uri, n);
    } else {
      var before, e := answers[..|answers| - 1], answers[|answers| - 1].entry;
      assert EntriesOf(answers) == EntriesOf(before) + multiset{e};
      UnderParts(EntriesOf(before), multiset{e}, n);
      RecordedFor(before, targets, uri, n);
      OccurrencesAdd(EntriesOf(before), multiset{e}, targets, uri, n);
      OccurrencesOfOne(e, targets, uri, n);
    }
  }

  /** The merged summary has seen each URI as often as its entries were completed. */
  lemma {:induction false} MergedFor(ws: seq<W>, targets: nat -> Target, uri: U.Uri, n: nat)
    requires AllRecorded(ws) && Under(AllFinished(ws), n)
    ensures R.ResponsesFor(Merged(ws, targets), uri) == Occurrences(AllFinished(ws), targets, uri, n)
  {
    if ws == [] {
      OccurrencesOfNone(targets, uri, n);
    } else {
      var before, w := ws[..|ws| - 1], ws[|ws| - 1];
      UnderParts(AllFinished(before), w.shared.finished, n);
      MergedFor(before, targets, uri, n);
      RecordedFor(w.shared.answers, targets, uri, n);
      OccurrencesAdd(AllFinished(before), w.shared.finished, targets, uri, n);
    }
  }

  // ----- the report of a replay -----

  /** Workers that completed every entry below `n` equally often, and as many requests as that makes. */
  predicate Even(ws: seq<W>, n: nat, times: nat)
  {
    AllRecorded(ws) && MergeAll(ws).completed == times * n && forall x: nat :: x < n ==> Sum(ws, I.FinishedOf(x)) == times
  }

  lemma EvenIsReported(ws: seq<W>, targets: nat -> Target, uri: U.Uri, n: nat, times: nat)
    requires Even(ws, n, times)
    ensures R.ResponsesFor(Merged(ws, targets), uri) == times * EntriesFor(targets, uri, n)
  {
    var m := AllFinished(ws);
    forall x: nat ensures m[x] == Sum(ws, I.FinishedOf(x)) { FinishedCount(ws, x); }
    FinishedCount(ws, 0);
    forall y | y in m ensures y < n { if n <= y { NoOthers(m, n, times, y); } }
    MergedFor(ws, targets, uri, n);
    EvenOccurrences(m, targets, uri, n, times);
  }

  lemma EvenTotals(ws: seq<W>, targets: nat -> Target, n: nat, times: nat, l: L.Layout)
    requires Even(ws, n, times) && L.Covers(l) && 0 < n
    ensures var s := R.Reached(Merged(ws, targets), l);
            s.completed == L.Samples(s.latencies) == times * n && s.completed / n == times
  {
    TotalsAgree(ws, targets, l);
    Quotient(times * n, n, times, 0);
  }

  /** More than a twentieth of the entries is more than a twentieth of the requests. */
  lemma PopularEntries(n: nat, k: nat, times: nat)
    requires n < R.CAPACITY * k && 0 < times
    ensures times * n < R.CAPACITY * (times * k)
  {
    MulMonotone(n + 1, R.CAPACITY * k, times);
    assert times * (R.CAPACITY * k) == R.CAPACITY * (times * k);
  }

  /** What a merged summary says of a URI that was seen that often. */
  predicate Bracketed(uris: seq<U.Stat>, uri: U.Uri, seen: nat)
  {
    exists i :: 0 <= i < |uris| && uris[i].uri == uri && uris[i].estimated - uris[i].error <= seen <= uris[i].estimated
  }

  lemma PopularIsReported(h: R.History, uri: U.Uri, total: nat, seen: nat, l: L.Layout)
    requires L.Covers(l) && R.Reached(h, l).completed == total && R.ResponsesFor(h, uri) == seen
    requires total < R.CAPACITY * seen
    ensures Bracketed(R.Reached(h, l).uris, uri, seen)
  {
    R.PopularUrisAreReported(h, l, uri);
  }

  /** What the merged summary of even workers says. */
  ghost predicate ReportsRounds(h: R.History, targets: nat -> Target, uri: U.Uri, n: nat, times: nat, l: L.Layout)
    requires L.Covers(l) && 0 < n
  {
    var s, k := R.Reached(h, l), EntriesFor(targets, uri, n);
    && s.completed == L.Samples(s.latencies) == times * n && s.completed / n == times
    && R.ResponsesFor(h, uri) == times * k
    && (n < R.CAPACITY * k ==> Bracketed(s.uris, uri, times * k))
  }

  lemma EvenReport(ws: seq<W>, targets: nat -> Target, uri: U.Uri, n: nat, times: nat, l: L.Layout)
    requires Even(ws, n, times) && L.Covers(l) && 0 < n && 0 < times
    ensures ReportsRounds(Merged(ws, targets), targets, uri, n, times, l)
  {
    EvenTotals(ws, targets, n, times, l);
    EvenIsReported(ws, targets, uri, n, times);
    var k := EntriesFor(targets, uri, n);
    if n < R.CAPACITY * k {
      PopularEntries(n, k, times);
      PopularIsReported(Merged(ws, targets), uri, times * n, times * k, l);
    }
  }

  /** The workers of a replay without abandoned requests. */
  lemma ReplayIsEven(g: Grammar, timeout: nat, addresses: nat, connections: nat, threads: nat, shuffle: bool, n: nat,
                     words: seq<nat>, times: nat, turns: seq<I.Turn>, sys: I.System)
    requires 0 < addresses && 0 < connections && 0 < threads && 0 < times && 0 < n < TWO64 && 0 < times * n
    requires Begun(shuffle, n, words).Some?
    requires I.Ran(g, timeout, addresses, connections, threads, times * n, Begun(shuffle, n, words).value, n, turns, sys)
    requires MergeAll(I.Finals(sys)).abandoned == 0
    ensures Even(I.Finals(sys), n, times)
  {
    var start, parts := Begun(shuffle, n, words).value, I.PartsOf(connections, threads, times * n);
    forall x: nat | x < n
      ensures Sum(I.Finals(sys), I.FinishedOf(x)) == times && MergeAll(I.Finals(sys)).completed == times * n
    {
      I.ReplayRoundsExact(g, timeout, addresses, connections, threads, shuffle, n, words, times, turns, sys, x);
    }
    assert MergeAll(I.Finals(sys)).completed == times * n by {
      I.ReplayRoundsExact(g, timeout, addresses, connections, threads, shuffle, n, words, times, turns, sys, 0);
    }
    I.RanIsSharing(g, timeout, addresses, connections, threads, times * n, start, n, turns, sys);
    I.EndOfSharing(sys, start, n, parts);
  }

  /**
   * The report of a replay: with `times` rounds of `n` entries and nothing abandoned, the merged summary has `times`
   * times `n` requests and latency samples, its number of completed rounds is `times`, it has seen each URI `times`
   * times for each of its entries, and a URI of more than a twentieth of the entries is reported with that count bracketed.
   */
  lemma ReplayIsReported(g: Grammar, timeout: nat, addresses: nat, connections: nat, threads: nat, shuffle: bool, n: nat,
                         words: seq<nat>, times: nat, turns: seq<I.Turn>, sys: I.System, targets: nat -> Target,
                         uri: U.Uri, l: L.Layout)
    requires 0 < addresses && 0 < connections && 0 < threads && 0 < times && 0 < n < TWO64 && 0 < times * n
    requires Begun(shuffle, n, words).Some? && L.Covers(l)
    requires I.Ran(g, timeout, addresses, connections, threads, times * n, Begun(shuffle, n, words).value, n, turns, sys)
    requires MergeAll(I.Finals(sys)).abandoned == 0
    ensures ReportsRounds(Merged(I.Finals(sys), targets), targets, uri, n, times, l)
  {
    ReplayIsEven(g, timeout, addresses, connections, threads, shuffle, n, words, times, turns, sys);
    EvenReport(I.Finals(sys), targets, uri, n, times, l);
  }
}
