/** A whole run (src/engine/mod.rs): the limit is split over connections, the connections over workers, and the
    workers' summaries are merged. */
module Runs {
  import opened Prelude
  import opened Arithmetic
  import opened Decoder
  import opened Connections
  import opened WorkerSpec
  import opened WorkerSteps
  import opened WorkerRules
  import opened WorkerRuns
  import opened Workers

  // ----- splitting the request count -----

  /** `connection_limits` of a request-limited run: the remainder goes to the first connections. */
  function ConnectionLimits(connections: nat, requests: nat): (limits: seq<Limit>)
    requires 0 < connections && 0 < requests
    ensures |limits| == Min(connections, requests)
  {
    var count := Min(connections, requests);
    var base, extra := requests / count, requests % count;
    seq(count, i => Requests(if i < extra then base + 1 else base))
  }

  lemma {:induction false} PrefixTotal(limits: seq<Limit>, base: nat, extra: nat, k: nat)
    requires k <= |limits|
    requires forall i :: 0 <= i < |limits| ==> limits[i] == Requests(if i < extra then base + 1 else base)
    ensures Sum(limits[..k], CountOf) == k * base + Min(k, extra)
  {
    if k != 0 {
      PrefixTotal(limits, base, extra, k - 1);
      assert limits[..k] == limits[..k - 1] + [limits[k - 1]];
      SumAppend(limits[..k - 1], limits[k - 1], CountOf);
      MulNext(k - 1, base);
    }
  }

  /** Every request is assigned to exactly one connection, no connection is idle, and the shares differ by at most one. */
  lemma LimitsSplitEvenly(connections: nat, requests: nat)
    requires 0 < connections && 0 < requests
    ensures var limits := ConnectionLimits(connections, requests);
            && Sum(limits, CountOf) == requests && AllRequestLimits(limits)
            && (forall l :: l in limits ==> 0 < l.count)
            && (forall l, m :: l in limits && m in limits ==> l.count <= m.count + 1)
  {
    var limits := ConnectionLimits(connections, requests);
    var count := |limits|;
    var base, extra := Divide(requests, count);
    Quotient(requests, count, base, extra);
    PrefixTotal(limits, base, extra, count);
    assert limits[..count] == limits;
    assert count * base == base * count;
  }

  // ----- dealing connections to workers -----

  function PartTotal(part: seq<Limit>): int { Sum(part, CountOf) }

  function PartSize(part: seq<Limit>): int { |part| }

  /** Connection `index` goes to worker `index % threads`. */
  function Deal(limits: seq<Limit>, threads: nat): (parts: seq<seq<Limit>>)
    requires 0 < threads
    ensures |parts| == threads
  {
    if limits == [] then seq(threads, _ => [])
    else
      var k := |limits| - 1;
      var parts := Deal(limits[..k], threads);
      parts[k % threads := parts[k % threads] + [limits[k]]]
  }

  lemma {:induction false} EmptyParts(parts: seq<seq<Limit>>)
    requires forall p :: p in parts ==> p == []
    ensures Sum(parts, PartTotal) == 0 && Sum(parts, PartSize) == 0
  {
    if parts != [] {
      assert parts[0] in parts;
      assert forall p :: p in parts[1..] ==> p in parts;
      EmptyParts(parts[1..]);
    }
  }

  /** Dealing loses and duplicates nothing. */
  lemma {:induction false} DealKeepsAll(limits: seq<Limit>, threads: nat)
    requires 0 < threads
    ensures Sum(Deal(limits, threads), PartTotal) == Sum(limits, CountOf)
    ensures Sum(Deal(limits, threads), PartSize) == |limits|
    ensures forall w, l :: 0 <= w < threads && l in Deal(limits, threads)[w] ==> l in limits
  {
    if limits == [] {
      EmptyParts(Deal(limits, threads));
    } else {
      var k := |limits| - 1;
      var parts, w := Deal(limits[..k], threads), k % threads;
      DealKeepsAll(limits[..k], threads);
      assert limits == limits[..k] + [limits[k]];
      SumAppend(limits[..k], limits[k], CountOf);
      SumAppend(parts[w], limits[k], CountOf);
      SumUpdate(parts, w, parts[w] + [limits[k]], PartTotal);
      SumUpdate(parts, w, parts[w] + [limits[k]], PartSize);
    }
  }

  /** Worker `w` gets the limits at `w`, `w + threads`, and so on. */
  lemma {:induction false} DealIsRoundRobin(limits: seq<Limit>, threads: nat, w: nat)
    requires w < threads
    ensures EachTurn(Deal(limits, threads)[w], limits, threads, w)
  {
    if limits != [] {
      var k := |limits| - 1;
      DealIsRoundRobin(limits[..k], threads, w);
      TurnTaken(Deal(limits[..k], threads)[w], limits, threads, w);
    }
  }

  /** The limits at a worker's turns. */
  predicate EachTurn(part: seq<Limit>, limits: seq<Limit>, threads: nat, w: nat)
    requires w < threads
  {
    |part| == Turns(|limits|, threads, w)
    && forall i :: 0 <= i < |part| ==> Place(i, threads, w) < |limits| && part[i] == limits[Place(i, threads, w)]
  }

  function Place(turn: nat, threads: nat, w: nat): nat { turn * threads + w }

  lemma TurnTaken(part: seq<Limit>, limits: seq<Limit>, threads: nat, w: nat)
    requires w < threads && limits != [] && EachTurn(part, limits[..|limits| - 1], threads, w)
    ensures var k := |limits| - 1; EachTurn(if k % threads == w then part + [limits[k]] else part, limits, threads, w)
  {
    var k := |limits| - 1;
    var next := if k % threads == w then part + [limits[k]] else part;
    assert limits == limits[..k] + [limits[k]];
    forall i | 0 <= i < |part| ensures Place(i, threads, w) < k && next[i] == limits[Place(i, threads, w)] {
      assert part[i] == limits[..k][Place(i, threads, w)];
    }
    if k % threads == w { TurnsAt(k, threads, w); }
  }

  /** The worker's next position. */
  lemma TurnsAt(k: nat, threads: nat, w: nat)
    requires w < threads && k % threads == w
    ensures Place(Turns(k, threads, w), threads, w) == k
  {
    var q, r := Divide(k, threads);
    Quotient(k, threads, q, r);
    TurnsAre(k, threads, w, q, r);
  }

  /** How many of the first `k` positions are the worker's. */
  function Turns(k: nat, threads: nat, w: nat): nat
    requires w < threads
  {
    if k == 0 then 0 else Turns(k - 1, threads, w) + if (k - 1) % threads == w then 1 else 0
  }

  lemma {:induction false} TurnsAre(k: nat, threads: nat, w: nat, q: nat, r: nat)
    requires w < threads && r < threads && k == q * threads + r
    ensures Turns(k, threads, w) == q + if w < r then 1 else 0
  {
    if 0 < r {
      Quotient(k - 1, threads, q, r - 1);
      TurnsAre(k - 1, threads, w, q, r - 1);
    } else if 0 < q {
      MulNext(q - 1, threads);
      Quotient(k - 1, threads, q - 1, threads - 1);
      TurnsAre(k - 1, threads, w, q - 1, threads - 1);
    }
  }

  method DealOut(limits: seq<Limit>, threads: nat) returns (parts: seq<seq<Limit>>)
    requires 0 < threads
    ensures parts == Deal(limits, threads)
  {
    parts := seq(threads, _ => []);
    for index := 0 to |limits|
      invariant parts == Deal(limits[..index], threads)
    {
      assert limits[..index + 1][..index] == limits[..index];
      var w := index % threads;
      parts := parts[w := parts[w] + [limits[index]]];
    }
    assert limits[..|limits|] == limits;
  }

  // ----- merging summaries -----

  /** The counters of `RunSummary::merge`. */
  function Merge(a: Counters, b: Counters): Counters
  {
    Counters(a.completed + b.completed, a.abandoned + b.abandoned, a.recoveries + b.recoveries,
             a.readBytes + b.readBytes, a.bodyBytes + b.bodyBytes, a.connectErrors + b.connectErrors,
             a.readErrors + b.readErrors, a.writeErrors + b.writeErrors, a.timeoutErrors + b.timeoutErrors)
  }

  /** The merged counters of some workers. */
  function MergeAll(ws: seq<W>): Counters
  {
    if ws == [] then NOTHING else Merge(MergeAll(ws[..|ws| - 1]), ws[|ws| - 1].shared.counters)
  }

  /** One counter summed over the workers. */
  function Total(ws: seq<W>, counter: Counters -> nat): nat
  {
    if ws == [] then 0 else Total(ws[..|ws| - 1], counter) + counter(ws[|ws| - 1].shared.counters)
  }

  /** Every counter of the merged summary is the sum of the workers'. */
  lemma {:induction false} MergedSums(ws: seq<W>)
    ensures var k := MergeAll(ws);
            && k.completed == Total(ws, (c: Counters) => c.completed) && k.abandoned == Total(ws, (c: Counters) => c.abandoned)
            && k.recoveries == Total(ws, (c: Counters) => c.recoveries)
            && k.readBytes == Total(ws, (c: Counters) => c.readBytes) && k.bodyBytes == Total(ws, (c: Counters) => c.bodyBytes)
            && k.connectErrors == Total(ws, (c: Counters) => c.connectErrors)
            && k.readErrors == Total(ws, (c: Counters) => c.readErrors)
            && k.writeErrors == Total(ws, (c: Counters) => c.writeErrors)
            && k.timeoutErrors == Total(ws, (c: Counters) => c.timeoutErrors)
  {
    if ws != [] { MergedSums(ws[..|ws| - 1]); }
  }

  lemma MergeNext(ws: seq<W>, k: nat)
    requires k < |ws|
    ensures MergeAll(ws[..k + 1]) == Merge(MergeAll(ws[..k]), ws[k].shared.counters)
  {
    assert ws[..k + 1][..k] == ws[..k];
  }

  /** The connections a worker gave up. */
  function LostOf(w: W): int { Sum(w.conns, GivenUp) }

  /** What a merged summary of finished workers satisfies, with `lost` connections given up. */
  predicate Conserved(k: Counters, requests: int, connections: int, lost: int)
  {
    && k.completed + k.abandoned == requests
    && 0 <= lost <= connections
    && k.recoveries <= 3 * (k.completed + lost)
    && Errors(k) <= 4 * k.completed + 4 * lost + 4 * connections
    && k.bodyBytes <= k.readBytes
  }

  lemma MergeConserves(a: Counters, b: Counters, ra: int, ca: int, la: int, rb: int, cb: int, lb: int)
    requires Conserved(a, ra, ca, la) && Conserved(b, rb, cb, lb)
    ensures Conserved(Merge(a, b), ra + rb, ca + cb, la + lb)
  {
  }

  predicate ReportedFor(w: W, part: seq<Limit>)
  {
    Conserved(w.shared.counters, PartTotal(part), PartSize(part), LostOf(w))
  }

  lemma ReportIsConserved(w: W, part: seq<Limit>)
    requires RunReport(w, part) && AllRequestLimits(part)
    ensures ReportedFor(w, part)
  {
    SumNonNegative(w.conns, GivenUp);
  }

  predicate EachReported(ws: seq<W>, parts: seq<seq<Limit>>)
  {
    |ws| == |parts| && forall i :: 0 <= i < |parts| ==> ReportedFor(ws[i], parts[i])
  }

  predicate ReportedAll(ws: seq<W>, parts: seq<seq<Limit>>)
  {
    Conserved(MergeAll(ws), Sum(parts, PartTotal), Sum(parts, PartSize), Sum(ws, LostOf))
  }

  lemma ReportAdded(ws: seq<W>, w: W, parts: seq<seq<Limit>>, part: seq<Limit>)
    requires ReportedAll(ws, parts) && ReportedFor(w, part)
    ensures ReportedAll(ws + [w], parts + [part])
  {
    assert (ws + [w])[..|ws|] == ws;
    SumAppend(ws, w, LostOf);
    SumAppend(parts, part, PartTotal);
    SumAppend(parts, part, PartSize);
    MergeConserves(MergeAll(ws), w.shared.counters, Sum(parts, PartTotal), Sum(parts, PartSize), Sum(ws, LostOf),
                   PartTotal(part), PartSize(part), LostOf(w));
  }

  lemma LastReport(ws: seq<W>, parts: seq<seq<Limit>>, k: nat)
    requires |ws| == |parts| == k + 1 && ReportedAll(ws[..k], parts[..k]) && ReportedFor(ws[k], parts[k])
    ensures ReportedAll(ws, parts)
  {
    ReportAdded(ws[..k], ws[k], parts[..k], parts[k]);
    assert ws[..k] + [ws[k]] == ws;
    assert parts[..k] + [parts[k]] == parts;
  }

  /** The reports of finished workers add up to that of the run. */
  lemma {:induction false} ReportsAddUp(ws: seq<W>, parts: seq<seq<Limit>>)
    requires EachReported(ws, parts)
    ensures ReportedAll(ws, parts)
  {
    if ws != [] {
      var k := |ws| - 1;
      ReportsAddUp(ws[..k], parts[..k]);
      LastReport(ws, parts, k);
    }
  }

  // ----- a run -----

  /** Everything the environment answers to one worker. */
  datatype Script = Script(dials: seq<seq<Dialing>>, rounds: seq<Round>)

  lemma PartsAreServable(parts: seq<seq<Limit>>, limits: seq<Limit>)
    requires Servable(limits) && AllRequestLimits(limits)
    requires forall w, l :: 0 <= w < |parts| && l in parts[w] ==> l in limits
    ensures forall w :: 0 <= w < |parts| ==> Servable(parts[w]) && AllRequestLimits(parts[w])
  {
  }

  /** The worker as its run leaves it. */
  ghost function FinalWorker(g: Grammar, timeout: nat, addresses: nat, part: seq<Limit>, script: Script): W
    requires 0 < addresses && Servable(part)
  {
    RunOn(g, timeout, addresses, part, script.dials, script.rounds).1
  }

  ghost predicate Finishes(g: Grammar, timeout: nat, addresses: nat, part: seq<Limit>, script: Script)
    requires 0 < addresses && Servable(part)
  {
    RunOn(g, timeout, addresses, part, script.dials, script.rounds).0.Finished?
  }

  /** The first workers finish on their scripts. */
  ghost predicate FirstFinish(g: Grammar, timeout: nat, addresses: nat, parts: seq<seq<Limit>>, scripts: seq<Script>, k: nat)
    requires 0 < addresses && k <= |parts| <= |scripts| && forall w :: 0 <= w < |parts| ==> Servable(parts[w])
  {
    forall w :: 0 <= w < k ==> Finishes(g, timeout, addresses, parts[w], scripts[w])
  }

  /** Every worker finishes on its script. */
  ghost predicate AllFinish(g: Grammar, timeout: nat, addresses: nat, parts: seq<seq<Limit>>, scripts: seq<Script>)
    requires 0 < addresses && forall w :: 0 <= w < |parts| ==> Servable(parts[w])
  {
    |parts| <= |scripts| && FirstFinish(g, timeout, addresses, parts, scripts, |parts|)
  }

  /** The workers as their runs leave them. */
  ghost function FinalWorkers(g: Grammar, timeout: nat, addresses: nat, parts: seq<seq<Limit>>, scripts: seq<Script>): (ws: seq<W>)
    requires 0 < addresses && |parts| <= |scripts| && forall w :: 0 <= w < |parts| ==> Servable(parts[w])
    ensures |ws| == |parts|
    ensures forall w :: 0 <= w < |ws| ==> ws[w] == FinalWorker(g, timeout, addresses, parts[w], scripts[w])
  {
    seq(|parts|, w requires 0 <= w < |parts| => FinalWorker(g, timeout, addresses, parts[w], scripts[w]))
  }

  /** One worker, from its opening to the end of its loop. */
  method RunWorker(grammar: Grammar, timeout: nat, addresses: nat, limits: seq<Limit>, script: Script)
    returns (finished: bool, summary: Counters)
    requires 0 < addresses && Servable(limits)
    ensures finished <==> Finishes(grammar, timeout, addresses, limits, script)
    ensures finished ==> summary == FinalWorker(grammar, timeout, addresses, limits, script).shared.counters
  {
    var worker := new Worker(grammar, timeout);
    var result := worker.Run(addresses, limits, script.dials, script.rounds);
    finished, summary := result.Finished?, worker.summary;
  }

  /** Runs one worker for each part and merges their summaries, until one of them does not finish. */
  method RunParts(grammar: Grammar, timeout: nat, addresses: nat, parts: seq<seq<Limit>>, scripts: seq<Script>)
    returns (summary: Option<Counters>)
    requires 0 < addresses && forall w :: 0 <= w < |parts| ==> Servable(parts[w])
    ensures summary == if AllFinish(grammar, timeout, addresses, parts, scripts)
                       then Some(MergeAll(FinalWorkers(grammar, timeout, addresses, parts, scripts))) else None
  {
    if |scripts| < |parts| { return None; }
    var merged := NOTHING;
    ghost var finals := FinalWorkers(grammar, timeout, addresses, parts, scripts);
    for w := 0 to |parts|
      invariant merged == MergeAll(finals[..w]) && FirstFinish(grammar, timeout, addresses, parts, scripts, w)
    {
      var finished, counters := RunWorker(grammar, timeout, addresses, parts[w], scripts[w]);
      if !finished { return None; }
      MergeNext(finals, w);
      merged := Merge(merged, counters);
    }
    assert finals[..|parts|] == finals;
    return Some(merged);
  }

  /** Every worker has recorded all its completed responses. */
  predicate AllRecorded(ws: seq<W>)
  {
    forall i :: 0 <= i < |ws| ==> Recorded(ws[i].shared)
  }

  lemma FinishedIsReported(g: Grammar, timeout: nat, addresses: nat, part: seq<Limit>, script: Script)
    requires 0 < addresses && Servable(part) && AllRequestLimits(part) && Finishes(g, timeout, addresses, part, script)
    ensures Recorded(FinalWorker(g, timeout, addresses, part, script).shared)
    ensures ReportedFor(FinalWorker(g, timeout, addresses, part, script), part)
  {
    RunOnReports(g, timeout, addresses, part, script.dials, script.rounds);
    ReportIsConserved(FinalWorker(g, timeout, addresses, part, script), part);
  }

  lemma FinishedRunReports(g: Grammar, timeout: nat, addresses: nat, parts: seq<seq<Limit>>, scripts: seq<Script>)
    requires 0 < addresses && forall w :: 0 <= w < |parts| ==> Servable(parts[w]) && AllRequestLimits(parts[w])
    requires AllFinish(g, timeout, addresses, parts, scripts)
    ensures EachReported(FinalWorkers(g, timeout, addresses, parts, scripts), parts)
    ensures AllRecorded(FinalWorkers(g, timeout, addresses, parts, scripts))
  {
    forall w | 0 <= w < |parts|
      ensures var final := FinalWorkers(g, timeout, addresses, parts, scripts)[w];
              Recorded(final.shared) && ReportedFor(final, parts[w])
    {
      FinishedIsReported(g, timeout, addresses, parts[w], scripts[w]);
    }
  }

  lemma FinishedRunIsConserved(g: Grammar, timeout: nat, addresses: nat, parts: seq<seq<Limit>>, scripts: seq<Script>)
    requires 0 < addresses && forall w :: 0 <= w < |parts| ==> Servable(parts[w]) && AllRequestLimits(parts[w])
    requires AllFinish(g, timeout, addresses, parts, scripts)
    ensures ReportedAll(FinalWorkers(g, timeout, addresses, parts, scripts), parts)
  {
    FinishedRunReports(g, timeout, addresses, parts, scripts);
    ReportsAddUp(FinalWorkers(g, timeout, addresses, parts, scripts), parts);
  }

  /**
   * A request-limited run. When every worker finishes, the summary is the merge of theirs, each requested response was
   * completed or abandoned, exactly once, whatever the sockets did and however the connections were spread over workers,
   * and the recoveries are bounded by the completed requests and the connections that were really given up.
   */
  method RunRequests(grammar: Grammar, timeout: nat, addresses: nat, connections: nat, threads: nat, requests: nat,
                     scripts: seq<Script>)
    returns (summary: Option<Counters>)
    requires 0 < addresses && 0 < connections && 0 < threads && 0 < requests
    ensures var parts := Deal(ConnectionLimits(connections, requests), Min(threads, Min(connections, requests)));
            && (forall w :: 0 <= w < |parts| ==> Servable(parts[w]))
            && if !AllFinish(grammar, timeout, addresses, parts, scripts) then summary == None
               else
                 var finals := FinalWorkers(grammar, timeout, addresses, parts, scripts);
                 && summary == Some(MergeAll(finals))
                 && Conserved(summary.value, requests, Min(connections, requests), Sum(finals, LostOf))
  {
    LimitsSplitEvenly(connections, requests);
    var limits := ConnectionLimits(connections, requests);
    var parts := DealOut(limits, Min(threads, |limits|));
    DealKeepsAll(limits, Min(threads, |limits|));
    PartsAreServable(parts, limits);
    summary := RunParts(grammar, timeout, addresses, parts, scripts);
    if summary.Some? { FinishedRunIsConserved(grammar, timeout, addresses, parts, scripts); }
  }
}
