/** A worker's whole run as a function of what it meets: opening its connections, then the main loop (src/engine/mod.rs). */
module WorkerRuns {
  import opened Prelude
  import opened Decoder
  import opened Connections
  import opened WorkerSpec
  import opened WorkerSteps
  import opened WorkerRules

  // ----- opening one connection -----

  /** What one connection attempt meets: the reachable addresses, the clock, and the entry drawn on success. */
  datatype Dialing = Dialing(reachable: set<nat>, now: int, draw: Draw)

  /** `Cut` is a script that ends before the worker does. */
  datatype Ending = Connected | LoadOver | Cut

  /** How the attempts for one limit end, after how many failures and when. */
  datatype Dialed = Reached(index: nat, attempts: nat, now: int, draw: Draw)
                  | GivenUpAt(now: int)
                  | Ended(ending: Ending, attempts: nat, now: int)

  function AttemptsOf(d: Dialed): nat
  {
    match d case Reached(_, attempts, _, _) => attempts case GivenUpAt(_) => 3 case Ended(_, attempts, _) => attempts
  }

  /** At most three attempts for a request limit, until the deadline for a duration limit; only a success draws an entry. */
  function DialOn(addresses: nat, limit: Limit, dials: seq<Dialing>, attempts: nat, clock: int): (r: Dialed)
    ensures r.Reached? ==> r.index < addresses && clock <= r.now
    ensures r.GivenUpAt? ==> clock <= r.now && limit.Requests?
    ensures r.Ended? ==> clock <= r.now && !r.ending.Connected?
    ensures limit.Requests? && attempts < 3 ==>
              (r.Reached? ==> r.attempts <= 2) && (r.Ended? ==> r.ending.Cut? && r.attempts <= 2)
  {
    if dials == [] then Ended(Cut, attempts, clock)
    else
      var now := Max(clock, dials[0].now);
      match ConnectFrom(addresses, 0, dials[0].reachable)
      case Some(index) => Reached(index, attempts, now, dials[0].draw)
      case None =>
        if limit.Deadline? && limit.at <= now then Ended(LoadOver, attempts + 1, now)
        else if limit.Requests? && attempts + 1 == 3 then GivenUpAt(now)
        else DialOn(addresses, limit, dials[1..], attempts + 1, now)
  }

  /**
   * An opening reaches the first address that its attempts reach; it gives a request limit up after exactly three
   * attempts that reach nothing, and a duration limit after the first such attempt past the deadline.
   */
  lemma {:induction false} DialMeans(addresses: nat, limit: Limit, dials: seq<Dialing>, attempts: nat, clock: int)
    requires limit.Requests? ==> attempts < 3
    ensures var d := DialOn(addresses, limit, dials, attempts, clock);
            match d
            case Reached(index, n, now, draw) =>
              && attempts <= n < attempts + |dials| && AllRefused(addresses, dials, n - attempts)
              && FirstReached(index, addresses, 0, dials[n - attempts].reachable) && draw == dials[n - attempts].draw
            case GivenUpAt(now) =>
              limit.Requests? && attempts < 3 <= attempts + |dials| && AllRefused(addresses, dials, 3 - attempts)
            case Ended(LoadOver, n, now) =>
              && limit.Deadline? && limit.at <= now && attempts < n <= attempts + |dials|
              && AllRefused(addresses, dials, n - attempts)
            case Ended(_, n, now) => n == attempts + |dials| && AllRefused(addresses, dials, |dials|)
    decreases |dials|
  {
    if dials != [] && ConnectFrom(addresses, 0, dials[0].reachable).None? {
      var now := Max(clock, dials[0].now);
      if !(limit.Deadline? && limit.at <= now) && !(limit.Requests? && attempts + 1 == 3) {
        DialMeans(addresses, limit, dials[1..], attempts + 1, now);
        forall a | 0 <= a < |dials| - 1 ensures dials[1..][a] == dials[a + 1] {}
        LaterRefused(addresses, dials);
      }
    }
  }

  /** The first attempts reach no address. */
  predicate AllRefused(addresses: nat, dials: seq<Dialing>, n: nat)
  {
    n <= |dials| && forall a :: 0 <= a < n ==> NoneReached(addresses, 0, dials[a].reachable)
  }

  lemma LaterRefused(addresses: nat, dials: seq<Dialing>)
    requires dials != [] && NoneReached(addresses, 0, dials[0].reachable)
    ensures forall n: nat :: AllRefused(addresses, dials[1..], n) ==> AllRefused(addresses, dials, n + 1)
  {
    forall n: nat | AllRefused(addresses, dials[1..], n) ensures AllRefused(addresses, dials, n + 1) {
      forall a | 0 <= a < n + 1 ensures NoneReached(addresses, 0, dials[a].reachable) {
        if 0 < a { assert dials[a] == dials[1..][a - 1]; }
      }
    }
  }

  /** Every failed attempt is a failure to connect. */
  lemma RefusalsAreCounted(w: W, addresses: nat, limit: Limit, dials: seq<Dialing>)
    ensures var w' := OpenOn(w, addresses, limit, dials).1;
            var k, k' := w.shared.counters, w'.shared.counters;
            && k'.connectErrors == k.connectErrors + AttemptsOf(DialOn(addresses, limit, dials, 0, w.shared.clock))
            && k'.readErrors == k.readErrors && k'.writeErrors == k.writeErrors && k'.timeoutErrors == k.timeoutErrors
            && k'.recoveries == k.recoveries && k'.completed == k.completed
  {
  }

  /** A connection just opened and registered, before its first event. */
  function Fresh(addresses: nat, index: nat, draw: Draw, limit: Limit, now: int): Conn
  {
    Opened(addresses, index, draw, limit, now).(interest := ReadWrite)
  }

  function CountRefusals(k: Counters, attempts: nat, abandoned: nat): Counters
  {
    k.(connectErrors := k.connectErrors + attempts, abandoned := k.abandoned + abandoned)
  }

  /** The worker after some failed attempts, at a later time. */
  function AfterAttempts(w: W, now: int, attempts: nat): W
  {
    w.(shared := w.shared.(clock := now, counters := CountRefusals(w.shared.counters, attempts, 0)))
  }

  /** The worker after one more connection is opened, as if it were scheduled at once. */
  function WithOpened(w: W, c: Conn): W
  {
    var s := w.shared;
    W(w.conns + [c],
      s.(deadlines := AddTimer(s.deadlines, NextDeadline(c, s.timeout), |w.conns|, c.generation),
         active := s.active + 1, drawn := s.drawn + multiset{c.request.entry}),
      w.refused, w.slots + 1)
  }

  /** The worker after all requests of a limit are given up. */
  function GiveUp(w: W, requests: nat): W
  {
    w.(shared := w.shared.(counters := CountRefusals(w.shared.counters, 0, requests)),
       refused := w.refused + requests, slots := w.slots + 1)
  }

  function OpenWith(w: W, addresses: nat, limit: Limit, d: Dialed): (Ending, W)
    requires d.GivenUpAt? ==> limit.Requests?
  {
    match d
    case Reached(index, attempts, now, draw) =>
      (Connected, WithOpened(AfterAttempts(w, now, attempts), Fresh(addresses, index, draw, limit, now)))
    case GivenUpAt(now) => (Connected, GiveUp(AfterAttempts(w, now, 3), limit.count))
    case Ended(ending, attempts, now) => (ending, AfterAttempts(w, now, attempts))
  }

  /** One limit: a connection, an abandonment of all its requests, or the end of the worker. */
  function OpenOn(w: W, addresses: nat, limit: Limit, dials: seq<Dialing>): (Ending, W)
  {
    OpenWith(w, addresses, limit, DialOn(addresses, limit, dials, 0, w.shared.clock))
  }

  function EmptyWorker(timeout: nat): W
  {
    W([], Shared([], [], NOTHING, 0, 0, timeout, multiset{}, multiset{}, [], {}), 0, 0)
  }

  function DialsAt(dials: seq<seq<Dialing>>, k: nat): seq<Dialing>
  {
    if k < |dials| then dials[k] else []
  }

  /** A connection for every limit, in order. */
  function OpeningsOn(w: W, addresses: nat, limits: seq<Limit>, dials: seq<seq<Dialing>>): (Ending, W)
  {
    if limits == [] then (Connected, w)
    else
      var k := |limits| - 1;
      var (ending, w1) := OpeningsOn(w, addresses, limits[..k], dials);
      if ending.Connected? then OpenOn(w1, addresses, limits[k], DialsAt(dials, k)) else (ending, w1)
  }

  lemma OpeningsNext(w: W, addresses: nat, limits: seq<Limit>, dials: seq<seq<Dialing>>, k: nat)
    requires k < |limits|
    ensures var (ending, w1) := OpeningsOn(w, addresses, limits[..k], dials);
            OpeningsOn(w, addresses, limits[..k + 1], dials) ==
            if ending.Connected? then OpenOn(w1, addresses, limits[k], DialsAt(dials, k)) else (ending, w1)
  {
    assert limits[..k + 1][..k] == limits[..k];
  }

  /** Once it has ended, opening goes no further. */
  lemma {:induction false} OpeningsStop(w: W, addresses: nat, limits: seq<Limit>, dials: seq<seq<Dialing>>, k: nat)
    requires k <= |limits|
    requires OpeningsOn(w, addresses, limits[..k], dials).0.Connected? ==> k == |limits|
    ensures OpeningsOn(w, addresses, limits, dials) == OpeningsOn(w, addresses, limits[..k], dials)
  {
    if k == |limits| {
      assert limits[..k] == limits;
    } else {
      assert limits[..|limits| - 1][..k] == limits[..k];
      OpeningsStop(w, addresses, limits[..|limits| - 1], dials, k);
    }
  }

  /** The deadline queue once the first connections are scheduled, in order. */
  function FirstDeadlines(conns: seq<Conn>, timeout: nat): seq<Entry>
  {
    if conns == [] then []
    else
      var last := |conns| - 1;
      AddTimer(FirstDeadlines(conns[..last], timeout), NextDeadline(conns[last], timeout), last, conns[last].generation)
  }

  lemma FirstDeadlinesAppend(conns: seq<Conn>, c: Conn, timeout: nat)
    ensures FirstDeadlines(conns + [c], timeout) ==
            AddTimer(FirstDeadlines(conns, timeout), NextDeadline(c, timeout), |conns|, c.generation)
  {
    assert (conns + [c])[..|conns|] == conns;
  }

  /** One more connection, with the first deadlines and the active count derived from the connections. */
  lemma PlanAppend(conns: seq<Conn>, s: Shared, refused: nat, slots: nat, c: Conn)
    requires s.deadlines == FirstDeadlines(conns, s.timeout) && s.active == |conns|
    ensures W(conns + [c], s.(drawn := s.drawn + multiset{c.request.entry}, active := |conns + [c]|,
                              deadlines := FirstDeadlines(conns + [c], s.timeout)), refused, slots + 1) ==
            WithOpened(W(conns, s, refused, slots), c)
  {
    FirstDeadlinesAppend(conns, c, s.timeout);
  }

  lemma FirstDeadlinesNext(conns: seq<Conn>, timeout: nat, t: nat)
    requires t < |conns|
    ensures FirstDeadlines(conns[..t + 1], timeout) ==
            AddTimer(FirstDeadlines(conns[..t], timeout), NextDeadline(conns[t], timeout), t, conns[t].generation)
  {
    assert conns[..t + 1][..t] == conns[..t];
  }

  // ----- opening keeps the invariant -----

  lemma {:induction false} NoTimerYet(q: seq<Entry>, token: nat, generation: nat)
    requires Tokens(q, token)
    ensures Matching(q, token, generation) == [] && Bounded(q, token, generation)
  {
    if q != [] {
      assert q[0] in q;
      assert forall e :: e in q[1..] ==> e in q;
      NoTimerYet(q[1..], token, generation);
    }
  }

  lemma NewTimer(q: seq<Entry>, at: int, n: nat)
    requires Sorted(q) && Tokens(q, n)
    ensures var e := Entry(at, n, 0);
            var q' := Insert(q, e);
            && Sorted(q') && Tokens(q', n + 1) && OnlyFor(q, q', n) && Bounded(q', n, 0) && Matching(q', n, 0) == [e]
  {
    var e := Entry(at, n, 0);
    NoTimerYet(q, n, 0);
    MatchingInsert(q, e, n, 0);
    InsertOnlyFor(q, e);
    InsertBounded(q, e, 0);
    forall x | x in Insert(q, e) ensures x.token < n + 1 { assert x in multiset(Insert(q, e)); }
  }

  /** The new connection has its own timer. */
  lemma NewIsCovered(w: W, c: Conn, s: Shared)
    requires Inv(w) && Sorted(w.shared.deadlines) && w.shared.pacing == []
    requires c == Fresh(c.addresses, c.addressIndex, c.request, c.limit, w.shared.clock)
    requires c.addressIndex < c.addresses && (c.limit.Requests? ==> 0 < c.limit.count)
    requires s.deadlines == AddTimer(w.shared.deadlines, NextDeadline(c, w.shared.timeout), |w.conns|, 0)
    requires s.pacing == [] && s.handed == w.shared.handed && s.clock == w.shared.clock && s.timeout == w.shared.timeout
    ensures Core(c, s, |w.conns|) && Covered(c, s, |w.conns|)
    ensures OnlyFor(w.shared.deadlines, s.deadlines, |w.conns|) && Tokens(s.deadlines, |w.conns| + 1)
  {
    NewTimer(w.shared.deadlines, NextDeadline(c, w.shared.timeout).value, |w.conns|);
  }

  /** The others are not affected by it. */
  lemma StillCovered(w: W, t: nat, s: Shared)
    requires Inv(w) && t < |w.conns| && Sorted(s.deadlines) && s.pacing == w.shared.pacing && s.handed == w.shared.handed
    requires s.clock == w.shared.clock && s.timeout == w.shared.timeout
    requires OnlyFor(w.shared.deadlines, s.deadlines, |w.conns|)
    ensures Core(w.conns[t], s, t) && Covered(w.conns[t], s, t)
  {
    assert Core(w.conns[t], w.shared, t) && Covered(w.conns[t], w.shared, t);
  }

  lemma FixedBalance(w: W, c: Conn, attempts: nat)
    requires Balance(w) && AllFixed(w.conns) && c.limit.Requests? && 0 < c.limit.count && attempts <= 2
    requires c == Fresh(c.addresses, c.addressIndex, c.request, c.limit, w.shared.clock)
    ensures var w' := WithOpened(AfterAttempts(w, w.shared.clock, attempts), c);
            && w'.shared.counters.recoveries <= Sum(w'.conns, RecoveryCredit)
            && Errors(w'.shared.counters) <= Sum(w'.conns, FailureCredit(w'.shared.clock)) + 3 * w'.slots
            && (forall x: nat :: w'.shared.drawn[x] == w'.shared.finished[x] + Sum(w'.conns, InFlightOf(x)))
            && |w'.shared.drawn| == Sum(w'.conns, DrawsOf)
  {
    var w' := WithOpened(AfterAttempts(w, w.shared.clock, attempts), c);
    SumAppend(w.conns, c, RecoveryCredit);
    SumAppend(w.conns, c, FailureCredit(w.shared.clock));
    SumAppend(w.conns, c, DrawsOf);
    forall x: nat ensures w'.shared.drawn[x] == w'.shared.finished[x] + Sum(w'.conns, InFlightOf(x)) {
      SumAppend(w.conns, c, InFlightOf(x));
    }
  }

  lemma OpenBalance(w: W, c: Conn, attempts: nat)
    requires Balance(w)
    requires c == Fresh(c.addresses, c.addressIndex, c.request, c.limit, w.shared.clock)
    requires c.limit.Requests? ==> 0 < c.limit.count && attempts <= 2
    ensures Balance(WithOpened(AfterAttempts(w, w.shared.clock, attempts), c))
  {
    var w' := WithOpened(AfterAttempts(w, w.shared.clock, attempts), c);
    SumAppend(w.conns, c, CompletedOf);
    SumAppend(w.conns, c, AbandonedOf);
    SumAppend(w.conns, c, HeldOf);
    SumAppend(w.conns, c, UnfinishedOf);
    if AllFixed(w'.conns) {
      assert forall x :: x in w.conns ==> x in w'.conns;
      assert c in w'.conns;
      FixedBalance(w, c, attempts);
    }
  }

  lemma OpenedKeepsInv(w: W, c: Conn, attempts: nat)
    requires Inv(w) && Sorted(w.shared.deadlines) && w.shared.pacing == []
    requires c == Fresh(c.addresses, c.addressIndex, c.request, c.limit, w.shared.clock)
    requires c.addressIndex < c.addresses && (c.limit.Requests? ==> 0 < c.limit.count && attempts <= 2)
    ensures Inv(WithOpened(AfterAttempts(w, w.shared.clock, attempts), c))
  {
    var w', n := WithOpened(AfterAttempts(w, w.shared.clock, attempts), c), |w.conns|;
    NewIsCovered(w, c, w'.shared);
    OpenBalance(w, c, attempts);
    forall t | 0 <= t < |w'.conns| ensures Core(w'.conns[t], w'.shared, t) && Covered(w'.conns[t], w'.shared, t) {
      if t < n { StillCovered(w, t, w'.shared); }
    }
  }

  lemma GiveUpKeepsInv(w: W, requests: nat)
    requires Inv(w)
    ensures Inv(GiveUp(AfterAttempts(w, w.shared.clock, 3), requests))
  {
    var w' := GiveUp(AfterAttempts(w, w.shared.clock, 3), requests);
    forall t | 0 <= t < |w.conns| ensures Core(w.conns[t], w'.shared, t) && Covered(w.conns[t], w'.shared, t) {
      assert Core(w.conns[t], w.shared, t) && Covered(w.conns[t], w.shared, t);
    }
  }

  // ----- the limits a worker serves -----

  function CountOf(limit: Limit): int { if limit.Requests? then limit.count else 0 }

  predicate AllRequestLimits(limits: seq<Limit>)
  {
    forall l :: l in limits ==> l.Requests?
  }

  /** Limits that make sense: a request limit asks for something. */
  predicate Servable(limits: seq<Limit>)
  {
    forall l :: l in limits && l.Requests? ==> 0 < l.count
  }

  /** Which limits a worker serves: those of its connections, and those given up while opening. */
  predicate Serves(w: W, limits: seq<Limit>)
  {
    && w.slots == |limits| && |w.conns| <= |limits|
    && (AllRequestLimits(limits) ==> AllFixed(w.conns) && w.refused + Sum(w.conns, LimitOf) == Sum(limits, CountOf))
  }

  /** The worker while it opens its connections. */
  ghost predicate OpenedFor(w: W, limits: seq<Limit>)
  {
    Inv(w) && Serves(w, limits) && Sorted(w.shared.deadlines) && w.shared.pacing == []
  }

  lemma AllRequests(limits: seq<Limit>, limit: Limit)
    ensures AllRequestLimits(limits + [limit]) <==> limit.Requests? && AllRequestLimits(limits)
  {
    assert limit in limits + [limit];
    assert forall l :: l in limits ==> l in limits + [limit];
  }

  lemma ServesOneMore(w: W, w': W, limits: seq<Limit>, limit: Limit)
    requires Serves(w, limits) && w'.slots == w.slots + 1
    requires (exists c :: w'.conns == w.conns + [c] && c.limit == limit && w'.refused == w.refused) ||
             (limit.Requests? && w'.conns == w.conns && w'.refused == w.refused + limit.count)
    ensures Serves(w', limits + [limit])
  {
    AllRequests(limits, limit);
    SumAppend(limits, limit, CountOf);
    if c :| w'.conns == w.conns + [c] && c.limit == limit && w'.refused == w.refused {
      SumAppend(w.conns, c, LimitOf);
    }
  }

  /** Opening for one more limit. */
  lemma OpenKeeps(w: W, addresses: nat, limits: seq<Limit>, limit: Limit, d: Dialed)
    requires OpenedFor(w, limits) && 0 < addresses && (limit.Requests? ==> 0 < limit.count)
    requires d.Reached? ==> d.index < addresses && w.shared.clock <= d.now && (limit.Requests? ==> d.attempts <= 2)
    requires d.GivenUpAt? ==> w.shared.clock <= d.now && limit.Requests?
    requires !d.Ended?
    ensures OpenedFor(OpenWith(w, addresses, limit, d).1, limits + [limit])
  {
    var w' := OpenWith(w, addresses, limit, d).1;
    TickKeepsInv(w, d.now);
    var w1 := w.(shared := Tick(w.shared, d.now));
    if d.Reached? {
      var c := Fresh(addresses, d.index, d.draw, limit, d.now);
      OpenedKeepsInv(w1, c, d.attempts);
      assert w' == WithOpened(AfterAttempts(w1, w1.shared.clock, d.attempts), c);
      assert w'.conns == w.conns + [c];
    } else {
      GiveUpKeepsInv(w1, limit.count);
      assert w' == GiveUp(AfterAttempts(w1, w1.shared.clock, 3), limit.count);
    }
    ServesOneMore(w, w', limits, limit);
  }

  lemma EmptyIsOpened(timeout: nat)
    ensures OpenedFor(EmptyWorker(timeout), [])
  {
  }

  // ----- reports -----

  /** What holds of the counters at every moment of a run. */
  predicate Progress(k: Counters, limits: seq<Limit>)
  {
    AllRequestLimits(limits) ==>
      && k.completed + k.abandoned <= Sum(limits, CountOf)
      && k.recoveries <= 3 * (k.completed + |limits|)
      && Errors(k) <= 4 * k.completed + 8 * |limits|
  }

  /** What a worker that ran to the end reports, and what its history says. */
  ghost predicate RunReport(w: W, limits: seq<Limit>)
  {
    var k, lost := w.shared.counters, Sum(w.conns, GivenUp);
    && k.bodyBytes <= k.readBytes && Recorded(w.shared)
    && (AllRequestLimits(limits) ==>
          && k.completed + k.abandoned == Sum(limits, CountOf)
          && lost <= |limits|
          && k.recoveries <= 3 * (k.completed + lost)
          && Errors(k) <= 4 * k.completed + 4 * lost + 4 * |limits|
          && (k.abandoned == 0 ==> w.shared.drawn == w.shared.finished && |w.shared.finished| == k.completed))
  }

  /** A worker on its way, finished or not. */
  lemma RunIsBounded(w: W, limits: seq<Limit>)
    requires Inv(w) && Serves(w, limits)
    ensures Progress(w.shared.counters, limits)
  {
    if AllRequestLimits(limits) {
      Conservation(w);
      RecoveryBound(w);
      FailureBound(w);
    }
  }

  lemma EndOfRun(w: W, limits: seq<Limit>)
    requires Inv(w) && Serves(w, limits) && w.shared.active == 0
    ensures RunReport(w, limits)
  {
    SumNonNegative(w.conns, HeldOf);
    if AllRequestLimits(limits) {
      Conservation(w);
      RecoveryBound(w);
      FailureBound(w);
      if w.shared.counters.abandoned == 0 { DrawnIsFinished(w); }
    }
  }

  /** A script that ends while the worker is still connecting. */
  lemma CutIsBounded(w: W, limits: seq<Limit>, limit: Limit, attempts: nat, rest: seq<Limit>)
    requires OpenedFor(w, limits) && (limit.Requests? ==> attempts <= 2) && Servable(limits + [limit] + rest)
    ensures Progress(CountRefusals(w.shared.counters, attempts, 0), limits + [limit] + rest)
  {
    var all := limits + [limit] + rest;
    if AllRequestLimits(all) {
      assert forall l :: l in limits ==> l in all;
      assert limit in all;
      Conservation(w);
      RecoveryBound(w);
      FailureBound(w);
      SumConcat(limits + [limit], rest, CountOf);
      SumAppend(limits, limit, CountOf);
      assert forall l :: l in rest ==> l in all;
      SumNonNegative(rest, CountOf);
    }
  }

  /** Opening: served and sound when all are connected, and bounded when the script ends first. */
  lemma {:induction false} OpeningsKeep(timeout: nat, addresses: nat, limits: seq<Limit>, dials: seq<seq<Dialing>>, rest: seq<Limit>)
    requires 0 < addresses && Servable(limits + rest)
    ensures var (ending, w) := OpeningsOn(EmptyWorker(timeout), addresses, limits, dials);
            && (ending.Connected? ==> OpenedFor(w, limits))
            && (ending.Cut? ==> Progress(w.shared.counters, limits + rest))
    decreases |limits|
  {
    if limits == [] {
      EmptyIsOpened(timeout);
    } else {
      var k := |limits| - 1;
      var limit := limits[k];
      assert limits == limits[..k] + [limit] && limits + rest == limits[..k] + ([limit] + rest);
      OpeningsKeep(timeout, addresses, limits[..k], dials, [limit] + rest);
      var (ending, w1) := OpeningsOn(EmptyWorker(timeout), addresses, limits[..k], dials);
      if ending.Connected? {
        assert limit in limits + rest;
        var d := DialOn(addresses, limit, DialsAt(dials, k), 0, w1.shared.clock);
        if d.Ended? {
          if d.ending.Cut? {
            assert limits[..k] + [limit] + rest == limits + rest;
            CutIsBounded(w1, limits[..k], limit, d.attempts, rest);
          }
        } else {
          OpenKeeps(w1, addresses, limits[..k], limit, d);
        }
      }
    }
  }

  // ----- the whole run -----

  lemma {:induction false} LimitsAddUp(conns: seq<Conn>, conns': seq<Conn>)
    requires |conns'| == |conns| && forall i :: 0 <= i < |conns| ==> conns'[i].limit == conns[i].limit
    ensures Sum(conns', LimitOf) == Sum(conns, LimitOf)
    ensures AllFixed(conns) ==> AllFixed(conns')
  {
    if conns != [] {
      LimitsAddUp(conns[1..], conns'[1..]);
      assert AllFixed(conns) ==> AllFixed(conns[1..]);
      assert conns[0] in conns && conns' == [conns'[0]] + conns'[1..];
    }
  }

  lemma ServesStill(w: W, w': W, limits: seq<Limit>)
    requires Serves(w, limits) && SameLimits(w, w')
    ensures Serves(w', limits)
  {
    LimitsAddUp(w.conns, w'.conns);
  }

  datatype Result = Finished | DeadlinePassed | Unfinished | Failed(failure: Failure)

  /** The whole worker: open, then loop until no connection is active. After a failure there is no worker to speak of. */
  ghost function RunOn(g: Grammar, timeout: nat, addresses: nat, limits: seq<Limit>, dials: seq<seq<Dialing>>, rounds: seq<Round>)
    : (r: (Result, W))
    requires 0 < addresses && Servable(limits)
  {
    assert limits + [] == limits;
    OpeningsKeep(timeout, addresses, limits, dials, []);
    var (ending, w) := OpeningsOn(EmptyWorker(timeout), addresses, limits, dials);
    match ending
    case LoadOver => (DeadlinePassed, w)
    case Cut => (Unfinished, w)
    case Connected =>
      match RoundsOn(g, w, rounds)
      case Err(f) => (Failed(f), w)
      case Ok((w', finished)) => (if finished then Finished else Unfinished, w')
  }

  /** A finished worker reports, an unfinished one is within its bounds, and a failed one met one of three failures. */
  lemma RunOnReports(g: Grammar, timeout: nat, addresses: nat, limits: seq<Limit>, dials: seq<seq<Dialing>>, rounds: seq<Round>)
    requires 0 < addresses && Servable(limits)
    ensures var (result, w) := RunOn(g, timeout, addresses, limits, dials, rounds);
            && (result.Finished? ==> RunReport(w, limits))
            && (result.Unfinished? ==> Progress(w.shared.counters, limits))
            && (result.Failed? ==> result.failure in ENDINGS)
  {
    assert limits + [] == limits;
    OpeningsKeep(timeout, addresses, limits, dials, []);
    var (ending, w) := OpeningsOn(EmptyWorker(timeout), addresses, limits, dials);
    if ending.Connected? {
      var r := RoundsOn(g, w, rounds);
      if r.Ok? {
        ServesStill(w, r.value.0, limits);
        RunIsBounded(r.value.0, limits);
        if r.value.1 { EndOfRun(r.value.0, limits); }
      }
    }
  }
}
