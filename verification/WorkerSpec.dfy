/** What every worker step keeps: timers, registration, and the accounts of requests, failures and bytes. */
module WorkerSpec {
  import opened Prelude
  import opened Decoder
  import opened ChunkedRoundTrip
  import opened Connections

  // ----- timer queues -----

  /** A timer for a connection, valid while the connection keeps that generation. */
  datatype Entry = Entry(at: int, token: nat, generation: nat)

  predicate Before(a: Entry, b: Entry)
  {
    a.at < b.at || (a.at == b.at && (a.token < b.token || (a.token == b.token && a.generation <= b.generation)))
  }

  predicate Sorted(q: seq<Entry>)
  {
    forall i, j :: 0 <= i < j < |q| ==> Before(q[i], q[j])
  }

  lemma SortedInFront(first: Entry, q: seq<Entry>, e: Entry, rest: seq<Entry>)
    requires Sorted([first] + q) && Before(first, e) && Sorted(rest)
    requires multiset(rest) == multiset(q) + multiset{e}
    ensures Sorted([first] + rest)
  {
    forall x | x in rest ensures Before(first, x) {
      assert x in multiset(rest);
      if x != e {
        assert x in q;
        var i :| 0 <= i < |q| && q[i] == x;
        assert x == ([first] + q)[i + 1] && first == ([first] + q)[0];
      }
    }
  }

  /** Pushing onto the min-heap, seen as the sorted sequence of its entries. */
  function Insert(q: seq<Entry>, e: Entry): (r: seq<Entry>)
    ensures multiset(r) == multiset(q) + multiset{e}
    ensures Sorted(q) ==> Sorted(r)
  {
    if q == [] then [e]
    else if Before(e, q[0]) then
      assert [e] + q == [e] + ([q[0]] + q[1..]);
      [e] + q
    else
      var rest := Insert(q[1..], e);
      assert q == [q[0]] + q[1..];
      assert Sorted(q) ==> Sorted([q[0]] + rest) by {
        if Sorted(q) { SortedInFront(q[0], q[1..], e, rest); }
      }
      [q[0]] + rest
  }

  predicate IsFor(e: Entry, token: nat, generation: nat)
  {
    e.token == token && e.generation == generation
  }

  /** The entries of a queue for one connection at one generation. */
  function Matching(q: seq<Entry>, token: nat, generation: nat): seq<Entry>
  {
    if q == [] then []
    else (if IsFor(q[0], token, generation) then [q[0]] else []) + Matching(q[1..], token, generation)
  }

  lemma {:induction false} MatchingInsert(q: seq<Entry>, e: Entry, token: nat, generation: nat)
    ensures !IsFor(e, token, generation) ==> Matching(Insert(q, e), token, generation) == Matching(q, token, generation)
    ensures IsFor(e, token, generation) && Matching(q, token, generation) == [] ==>
              Matching(Insert(q, e), token, generation) == [e]
  {
    if q == [] || Before(e, q[0]) {
      assert Insert(q, e) == [e] + q;
      assert ([e] + q)[1..] == q;
    } else {
      MatchingInsert(q[1..], e, token, generation);
      assert Insert(q, e)[1..] == Insert(q[1..], e);
    }
  }

  /** No entry of the connection carries a later generation than its own. */
  predicate Bounded(q: seq<Entry>, token: nat, generation: nat)
  {
    forall e :: e in q && e.token == token ==> e.generation <= generation
  }

  lemma {:induction false} NoneAbove(q: seq<Entry>, token: nat, bound: nat, generation: nat)
    requires Bounded(q, token, bound) && bound < generation
    ensures Matching(q, token, generation) == []
  {
    if q != [] {
      assert q[0] in q;
      assert forall e :: e in q[1..] ==> e in q;
      NoneAbove(q[1..], token, bound, generation);
    }
  }

  lemma {:induction false} MatchingIn(q: seq<Entry>, e: Entry)
    requires e in q
    ensures e in Matching(q, e.token, e.generation)
  {
    if q[0] != e {
      MatchingIn(q[1..], e);
    }
  }

  lemma {:induction false} MatchingSound(q: seq<Entry>, token: nat, generation: nat, e: Entry)
    requires e in Matching(q, token, generation)
    ensures e in q && IsFor(e, token, generation)
  {
    if !(IsFor(q[0], token, generation) && e == q[0]) {
      MatchingSound(q[1..], token, generation, e);
    }
  }

  /** The queue after a push touches no other connection's timers. */
  ghost predicate OnlyFor(q: seq<Entry>, q': seq<Entry>, token: nat)
  {
    && (forall t: nat, g: nat :: t != token ==> Matching(q', t, g) == Matching(q, t, g))
    && (forall e :: e in q' && e.token != token ==> e in q)
  }

  lemma InsertOnlyFor(q: seq<Entry>, e: Entry)
    ensures OnlyFor(q, Insert(q, e), e.token)
  {
    forall t: nat, g: nat | t != e.token ensures Matching(Insert(q, e), t, g) == Matching(q, t, g) {
      MatchingInsert(q, e, t, g);
    }
    forall x | x in Insert(q, e) && x.token != e.token ensures x in q {
      assert x in multiset(Insert(q, e));
    }
  }

  lemma InsertBounded(q: seq<Entry>, e: Entry, generation: nat)
    requires Bounded(q, e.token, generation) && e.generation <= generation
    ensures Bounded(Insert(q, e), e.token, generation)
  {
    forall x | x in Insert(q, e) && x.token == e.token ensures x.generation <= generation {
      assert x in multiset(Insert(q, e));
    }
  }

  // ----- one connection and what the worker shares -----

  datatype Counters = Counters(
    completed: nat, abandoned: nat, recoveries: nat, readBytes: nat, bodyBytes: nat,
    connectErrors: nat, readErrors: nat, writeErrors: nat, timeoutErrors: nat)

  const NOTHING := Counters(0, 0, 0, 0, 0, 0, 0, 0, 0)

  function Errors(k: Counters): nat
  {
    k.connectErrors + k.readErrors + k.writeErrors + k.timeoutErrors
  }

  /** A connection handed over to socket writability when its slot came, at that generation. */
  datatype Handover = Handover(token: nat, generation: nat)

  /** A completed response as the summary records it: the sequence entry, the status, and the latency in nanoseconds. */
  datatype Answer = Answer(entry: nat, status: nat, latency: nat)

  function EntriesOf(answers: seq<Answer>): multiset<nat>
  {
    if answers == [] then multiset{}
    else EntriesOf(answers[..|answers| - 1]) + multiset{answers[|answers| - 1].entry}
  }

  lemma EntriesNext(answers: seq<Answer>, answer: Answer)
    ensures EntriesOf(answers + [answer]) == EntriesOf(answers) + multiset{answer.entry}
  {
    assert (answers + [answer])[..|answers|] == answers;
  }

  /** Every completed response has been recorded, for its entry. */
  predicate Recorded(s: Shared)
  {
    |s.answers| == s.counters.completed && EntriesOf(s.answers) == s.finished
  }

  /**
   * The history: `drawn` and `finished` are the sequence entries taken and completed, `answers` the responses recorded,
   * and `handed` the hand-overs.
   */
  datatype Shared = Shared(
    deadlines: seq<Entry>, pacing: seq<Entry>, counters: Counters, active: int, clock: int, timeout: nat,
    drawn: multiset<nat>, finished: multiset<nat>, answers: seq<Answer>, handed: set<Handover>)

  /** Whether the connection was handed over and nothing has changed its generation since. */
  predicate HandedOver(c: Conn, s: Shared, token: nat)
  {
    Handover(token, c.generation) in s.handed
  }

  predicate LocalInv(c: Conn, now: int)
  {
    && c.addressIndex < c.addresses
    && c.pendingRead == 0 && c.pendingRecoveries == 0
    && Configured(c.decoder) && Contiguous(c.sent, c.writeOffset)
    && (c.limit.Requests? ==> c.completed <= c.limit.count && c.recoveryAttempts <= FIXED_REQUEST_RECOVERY_ATTEMPTS)
    && (c.limit.Requests? && c.completed == c.limit.count ==> c.done && c.recoveryAttempts == 0)
    && (c.done ==> c.interest.Unregistered?)
    && (!c.done ==> Running(c, now))
  }

  /** A connection that is not done. Its socket is registered unless it waits for its slot to reconnect. */
  predicate Running(c: Conn, now: int)
  {
    && (c.interest.Unregistered? <==> c.reconnectAtPace)
    && (c.reconnectAtPace ==> c.awaitingPace)
    && (c.awaitingPace ==> c.started.None? && c.request.notBefore.Some?)
    && (c.started.None? ==> c.writeOffset == 0)
    && c.writeOffset <= c.request.length
    && (c.started.Some? ==> c.started.value <= now && !Early(c, now))
  }

  /** The slot has come, and a writable event will start the request. */
  predicate Ready(c: Conn, now: int)
  {
    c.interest.ReadWrite? && c.started.None? && c.request.notBefore.Some? && c.request.notBefore.value <= now
  }

  /** A request that is partly written is watched for writability. */
  predicate Watched(c: Conn)
  {
    c.started.Some? && c.writeOffset < c.request.length ==> c.interest.ReadWrite?
  }

  /** Exactly one live timer, in the right queue and at the right time; none only after a hand-over to writability. */
  predicate Covered(c: Conn, s: Shared, token: nat)
  {
    var d := Matching(s.deadlines, token, c.generation);
    var p := Matching(s.pacing, token, c.generation);
    c.done || (Watched(c) &&
    if HandedOver(c, s, token) then d == [] && p == [] && Ready(c, s.clock)
    else if c.awaitingPace then
      c.request.notBefore.Some? && d == [] && p == [Entry(PacingDeadline(c).value, token, c.generation)]
    else d == [Entry(NextDeadline(c, s.timeout).value, token, c.generation)] && p == [])
  }

  /** No hand-over of the connection carries a later generation than its own. */
  predicate PastHandovers(handed: set<Handover>, token: nat, generation: nat)
  {
    forall h :: h in handed && h.token == token ==> h.generation <= generation
  }

  predicate Core(c: Conn, s: Shared, token: nat)
  {
    && LocalInv(c, s.clock)
    && Sorted(s.deadlines) && Sorted(s.pacing)
    && Bounded(s.deadlines, token, c.generation) && Bounded(s.pacing, token, c.generation)
    && PastHandovers(s.handed, token, c.generation)
  }

  // ----- contributions of a connection to the worker's accounts -----

  function CompletedOf(c: Conn): int { c.completed }

  function AbandonedOf(c: Conn): int
  {
    if c.done && c.limit.Requests? then c.limit.count - c.completed else 0
  }

  function UnfinishedOf(c: Conn): int { if c.done then 0 else 1 }

  function HeldOf(c: Conn): int { if c.done then 0 else Held(c.decoder) }

  function RecoveryCredit(c: Conn): int { 3 * c.completed + c.recoveryAttempts }

  /** Whether the current request can no longer be deferred to its slot. */
  function DeferSpent(c: Conn, now: int): int
  {
    if c.reconnectAtPace || c.started.Some? || !Early(c, now) then 1 else 0
  }

  /** The failures a request-limited connection may have met so far. */
  function FailureCredit(now: int): Conn -> int
  {
    (c: Conn) =>
      4 * c.completed + c.recoveryAttempts + DeferSpent(c, now) + (if AbandonedOf(c) > 0 then 1 else 0)
  }

  predicate InFlight(c: Conn)
  {
    c.limit.Requests? && c.completed < c.limit.count
  }

  function InFlightOf(entry: nat): Conn -> int
  {
    (c: Conn) => if InFlight(c) && c.request.entry == entry then 1 else 0
  }

  function DrawsOf(c: Conn): int { c.completed + if InFlight(c) then 1 else 0 }

  /** One step of one connection, in terms of differences: these compose, and sum over the worker. */
  ghost predicate Step(c: Conn, s: Shared, c': Conn, s': Shared, token: nat)
  {
    && s'.clock == s.clock && s'.timeout == s.timeout
    && c'.limit == c.limit && c'.addresses == c.addresses && c.generation <= c'.generation
    && OnlyFor(s.deadlines, s'.deadlines, token) && OnlyFor(s.pacing, s'.pacing, token)
    && (forall h: Handover :: h.token != token ==> (h in s'.handed <==> h in s.handed))
    && s'.active - s.active == UnfinishedOf(c') - UnfinishedOf(c)
    && Accounts(c, s, c', s')
  }

  ghost predicate Accounts(c: Conn, s: Shared, c': Conn, s': Shared)
  {
    var k, k' := s.counters, s'.counters;
    && k'.completed - k.completed == c'.completed - c.completed
    && k'.abandoned - k.abandoned == AbandonedOf(c') - AbandonedOf(c)
    && k'.bodyBytes - k'.readBytes + HeldOf(c') <= k.bodyBytes - k.readBytes + HeldOf(c)
    && (Recorded(s) ==> Recorded(s'))
    && (c.limit.Requests? ==>
          && k'.recoveries - k.recoveries <= RecoveryCredit(c') - RecoveryCredit(c)
          && Errors(k') - Errors(k) <= FailureCredit(s'.clock)(c') - FailureCredit(s.clock)(c)
          && (forall x: nat :: s'.drawn[x] + s.finished[x] + InFlightOf(x)(c)
                               == s.drawn[x] + s'.finished[x] + InFlightOf(x)(c'))
          && |s'.drawn| - |s.drawn| == DrawsOf(c') - DrawsOf(c))
  }

  lemma StepTransitive(c: Conn, s: Shared, c1: Conn, s1: Shared, c2: Conn, s2: Shared, token: nat)
    requires Step(c, s, c1, s1, token) && Step(c1, s1, c2, s2, token)
    ensures Step(c, s, c2, s2, token)
  {
  }

  // ----- the whole worker -----

  datatype W = W(conns: seq<Conn>, shared: Shared, refused: nat, slots: nat)

  predicate AllFixed(conns: seq<Conn>)
  {
    forall c :: c in conns ==> c.limit.Requests?
  }

  predicate Tokens(q: seq<Entry>, count: nat)
  {
    forall e :: e in q ==> e.token < count
  }

  ghost predicate Balance(w: W)
  {
    var k := w.shared.counters;
    && k.completed == Sum(w.conns, CompletedOf)
    && k.abandoned == w.refused + Sum(w.conns, AbandonedOf)
    && k.bodyBytes + Sum(w.conns, HeldOf) <= k.readBytes
    && w.shared.active == Sum(w.conns, UnfinishedOf)
    && Recorded(w.shared)
    && (AllFixed(w.conns) ==>
          && k.recoveries <= Sum(w.conns, RecoveryCredit)
          && Errors(k) <= Sum(w.conns, FailureCredit(w.shared.clock)) + 3 * w.slots
          && (forall x: nat :: w.shared.drawn[x] == w.shared.finished[x] + Sum(w.conns, InFlightOf(x)))
          && |w.shared.drawn| == Sum(w.conns, DrawsOf))
  }

  /** The worker invariant. */
  ghost predicate Inv(w: W)
  {
    && Tokens(w.shared.deadlines, |w.conns|) && Tokens(w.shared.pacing, |w.conns|)
    && (forall h :: h in w.shared.handed ==> h.token < |w.conns|)
    && (forall t :: 0 <= t < |w.conns| ==> Core(w.conns[t], w.shared, t) && Covered(w.conns[t], w.shared, t))
    && Balance(w)
  }

  lemma BalanceStep(w: W, t: nat, c': Conn, s': Shared)
    requires Balance(w) && t < |w.conns| && Step(w.conns[t], w.shared, c', s', t)
    ensures Balance(w.(conns := w.conns[t := c'], shared := s'))
  {
    var w' := w.(conns := w.conns[t := c'], shared := s');
    SumUpdate(w.conns, t, c', CompletedOf);
    SumUpdate(w.conns, t, c', AbandonedOf);
    SumUpdate(w.conns, t, c', HeldOf);
    SumUpdate(w.conns, t, c', UnfinishedOf);
    if AllFixed(w'.conns) {
      assert w.conns[t] in w.conns && w'.conns[t] in w'.conns;
      forall c | c in w.conns ensures c.limit.Requests? {
        var i :| 0 <= i < |w.conns| && w.conns[i] == c;
        assert w'.conns[i] in w'.conns;
      }
      SumUpdate(w.conns, t, c', RecoveryCredit);
      SumUpdate(w.conns, t, c', FailureCredit(s'.clock));
      SumUpdate(w.conns, t, c', DrawsOf);
      forall x: nat ensures s'.drawn[x] == s'.finished[x] + Sum(w'.conns, InFlightOf(x)) {
        SumUpdate(w.conns, t, c', InFlightOf(x));
      }
    }
  }

  /** A step of one connection that leaves it covered keeps the worker invariant. */
  lemma StepKeepsInv(w: W, t: nat, c': Conn, s': Shared)
    requires Inv(w) && t < |w.conns| && Step(w.conns[t], w.shared, c', s', t)
    requires Core(c', s', t) && Covered(c', s', t)
    ensures Inv(w.(conns := w.conns[t := c'], shared := s'))
  {
    var w' := w.(conns := w.conns[t := c'], shared := s');
    BalanceStep(w, t, c', s');
    forall u | 0 <= u < |w'.conns| ensures Core(w'.conns[u], s', u) && Covered(w'.conns[u], s', u) {
      if u != t {
        assert Core(w.conns[u], w.shared, u) && Covered(w.conns[u], w.shared, u);
      }
    }
  }

  /** The active count is the number of connections that are not done. */
  lemma ActiveIsUnfinished(w: W)
    requires Inv(w)
    ensures w.shared.active == Sum(w.conns, UnfinishedOf) && 0 <= w.shared.active
    ensures w.shared.active == 0 <==> forall c :: c in w.conns ==> c.done
  {
    if w.shared.active == 0 { SumZero(w.conns, UnfinishedOf); }
    if forall c :: c in w.conns ==> c.done {
      SumEqual(w.conns, UnfinishedOf, Nothing);
      NothingSum(w.conns);
    }
    SumNonNegative(w.conns, UnfinishedOf);
  }

  /**
   * At every moment the sockets have taken exactly the bytes of the request up to the offset, each once and in order, and
   * a connection that has more of it to write is watched for writability.
   */
  lemma WrittenInOrder(w: W, t: nat)
    requires Inv(w) && t < |w.conns|
    ensures var c := w.conns[t];
            && |c.sent| == c.writeOffset && (!c.done ==> c.writeOffset <= c.request.length)
            && (forall i :: 0 <= i < |c.sent| ==> c.sent[i] == i)
            && (!c.done && c.started.Some? && c.writeOffset < c.request.length ==> c.interest.ReadWrite?)
  {
    assert Core(w.conns[t], w.shared, t) && Covered(w.conns[t], w.shared, t);
  }

  // ----- the clock -----

  function Tick(s: Shared, now: int): Shared
  {
    s.(clock := Max(s.clock, now))
  }

  lemma TickKeepsSlot(c: Conn, s: Shared, now: int, t: nat)
    requires Core(c, s, t) && Covered(c, s, t)
    ensures Core(c, Tick(s, now), t) && Covered(c, Tick(s, now), t)
  {
  }

  /** The invariant survives the passing of time. */
  lemma TickKeepsInv(w: W, now: int)
    requires Inv(w)
    ensures Inv(w.(shared := Tick(w.shared, now)))
  {
    var w' := w.(shared := Tick(w.shared, now));
    forall t | 0 <= t < |w.conns| ensures Core(w.conns[t], w'.shared, t) && Covered(w.conns[t], w'.shared, t) {
      TickKeepsSlot(w.conns[t], w.shared, now, t);
    }
    SumMonotone(w.conns, FailureCredit(w.shared.clock), FailureCredit(w'.shared.clock));
  }

  // ----- what the invariant says of a run -----

  function LimitOf(c: Conn): int { if c.limit.Requests? then c.limit.count else 0 }

  /** The requests a connection still has to answer. */
  function RemainingOf(c: Conn): int { if c.done then 0 else LimitOf(c) - c.completed }

  function GivenUp(c: Conn): int { if AbandonedOf(c) > 0 then 1 else 0 }

  /** A connection that has spent recovery attempts on its current request. */
  function Troubled(c: Conn): int { if c.recoveryAttempts > 0 then 1 else 0 }

  lemma ConnectionsAreLocal(w: W)
    requires Inv(w)
    ensures forall c :: c in w.conns ==> LocalInv(c, w.shared.clock)
  {
    forall c | c in w.conns ensures LocalInv(c, w.shared.clock) {
      var i :| 0 <= i < |w.conns| && w.conns[i] == c;
      assert Core(w.conns[i], w.shared, i);
    }
  }

  lemma {:induction false} SumPlus<T>(s: seq<T>, f: T -> int, g: T -> int, h: T -> int)
    requires forall x :: x in s ==> h(x) == f(x) + g(x)
    ensures Sum(s, h) == Sum(s, f) + Sum(s, g)
  {
    if s != [] {
      assert forall x :: x in s[1..] ==> x in s;
      SumPlus(s[1..], f, g, h);
    }
  }

  function SettledOf(c: Conn): int { CompletedOf(c) + AbandonedOf(c) }

  /** Conservation, in every state of a run: each request is completed, abandoned or still to come, exactly once. */
  lemma Conservation(w: W)
    requires Inv(w) && AllFixed(w.conns)
    ensures w.shared.counters.completed + w.shared.counters.abandoned + Sum(w.conns, RemainingOf) ==
            w.refused + Sum(w.conns, LimitOf)
    ensures 0 <= Sum(w.conns, RemainingOf) && (w.shared.active == 0 ==> Sum(w.conns, RemainingOf) == 0)
  {
    ConnectionsAreLocal(w);
    SumPlus(w.conns, CompletedOf, AbandonedOf, SettledOf);
    SumPlus(w.conns, SettledOf, RemainingOf, LimitOf);
    SumNonNegative(w.conns, RemainingOf);
    if w.shared.active == 0 {
      ActiveIsUnfinished(w);
      SumEqual(w.conns, RemainingOf, Nothing);
      NothingSum(w.conns);
    }
  }

  /** What `RecoveryBound` and `FailureBound` allow a connection. */
  function RecoveryCap(c: Conn): int { 3 * (CompletedOf(c) + Troubled(c)) }

  function FailureCap(c: Conn): int { 4 * CompletedOf(c) + 3 * Troubled(c) + GivenUp(c) + 1 }

  lemma {:induction false} CapSums(conns: seq<Conn>)
    ensures Sum(conns, RecoveryCap) == 3 * (Sum(conns, CompletedOf) + Sum(conns, Troubled))
    ensures Sum(conns, FailureCap) ==
            4 * Sum(conns, CompletedOf) + 3 * Sum(conns, Troubled) + Sum(conns, GivenUp) + |conns|
    ensures Sum(conns, Troubled) <= |conns| && Sum(conns, GivenUp) <= |conns|
  {
    if conns != [] {
      CapSums(conns[1..]);
    }
  }

  /**
   * Bounded recovery, in every state of a run: at most three attempts for each completed request and each connection
   * that is in trouble with its current one; at the end only connections that were given up still are.
   */
  lemma RecoveryBound(w: W)
    requires Inv(w) && AllFixed(w.conns)
    ensures w.shared.counters.recoveries <= 3 * (w.shared.counters.completed + Sum(w.conns, Troubled))
    ensures Sum(w.conns, Troubled) <= |w.conns|
    ensures w.shared.active == 0 ==> Sum(w.conns, Troubled) <= Sum(w.conns, GivenUp)
  {
    ConnectionsAreLocal(w);
    SumMonotone(w.conns, RecoveryCredit, RecoveryCap);
    CapSums(w.conns);
    if w.shared.active == 0 {
      ActiveIsUnfinished(w);
      SumMonotone(w.conns, Troubled, GivenUp);
    }
  }

  /** Every failure handled is paid for, in every state of a run: no run fails for ever without completing or giving up. */
  lemma FailureBound(w: W)
    requires Inv(w) && AllFixed(w.conns)
    ensures Errors(w.shared.counters) <=
            4 * w.shared.counters.completed + 3 * Sum(w.conns, Troubled) + Sum(w.conns, GivenUp) + |w.conns| + 3 * w.slots
    ensures Sum(w.conns, Troubled) <= |w.conns| && Sum(w.conns, GivenUp) <= |w.conns|
  {
    ConnectionsAreLocal(w);
    SumMonotone(w.conns, FailureCredit(w.shared.clock), FailureCap);
    CapSums(w.conns);
  }

  /** With nothing abandoned, exactly the drawn entries were completed, one per request of the limits. */
  lemma DrawnIsFinished(w: W)
    requires Inv(w) && w.shared.active == 0 && AllFixed(w.conns) && w.shared.counters.abandoned == 0
    ensures w.shared.drawn == w.shared.finished
    ensures |w.shared.drawn| == w.shared.counters.completed
  {
    ConnectionsAreLocal(w);
    ActiveIsUnfinished(w);
    SumNonNegative(w.conns, AbandonedOf);
    SumZero(w.conns, AbandonedOf);
    forall x: nat ensures w.shared.drawn[x] == w.shared.finished[x] {
      SumEqual(w.conns, InFlightOf(x), Nothing);
      NothingSum(w.conns);
    }
    SumEqual(w.conns, DrawsOf, CompletedOf);
  }

  function Nothing(c: Conn): int { 0 }

  lemma {:induction false} NothingSum(conns: seq<Conn>)
    ensures Sum(conns, Nothing) == 0
  {
    if conns != [] {
      NothingSum(conns[1..]);
    }
  }

  // ----- waking up in time -----

  /** The earlier of a planned instant and the load deadline. */
  predicate Earlier(at: int, planned: int, limit: Limit)
  {
    && at <= planned && (limit.Deadline? ==> at <= limit.at)
    && (at == planned || (limit.Deadline? && at == limit.at))
  }

  /** When an unfinished connection is due: at its slot, at the end of its request's time, or at the end of its connection's. */
  predicate DueAt(c: Conn, timeout: nat, at: int)
  {
    if c.awaitingPace then c.request.notBefore.Some? && Earlier(at, c.request.notBefore.value, c.limit)
    else if c.started.Some? then at == c.started.value + timeout
    else Earlier(at, c.connectedAt + timeout, c.limit)
  }

  /** A queue head that is stale: its connection is done or has moved on. */
  predicate Stale(e: Entry, conns: seq<Conn>)
    requires e.token < |conns|
  {
    conns[e.token].done || conns[e.token].generation != e.generation
  }

  function Earliest(a: Option<int>, b: Option<int>): Option<int>
  {
    if a.None? then b else if b.None? then a else Some(Min(a.value, b.value))
  }

  function HeadTime(q: seq<Entry>): Option<int>
  {
    if q == [] then None else Some(q[0].at)
  }

  /** How long the worker may sleep: the earlier of the two queue heads. */
  function WakeTime(s: Shared): Option<int>
  {
    Earliest(HeadTime(s.deadlines), HeadTime(s.pacing))
  }

  /** The worker wakes up no later than any unfinished connection is due, unless it was just handed over. */
  ghost predicate WokenInTime(c: Conn, s: Shared, token: nat, wake: Option<int>)
  {
    c.done || HandedOver(c, s, token) || (wake.Some? && exists at :: DueAt(c, s.timeout, at) && wake.value <= at)
  }

  /** Whatever is cleaned lazily, no unfinished connection's timer is missed. */
  lemma NoTimerMissed(w: W, t: nat)
    requires Inv(w) && t < |w.conns|
    ensures WokenInTime(w.conns[t], w.shared, t, WakeTime(w.shared))
  {
    var c, s := w.conns[t], w.shared;
    assert Core(c, s, t) && Covered(c, s, t);
    if !c.done && !HandedOver(c, s, t) {
      var e := Entry((if c.awaitingPace then PacingDeadline(c) else NextDeadline(c, s.timeout)).value, t, c.generation);
      assert DueAt(c, s.timeout, e.at);
      MatchingSound(if c.awaitingPace then s.pacing else s.deadlines, t, c.generation, e);
    }
  }

  /** A live entry is the timer of its connection, in the queue for its state. */
  lemma LiveEntryIsDue(w: W, e: Entry)
    requires Inv(w) && (e in w.shared.deadlines || e in w.shared.pacing)
    requires e.token < |w.conns| && !Stale(e, w.conns)
    ensures DueAt(w.conns[e.token], w.shared.timeout, e.at)
    ensures e in w.shared.deadlines ==> !w.conns[e.token].awaitingPace
    ensures e in w.shared.pacing ==> w.conns[e.token].awaitingPace
  {
    var c := w.conns[e.token];
    assert Covered(c, w.shared, e.token);
    if e in w.shared.deadlines { MatchingIn(w.shared.deadlines, e); }
    if e in w.shared.pacing { MatchingIn(w.shared.pacing, e); }
  }
}
