/** Each thing a worker does to one connection is a step of WorkerSpec that leaves the connection covered. */
module WorkerSteps {
  import opened Prelude
  import opened Decoder
  import opened ChunkedRoundTrip
  import opened Connections
  import opened WorkerSpec

  datatype ErrorKind = ConnectError | ReadError | WriteError | TimeoutError

  function CountError(k: Counters, kind: ErrorKind): (r: Counters)
    ensures Errors(r) == Errors(k) + 1
  {
    match kind
    case ConnectError => k.(connectErrors := k.connectErrors + 1)
    case ReadError => k.(readErrors := k.readErrors + 1)
    case WriteError => k.(writeErrors := k.writeErrors + 1)
    case TimeoutError => k.(timeoutErrors := k.timeoutErrors + 1)
  }

  function AddTimer(q: seq<Entry>, at: Option<int>, token: nat, generation: nat): seq<Entry>
  {
    if at.None? then q else Insert(q, Entry(at.value, token, generation))
  }

  /** Both schedule calls, as they follow every change of generation. */
  function Schedule(s: Shared, c: Conn, token: nat): Shared
  {
    s.(deadlines := AddTimer(s.deadlines, NextDeadline(c, s.timeout), token, c.generation),
       pacing := AddTimer(s.pacing, PacingDeadline(c), token, c.generation))
  }

  ghost predicate SlotStep(c: Conn, s: Shared, c': Conn, s': Shared, token: nat)
  {
    Step(c, s, c', s', token) && Core(c', s', token) && Covered(c', s', token)
  }

  // ----- queues -----

  lemma OnlyForSame(q: seq<Entry>, token: nat)
    ensures OnlyFor(q, q, token)
  {
  }

  lemma PushKeeps(q: seq<Entry>, at: Option<int>, token: nat, bound: nat, generation: nat)
    requires Sorted(q) && Bounded(q, token, bound) && bound < generation
    ensures var q' := AddTimer(q, at, token, generation);
            && Sorted(q') && Bounded(q', token, generation) && OnlyFor(q, q', token)
            && Matching(q', token, generation) == if at.None? then [] else [Entry(at.value, token, generation)]
  {
    NoneAbove(q, token, bound, generation);
    if at.Some? {
      var e := Entry(at.value, token, generation);
      MatchingInsert(q, e, token, generation);
      InsertOnlyFor(q, e);
      assert Bounded(q, token, generation);
      InsertBounded(q, e, generation);
    }
  }

  /** Scheduling a connection at a fresh generation covers it with exactly one timer. */
  lemma ScheduleCovers(s: Shared, c: Conn, token: nat, bound: nat)
    requires Sorted(s.deadlines) && Sorted(s.pacing)
    requires Bounded(s.deadlines, token, bound) && Bounded(s.pacing, token, bound) && bound < c.generation
    requires PastHandovers(s.handed, token, bound)
    requires LocalInv(c, s.clock) && !c.done && Watched(c)
    ensures var s' := Schedule(s, c, token);
            && Core(c, s', token) && Covered(c, s', token)
            && OnlyFor(s.deadlines, s'.deadlines, token) && OnlyFor(s.pacing, s'.pacing, token)
  {
    PushKeeps(s.deadlines, NextDeadline(c, s.timeout), token, bound, c.generation);
    PushKeeps(s.pacing, PacingDeadline(c), token, bound, c.generation);
  }

  /** Scheduling changes no account. */
  lemma ScheduleKeepsAccounts(c: Conn, s: Shared, c': Conn, s1: Shared, token: nat)
    requires Accounts(c, s, c', s1)
    ensures Accounts(c, s, c', Schedule(s1, c', token))
  {
  }

  /** A balanced change of the connection, scheduled at its new generation. */
  lemma ScheduledIsStep(c: Conn, s: Shared, c': Conn, s1: Shared, token: nat)
    requires Core(c, s, token) && LocalInv(c', s.clock) && !c'.done && Watched(c') && c.generation < c'.generation
    requires c'.limit == c.limit && c'.addresses == c.addresses && Accounts(c, s, c', s1)
    requires s1.deadlines == s.deadlines && s1.pacing == s.pacing && s1.handed == s.handed
    requires s1.clock == s.clock && s1.timeout == s.timeout && s1.active - s.active == 1 - UnfinishedOf(c)
    ensures SlotStep(c, s, c', Schedule(s1, c', token), token)
  {
    ScheduleCovers(s1, c', token, c.generation);
    ScheduleKeepsAccounts(c, s, c', s1, token);
  }

  /** Removing the head of a queue, when it belongs to this connection. */
  lemma PopOnlyFor(q: seq<Entry>)
    requires q != [] && Sorted(q)
    ensures OnlyFor(q, q[1..], q[0].token) && Sorted(q[1..])
    ensures forall t: nat, g: nat :: Bounded(q, t, g) ==> Bounded(q[1..], t, g)
    ensures forall t: nat, g: nat :: !IsFor(q[0], t, g) ==> Matching(q[1..], t, g) == Matching(q, t, g)
    ensures |Matching(q, q[0].token, q[0].generation)| == 1 ==> Matching(q[1..], q[0].token, q[0].generation) == []
  {
    assert forall e :: e in q[1..] ==> e in q;
  }

  // ----- failures -----

  /** Either schedule of the accounts: a failure counted, some recovery attempts, perhaps an abandonment. */
  function AfterFailure(s: Shared, kind: ErrorKind, attempts: nat, abandoned: nat, stopped: nat): Shared
  {
    var k := CountError(s.counters, kind);
    s.(counters := k.(recoveries := k.recoveries + attempts, abandoned := k.abandoned + abandoned),
       active := s.active - stopped)
  }

  /** The connection after a failure: reconnected for the same request, or given up. */
  predicate SameRequest(c: Conn, c': Conn)
  {
    && c'.completed == c.completed && c'.limit == c.limit && c'.addresses == c.addresses && c'.request == c.request
    && c'.pendingRead == c.pendingRead
  }

  lemma ReopenedIsStep(c: Conn, s: Shared, token: nat, kind: ErrorKind, attempts: nat, c': Conn)
    requires Core(c, s, token) && !c.done && !c.reconnectAtPace && !c'.done
    requires SameRequest(c, c') && LocalInv(c', s.clock) && Watched(c') && c'.generation == c.generation + 1
    requires Held(c'.decoder) <= Held(c.decoder)
    requires c.started.Some? ==> c'.started.Some? || !Early(c', s.clock)
    requires c.started.None? ==> c'.started.None?
    requires c.limit.Requests? ==> 1 <= attempts && c'.recoveryAttempts == c.recoveryAttempts + attempts
    ensures SlotStep(c, s, c', Schedule(AfterFailure(s, kind, attempts, 0, 0), c', token), token)
  {
    ReopenedAccounts(c, s, kind, attempts, c');
    ScheduledIsStep(c, s, c', AfterFailure(s, kind, attempts, 0, 0), token);
  }

  lemma ReopenedAccounts(c: Conn, s: Shared, kind: ErrorKind, attempts: nat, c': Conn)
    requires LocalInv(c, s.clock) && LocalInv(c', s.clock) && !c.done && !c.reconnectAtPace && !c'.done
    requires SameRequest(c, c') && Held(c'.decoder) <= Held(c.decoder)
    requires c.started.Some? ==> c'.started.Some? || !Early(c', s.clock)
    requires c.started.None? ==> c'.started.None?
    requires c.limit.Requests? ==> 1 <= attempts && c'.recoveryAttempts == c.recoveryAttempts + attempts
    ensures Accounts(c, s, c', AfterFailure(s, kind, attempts, 0, 0))
  {
  }

  lemma GivenUpIsStep(c: Conn, s: Shared, token: nat, kind: ErrorKind, attempts: nat, c': Conn)
    requires Core(c, s, token) && !c.done && !c.reconnectAtPace && c'.done && c.limit.Requests?
    requires SameRequest(c, c') && LocalInv(c', s.clock) && c'.generation == c.generation
    requires c'.started == c.started && !c'.reconnectAtPace
    requires c'.recoveryAttempts == c.recoveryAttempts + attempts
    ensures SlotStep(c, s, c', AfterFailure(s, kind, attempts, UnfinishedRequests(c'), 1), token)
  {
  }

  lemma RecoverIsStep(c: Conn, s: Shared, token: nat, kind: ErrorKind, connects: seq<set<nat>>)
    requires Core(c, s, token) && !c.done && !c.reconnectAtPace && c.started.Some?
    ensures match RecoverRequest(c, s.clock, connects)
            case Err(f) => f == ConnectRefused && c.limit.Deadline?
            case Ok((c1, recovered)) =>
              var c' := c1.(pendingRecoveries := 0);
              if recovered then
                SlotStep(c, s, c', Schedule(AfterFailure(s, kind, c1.pendingRecoveries, 0, 0), c', token), token)
              else if c1.done then
                SlotStep(c, s, c', AfterFailure(s, kind, c1.pendingRecoveries, UnfinishedRequests(c'), 1), token)
              else c1 == c && c.limit.Passed(s.clock)
  {
    var r := RecoverRequest(c, s.clock, connects);
    if r.Ok? {
      var c' := r.value.0.(pendingRecoveries := 0);
      if r.value.1 {
        ReopenedIsStep(c, s, token, kind, r.value.0.pendingRecoveries, c');
      } else if c'.done {
        GivenUpIsStep(c, s, token, kind, r.value.0.pendingRecoveries, c');
      }
    }
  }

  lemma RetryIsStep(c: Conn, s: Shared, token: nat, connects: seq<set<nat>>)
    requires Core(c, s, token) && !c.done && !c.reconnectAtPace
    ensures match RetryAddress(c, s.clock, connects)
            case Err(f) => f == ConnectRefused && c.limit.Deadline?
            case Ok((c1, retried)) =>
              var c' := c1.(pendingRecoveries := 0);
              if retried then
                SlotStep(c, s, c', Schedule(AfterFailure(s, ConnectError, c1.pendingRecoveries, 0, 0), c', token), token)
              else
                c1.done && SlotStep(c, s, c', AfterFailure(s, ConnectError, c1.pendingRecoveries, UnfinishedRequests(c'), 1), token)
  {
    var r := RetryAddress(c, s.clock, connects);
    if r.Ok? {
      var c' := r.value.0.(pendingRecoveries := 0);
      if r.value.1 {
        ReopenedIsStep(c, s, token, ConnectError, r.value.0.pendingRecoveries, c');
      } else {
        GivenUpIsStep(c, s, token, ConnectError, r.value.0.pendingRecoveries, c');
      }
    }
  }

  lemma DeferIsStep(c: Conn, s: Shared, token: nat)
    requires Core(c, s, token) && !c.done && !c.reconnectAtPace
    ensures match DeferReconnect(c, s.clock)
            case Err(_) => false
            case Ok((c', deferred)) =>
              if deferred then SlotStep(c, s, c', Schedule(AfterFailure(s, ConnectError, 0, 0, 0), c', token), token)
              else c' == c
  {
    var r := DeferReconnect(c, s.clock);
    if r.Ok? && r.value.1 {
      DeferKeepsLocal(c, s.clock);
      DeferredIsStep(c, s, token, r.value.0);
    }
  }

  lemma DeferKeepsLocal(c: Conn, now: int)
    requires LocalInv(c, now) && !c.done && !c.reconnectAtPace
    ensures match DeferReconnect(c, now)
            case Err(_) => false
            case Ok((c', _)) => LocalInv(c', now)
  {
  }

  /** A connection closed to wait for its slot. */
  lemma DeferredIsStep(c: Conn, s: Shared, token: nat, c': Conn)
    requires Core(c, s, token) && !c.done && !c'.done
    requires SameRequest(c, c') && LocalInv(c', s.clock) && Watched(c') && c'.generation == c.generation + 1
    requires c'.decoder == c.decoder && c'.recoveryAttempts == c.recoveryAttempts
    requires DeferSpent(c, s.clock) == 0 && c'.reconnectAtPace
    ensures SlotStep(c, s, c', Schedule(AfterFailure(s, ConnectError, 0, 0, 0), c', token), token)
  {
    DeferredAccounts(c, s, c');
    ScheduledIsStep(c, s, c', AfterFailure(s, ConnectError, 0, 0, 0), token);
  }

  lemma DeferredAccounts(c: Conn, s: Shared, c': Conn)
    requires LocalInv(c, s.clock) && LocalInv(c', s.clock) && !c.done && !c'.done && SameRequest(c, c')
    requires c'.decoder == c.decoder && c'.recoveryAttempts == c.recoveryAttempts
    requires DeferSpent(c, s.clock) == 0 && c'.reconnectAtPace
    ensures Accounts(c, s, c', AfterFailure(s, ConnectError, 0, 0, 0))
  {
  }

  // ----- stops at the deadline -----

  function StoppedAt(c: Conn): Conn
  {
    c.(done := true, interest := Unregistered)
  }

  /** Stopping a duration-limited connection, with or without a failure to count. */
  lemma StopIsStep(c: Conn, s: Shared, token: nat)
    requires Core(c, s, token) && !c.done && c.limit.Deadline?
    ensures SlotStep(c, s, StoppedAt(c), s.(active := s.active - 1), token)
    ensures forall kind :: SlotStep(c, s, StoppedAt(c), AfterFailure(s, kind, 0, 0, 1), token)
  {
  }

  // ----- writing -----

  /** What a write leaves of the connection's own state. */
  lemma WriteKeepsLocal(c: Conn, now: int, writes: seq<WriteOutcome>)
    requires LocalInv(c, now) && !c.done && !c.reconnectAtPace
    ensures LocalInv(WriteRequest(c, now, writes).0, now)
  {
    WriteContinues(c, now, writes);
  }

  /** A write keeps the connection's invariant and accounts, whatever the socket accepts. */
  lemma WriteKeepsCore(c: Conn, s: Shared, token: nat, writes: seq<WriteOutcome>)
    requires Core(c, s, token) && !c.done && !c.reconnectAtPace
    ensures var (c1, ok) := WriteRequest(c, s.clock, writes);
            && Step(c, s, c1, s, token) && Core(c1, s, token)
            && !c1.done && !c1.reconnectAtPace && (!ok ==> c1.started.Some?)
            && (c1.generation == c.generation ==>
                  c1.awaitingPace == c.awaitingPace && c1.started == c.started && c1.done == c.done)
            && c1.connectedAt == c.connectedAt && c1.request == c.request
            && (c1.generation == c.generation ==> !Ready(c, s.clock))
  {
    WriteKeepsLocal(c, s.clock, writes);
  }

  lemma WriteIsStep(c: Conn, s: Shared, token: nat, writes: seq<WriteOutcome>)
    requires Core(c, s, token) && Covered(c, s, token) && !c.done && !c.reconnectAtPace
    requires WriteRequest(c, s.clock, writes).1
    ensures var c1 := WriteRequest(c, s.clock, writes).0;
            var c' := c1.(interest := DesiredInterest(c1, s.clock));
            SlotStep(c, s, c', if c1.generation != c.generation then Schedule(s, c', token) else s, token)
  {
    WriteKeepsCore(c, s, token, writes);
    var c1 := WriteRequest(c, s.clock, writes).0;
    WrittenIsStep(c, s, token, c1, DesiredInterest(c1, s.clock));
  }

  lemma WrittenIsStep(c: Conn, s: Shared, token: nat, c1: Conn, interest: Interest)
    requires Core(c, s, token) && Covered(c, s, token) && !c.done && !interest.Unregistered?
    requires Watched(c1.(interest := interest))
    requires Step(c, s, c1, s, token) && Core(c1, s, token) && !c1.done && !c1.reconnectAtPace
    requires c1.generation == c.generation ==>
               c1.awaitingPace == c.awaitingPace && c1.started == c.started && !Ready(c, s.clock) &&
               c1.connectedAt == c.connectedAt && c1.request == c.request
    ensures var c' := c1.(interest := interest);
            SlotStep(c, s, c', if c1.generation != c.generation then Schedule(s, c', token) else s, token)
  {
    InterestKeepsCore(c, s, token, c1, interest);
    if c1.generation != c.generation {
      ScheduledIsStep(c, s, c1.(interest := interest), s, token);
    } else {
      SameTimer(c, s, token, c1.(interest := interest));
    }
  }

  /** The timer of a connection depends on nothing else. */
  lemma SameTimer(c: Conn, s: Shared, token: nat, c': Conn)
    requires Covered(c, s, token) && !c.done && !c'.done && !Ready(c, s.clock) && Watched(c')
    requires c'.generation == c.generation && c'.awaitingPace == c.awaitingPace && c'.started == c.started
    requires c'.connectedAt == c.connectedAt && c'.request == c.request && c'.limit == c.limit
    ensures Covered(c', s, token)
  {
  }

  /** Watching for other events changes nothing else. */
  lemma InterestKeepsCore(c: Conn, s: Shared, token: nat, c1: Conn, interest: Interest)
    requires Step(c, s, c1, s, token) && Core(c1, s, token) && !c1.done && !c1.reconnectAtPace && !interest.Unregistered?
    ensures var c' := c1.(interest := interest); Step(c, s, c', s, token) && Core(c', s, token)
  {
  }

  // ----- reading -----

  function CountRead(s: Shared, bytes: nat, body: nat): Shared
  {
    s.(counters := s.counters.(readBytes := s.counters.readBytes + bytes, bodyBytes := s.counters.bodyBytes + body))
  }

  lemma {:induction false} ReadHeld(g: Grammar, d: Response, inputs: seq<ReadOutcome>)
    requires Configured(d)
    ensures var (e, n, r) := ReadLoop(g, d, inputs);
            && Held(e) <= Held(d) + n
            && (r.Completed? ==> r.bodyLength <= Held(d) + n)
    decreases |inputs|
  {
    if inputs == [] || inputs[0].ReadWouldBlock? {
      FeedHeld(g, d, [], false);
    } else if inputs[0].Received? {
      var bytes := inputs[0].bytes;
      FeedHeld(g, d, bytes, bytes == []);
      if bytes != [] && Feed(g, d, bytes, false).1.Pending? {
        ReadHeld(g, Feed(g, d, bytes, false).0, inputs[1..]);
      }
    }
  }

  /** What a read leaves behind when it does not complete a response. */
  lemma ReadIsStep(g: Grammar, c: Conn, s: Shared, token: nat, inputs: seq<ReadOutcome>)
    requires Core(c, s, token) && !c.done
    ensures var (c1, _) := ReadResponse(g, c, inputs);
            var c' := c1.(pendingRead := 0);
            && Step(c, s, c', CountRead(s, c1.pendingRead, 0), token) && Core(c', CountRead(s, c1.pendingRead, 0), token)
            && (Covered(c, s, token) ==> Covered(c', CountRead(s, c1.pendingRead, 0), token))
  {
    ReadHeld(g, c.decoder, inputs);
    var c1 := ReadResponse(g, c, inputs).0;
    ReadLeaves(c, s, token, c1.(pendingRead := 0), c1.pendingRead);
  }

  /** Only the decoder has changed, and it holds no more than before and what was read. */
  lemma ReadLeaves(c: Conn, s: Shared, token: nat, c': Conn, bytes: nat)
    requires Core(c, s, token) && !c.done && c' == c.(decoder := c'.decoder)
    requires Configured(c'.decoder) && Held(c'.decoder) <= Held(c.decoder) + bytes
    ensures Step(c, s, c', CountRead(s, bytes, 0), token) && Core(c', CountRead(s, bytes, 0), token)
    ensures Covered(c, s, token) ==> Covered(c', CountRead(s, bytes, 0), token)
  {
  }

  lemma RefreshIsStep(c: Conn, s: Shared, token: nat)
    requires Core(c, s, token) && Covered(c, s, token) && !c.done && !c.reconnectAtPace
    ensures match RefreshInterest(c, s.clock)
            case Ok(c') => SlotStep(c, s, c', s, token)
            case Err(_) => false
  {
  }

  // ----- finishing -----

  /** What is recorded of a response: the latency runs from the start of its request. */
  function AnswerOf(c: Conn, status: nat, now: int): Answer
  {
    Answer(c.request.entry, status, Max(0, now - if c.started.Some? then c.started.value else c.connectedAt))
  }

  function CountFinish(s: Shared, answer: Answer, draws: multiset<nat>, stopped: nat): Shared
  {
    s.(counters := s.counters.(completed := s.counters.completed + 1), answers := s.answers + [answer],
       finished := s.finished + multiset{answer.entry}, drawn := s.drawn + draws, active := s.active - stopped)
  }

  lemma ContinueRuns(c: Conn, close: bool, draw: Draw, now: int, connects: seq<set<nat>>, writes: seq<WriteOutcome>)
    requires LocalInv(c, now) && !c.done && !c.reconnectAtPace
    ensures match Continue(c, close, draw, now, connects, writes)
            case Err(f) => if close then f == ConnectRefused && ConnectFrom(c.addresses, 0, Reachable(connects, 0)).None?
                           else f == WriteRefused
            case Ok(c') =>
              && LocalInv(c', now) && !c'.done && c.generation < c'.generation
              && c'.request == draw && c'.completed == c.completed && c'.recoveryAttempts == c.recoveryAttempts
              && c'.limit == c.limit && c'.addresses == c.addresses && Held(c'.decoder) == 0
  {
    WriteContinues(NextRequest(c, draw), now, writes);
  }

  /** The state in which a response of `c` is counted, and what may be held back by then. */
  predicate Counted(c: Conn, s: Shared, token: nat, counted: Conn, s2: Shared)
  {
    && Core(c, s, token) && !c.done && !c.reconnectAtPace
    && Configured(counted.decoder)
    && counted == c.(decoder := counted.decoder, pendingRead := 0, completed := c.completed + 1, recoveryAttempts := 0)
    && s2 == s.(counters := s2.counters)
    && s2.counters == s.counters.(readBytes := s2.counters.readBytes, bodyBytes := s2.counters.bodyBytes)
    && s2.counters.bodyBytes - s2.counters.readBytes <= s.counters.bodyBytes - s.counters.readBytes + Held(c.decoder)
  }

  lemma ReadIsCounted(g: Grammar, c: Conn, s: Shared, token: nat, inputs: seq<ReadOutcome>)
    requires Core(c, s, token) && !c.done && !c.reconnectAtPace
    requires ReadResponse(g, c, inputs).1.Completed?
    ensures var (c1, response) := ReadResponse(g, c, inputs);
            Counted(c, s, token, c1.(pendingRead := 0, completed := c.completed + 1, recoveryAttempts := 0),
                    CountRead(s, c1.pendingRead, response.bodyLength))
  {
    ReadHeld(g, c.decoder, inputs);
  }

  /** A completed response: counted once, and the connection is done or goes on with the next entry. */
  lemma FinishIsStep(g: Grammar, c: Conn, s: Shared, token: nat, inputs: seq<ReadOutcome>, draw: Draw,
                     connects: seq<set<nat>>, writes: seq<WriteOutcome>)
    requires Core(c, s, token) && !c.done && !c.reconnectAtPace
    requires ReadResponse(g, c, inputs).1.Completed?
    ensures var (c1, response) := ReadResponse(g, c, inputs);
            var c2 := c1.(pendingRead := 0);
            var s2 := CountRead(s, c1.pendingRead, response.bodyLength);
            var answer := AnswerOf(c2, response.status, s.clock);
            match FinishResponse(c2, response.close, draw, s.clock, connects, writes)
            case Err(f) => f == ConnectRefused || f == WriteRefused
            case Ok((c', stopped)) =>
              if stopped then SlotStep(c, s, c', CountFinish(s2, answer, multiset{}, 1), token)
              else SlotStep(c, s, c', Schedule(CountFinish(s2, answer, multiset{draw.entry}, 0), c', token), token)
  {
    ReadIsCounted(g, c, s, token, inputs);
    var (c1, response) := ReadResponse(g, c, inputs);
    CountedIsStep(c, s, token, c1.(pendingRead := 0), CountRead(s, c1.pendingRead, response.bodyLength),
                  AnswerOf(c1.(pendingRead := 0), response.status, s.clock), response.close, draw, connects, writes);
  }

  lemma CountedIsStep(c: Conn, s: Shared, token: nat, c2: Conn, s2: Shared, answer: Answer, close: bool,
                      draw: Draw, connects: seq<set<nat>>, writes: seq<WriteOutcome>)
    requires c2.completed == c.completed && c2.limit == c.limit && !c2.interest.Unregistered?
    requires Counted(c, s, token, c2.(completed := c.completed + 1, recoveryAttempts := 0), s2)
    requires answer.entry == c.request.entry
    ensures match FinishResponse(c2, close, draw, s.clock, connects, writes)
            case Err(f) => f == ConnectRefused || f == WriteRefused
            case Ok((c', stopped)) =>
              if stopped then SlotStep(c, s, c', CountFinish(s2, answer, multiset{}, 1), token)
              else SlotStep(c, s, c', Schedule(CountFinish(s2, answer, multiset{draw.entry}, 0), c', token), token)
  {
    var counted := c2.(completed := c.completed + 1, recoveryAttempts := 0);
    var done := CountFinish(s2, answer, multiset{}, 1);
    var more := CountFinish(s2, answer, multiset{draw.entry}, 0);
    ghost var good := (c': Conn, stopped: bool) =>
      if stopped then SlotStep(c, s, c', done, token) else SlotStep(c, s, c', Schedule(more, c', token), token);
    if c.limit.ShouldContinue(counted.completed, s.clock) {
      GoOnIsStep(c, s, token, counted, s2, answer, close, draw, connects, writes);
    } else {
      DoneIsStep(c, s, token, counted, s2, answer);
    }
    FinishCases(c2, counted, close, draw, s.clock, connects, writes, good);
  }

  /** Finishing a response is stopping, or going on with the next request. */
  lemma FinishCases(c: Conn, counted: Conn, close: bool, draw: Draw, now: int, connects: seq<set<nat>>,
                    writes: seq<WriteOutcome>, good: (Conn, bool) -> bool)
    requires !c.interest.Unregistered? && counted == c.(completed := c.completed + 1, recoveryAttempts := 0)
    requires !c.limit.ShouldContinue(counted.completed, now) ==>
               good(counted.(done := true, interest := Unregistered), true)
    requires c.limit.ShouldContinue(counted.completed, now) ==>
               match Continue(counted, close, draw, now, connects, writes)
               case Err(f) => f == ConnectRefused || f == WriteRefused
               case Ok(c') => good(c', false)
    ensures match FinishResponse(c, close, draw, now, connects, writes)
            case Err(f) => f == ConnectRefused || f == WriteRefused
            case Ok((c', stopped)) => good(c', stopped)
  {
  }

  lemma DoneIsStep(c: Conn, s: Shared, token: nat, counted: Conn, s2: Shared, answer: Answer)
    requires answer.entry == c.request.entry
    requires Counted(c, s, token, counted, s2) && !c.limit.ShouldContinue(counted.completed, s.clock)
    ensures SlotStep(c, s, counted.(done := true, interest := Unregistered),
                     CountFinish(s2, answer, multiset{}, 1), token)
  {
    FinishRecords(s, s2, answer, multiset{}, 1);
    StopAccounts(c, s, counted.(done := true, interest := Unregistered), CountFinish(s2, answer, multiset{}, 1));
  }

  lemma GoOnIsStep(c: Conn, s: Shared, token: nat, counted: Conn, s2: Shared, answer: Answer, close: bool,
                   draw: Draw, connects: seq<set<nat>>, writes: seq<WriteOutcome>)
    requires answer.entry == c.request.entry
    requires Counted(c, s, token, counted, s2) && c.limit.ShouldContinue(counted.completed, s.clock)
    ensures match Continue(counted, close, draw, s.clock, connects, writes)
            case Err(f) => f == ConnectRefused || f == WriteRefused
            case Ok(c') =>
              SlotStep(c, s, c', Schedule(CountFinish(s2, answer, multiset{draw.entry}, 0), c', token), token)
  {
    ContinueRuns(counted, close, draw, s.clock, connects, writes);
    var r := Continue(counted, close, draw, s.clock, connects, writes);
    if r.Ok? {
      var s3 := CountFinish(s2, answer, multiset{draw.entry}, 0);
      ContinueIsWatched(counted, close, draw, s.clock, connects, writes);
      FinishRecords(s, s2, answer, multiset{draw.entry}, 0);
      FinishAccounts(c, s, r.value, s3, draw.entry);
      ScheduledIsStep(c, s, r.value, s3, token);
    }
  }

  lemma ContinueIsWatched(c: Conn, close: bool, draw: Draw, now: int, connects: seq<set<nat>>, writes: seq<WriteOutcome>)
    requires Continue(c, close, draw, now, connects, writes).Ok?
    ensures Watched(Continue(c, close, draw, now, connects, writes).value)
  {
  }

  lemma FinishRecords(s: Shared, s2: Shared, answer: Answer, draws: multiset<nat>, stopped: nat)
    requires s2.answers == s.answers && s2.finished == s.finished && s2.counters.completed == s.counters.completed
    ensures Recorded(s) ==> Recorded(CountFinish(s2, answer, draws, stopped))
  {
    EntriesNext(s.answers, answer);
  }

  lemma FinishAccounts(c: Conn, s: Shared, c': Conn, s': Shared, entry: nat)
    requires LocalInv(c, s.clock) && LocalInv(c', s.clock) && !c.done && !c'.done && s'.clock == s.clock
    requires c'.completed == c.completed + 1 && c'.recoveryAttempts == 0 && c'.limit == c.limit && c'.request.entry == entry
    requires Held(c'.decoder) == 0
    requires s'.counters.completed == s.counters.completed + 1 && s'.counters.abandoned == s.counters.abandoned
    requires s'.counters.recoveries == s.counters.recoveries && Errors(s'.counters) == Errors(s.counters)
    requires s'.counters.bodyBytes - s'.counters.readBytes <= s.counters.bodyBytes - s.counters.readBytes + Held(c.decoder)
    requires s'.finished == s.finished + multiset{c.request.entry} && s'.drawn == s.drawn + multiset{entry}
    requires Recorded(s) ==> Recorded(s')
    ensures Accounts(c, s, c', s')
  {
  }

  lemma StopAccounts(c: Conn, s: Shared, c': Conn, s': Shared)
    requires LocalInv(c, s.clock) && LocalInv(c', s.clock) && !c.done && c'.done && s'.clock == s.clock
    requires c'.completed == c.completed + 1 && c'.recoveryAttempts == 0 && c'.limit == c.limit
    requires s'.counters.completed == s.counters.completed + 1 && s'.counters.abandoned == s.counters.abandoned
    requires s'.counters.recoveries == s.counters.recoveries && Errors(s'.counters) == Errors(s.counters)
    requires s'.counters.bodyBytes - s'.counters.readBytes <= s.counters.bodyBytes - s.counters.readBytes + Held(c.decoder)
    requires c.limit.Requests? ==> c'.completed == c.limit.count
    requires s'.finished == s.finished + multiset{c.request.entry} && s'.drawn == s.drawn
    requires Recorded(s) ==> Recorded(s')
    ensures Accounts(c, s, c', s')
  {
  }

  // ----- timers firing -----

  function PopDeadline(s: Shared): Shared
    requires s.deadlines != []
  {
    s.(deadlines := s.deadlines[1..])
  }

  function PopPacing(s: Shared): Shared
    requires s.pacing != []
  {
    s.(pacing := s.pacing[1..])
  }

  /** Nothing is scheduled at a slot: the connection waits for its socket to become writable. */
  function HandOver(s: Shared, c: Conn, token: nat): Shared
  {
    s.(handed := s.handed + {Handover(token, c.generation)})
  }

  /** A live deadline entry belongs to a registered connection that is not waiting for its slot. */
  lemma DeadlineFires(c: Conn, s: Shared, token: nat)
    requires Core(c, s, token) && Covered(c, s, token) && !c.done
    requires s.deadlines != [] && IsFor(s.deadlines[0], token, c.generation) && s.deadlines[0].at <= s.clock
    ensures Step(c, s, c, PopDeadline(s), token) && Core(c, PopDeadline(s), token)
    ensures !c.awaitingPace && !c.reconnectAtPace && !c.interest.Unregistered?
    ensures c.started.None? && !c.limit.ShouldContinue(c.completed, s.clock) ==> c.limit.Deadline?
  {
    PopOnlyFor(s.deadlines);
    MatchingIn(s.deadlines, s.deadlines[0]);
  }

  /** A live pacing entry fires at the slot, or at the load deadline if that comes first. */
  lemma PacingFires(c: Conn, s: Shared, token: nat, connects: seq<set<nat>>)
    requires Core(c, s, token) && Covered(c, s, token) && !c.done
    requires s.pacing != [] && IsFor(s.pacing[0], token, c.generation) && s.pacing[0].at <= s.clock
    ensures match StopIfExpired(c, s.clock)
            case Err(_) => false
            case Ok((c', stopped)) =>
              if stopped then SlotStep(c, s, c', PopPacing(s).(active := s.active - 1), token)
              else match ResumeAtPace(c, s.clock, connects)
                case Err(f) => f == ConnectRefused && c.reconnectAtPace
                case Ok(c2) => SlotStep(c, s, c2, HandOver(PopPacing(s), c2, token), token)
  {
    SlotIsCurrent(c, s, token);
    if StopIfExpired(c, s.clock) == Ok((c, false)) { SlotResumes(c, s, token, connects); }
  }

  /** At the slot a deferred connection is reopened and any other handed over. */
  lemma SlotResumes(c: Conn, s: Shared, token: nat, connects: seq<set<nat>>)
    requires Core(c, s, token) && Covered(c, s, token) && !c.done
    requires s.pacing != [] && IsFor(s.pacing[0], token, c.generation) && s.pacing[0].at <= s.clock
    requires StopIfExpired(c, s.clock) == Ok((c, false))
    ensures match ResumeAtPace(c, s.clock, connects)
            case Err(f) => f == ConnectRefused && c.reconnectAtPace
            case Ok(c2) => SlotStep(c, s, c2, HandOver(PopPacing(s), c2, token), token)
  {
    if c.reconnectAtPace { SlotReopens(c, s, token, connects); } else { SlotHandsOver(c, s, token); }
  }

  lemma SlotReopens(c: Conn, s: Shared, token: nat, connects: seq<set<nat>>)
    requires Core(c, s, token) && Covered(c, s, token) && !c.done && c.reconnectAtPace
    requires s.pacing != [] && IsFor(s.pacing[0], token, c.generation) && s.pacing[0].at <= s.clock
    requires StopIfExpired(c, s.clock) == Ok((c, false))
    ensures match ResumeAtPace(c, s.clock, connects)
            case Err(f) => f == ConnectRefused
            case Ok(c2) => SlotStep(c, s, c2, HandOver(PopPacing(s), c2, token), token)
  {
    SlotIsCurrent(c, s, token);
    ReopenedHasNoTimer(c, s, token);
    var r := ResumeAtPace(c, s.clock, connects);
    if r.Ok? {
      ReopenedAtSlot(c, s.clock, connects, r.value);
      SlotReopensCore(c, s, r.value, token);
      SlotReopensBalanced(c, s, r.value, token);
      SlotReopensReady(c, s, r.value, token);
    }
  }

  lemma ReopenedAtSlot(c: Conn, now: int, connects: seq<set<nat>>, c2: Conn)
    requires c.reconnectAtPace && c.addressIndex < c.addresses && ResumeAtPace(c, now, connects) == Ok(c2)
    ensures c2.addressIndex < c.addresses && c2 == Reconnected(c, c2.addressIndex, now)
  {
  }

  lemma SlotReopensCore(c: Conn, s: Shared, c2: Conn, token: nat)
    requires Core(c, s, token) && !c.done && c.reconnectAtPace && c2.addressIndex < c.addresses
    requires c2 == Reconnected(c, c2.addressIndex, s.clock)
    requires s.pacing != [] && Sorted(s.pacing[1..]) && Bounded(s.pacing[1..], token, c.generation)
    ensures Core(c2, HandOver(PopPacing(s), c2, token), token)
  {
    assert LocalInv(c2, s.clock);
  }

  lemma SlotReopensBalanced(c: Conn, s: Shared, c2: Conn, token: nat)
    requires Core(c, s, token) && !c.done && c.reconnectAtPace && c2.addressIndex < c.addresses
    requires c2 == Reconnected(c, c2.addressIndex, s.clock)
    requires c.awaitingPace && StopIfExpired(c, s.clock) == Ok((c, false))
    requires s.pacing != [] && s.pacing[0].at <= s.clock && s.pacing[0].at == PacingDeadline(c).value
    requires OnlyFor(s.pacing, s.pacing[1..], token)
    ensures Step(c, s, c2, HandOver(PopPacing(s), c2, token), token)
  {
    OnlyForSame(s.deadlines, token);
  }

  lemma SlotReopensReady(c: Conn, s: Shared, c2: Conn, token: nat)
    requires Core(c, s, token) && !c.done && c.reconnectAtPace && c.awaitingPace
    requires c2 == Reconnected(c, c2.addressIndex, s.clock)
    requires s.pacing != [] && s.pacing[0].at <= s.clock && s.pacing[0].at == PacingDeadline(c).value
    requires StopIfExpired(c, s.clock) == Ok((c, false))
    requires Matching(s.deadlines, token, c.generation + 1) == [] && Matching(s.pacing[1..], token, c.generation + 1) == []
    ensures Covered(c2, HandOver(PopPacing(s), c2, token), token)
  {
  }

  lemma SlotHandsOver(c: Conn, s: Shared, token: nat)
    requires Core(c, s, token) && Covered(c, s, token) && !c.done && !c.reconnectAtPace
    requires s.pacing != [] && IsFor(s.pacing[0], token, c.generation) && s.pacing[0].at <= s.clock
    requires StopIfExpired(c, s.clock) == Ok((c, false))
    ensures match RefreshInterest(c, s.clock)
            case Err(_) => false
            case Ok(c2) => SlotStep(c, s, c2, HandOver(PopPacing(s), c2, token), token)
  {
    SlotIsCurrent(c, s, token);
    var c2 := c.(interest := DesiredInterest(c, s.clock));
    HandOverIsCore(c, s, c2, token);
    HandOverIsStep(c, s, c2, token);
    HandOverCovers(c, s, c2, token);
  }

  lemma HandOverIsCore(c: Conn, s: Shared, c2: Conn, token: nat)
    requires Core(c, s, token) && !c.interest.Unregistered? && c2 == c.(interest := DesiredInterest(c, s.clock))
    requires s.pacing != [] && Sorted(s.pacing[1..]) && Bounded(s.pacing[1..], token, c.generation)
    ensures Core(c2, HandOver(PopPacing(s), c2, token), token)
  {
    assert LocalInv(c2, s.clock);
  }

  lemma HandOverIsStep(c: Conn, s: Shared, c2: Conn, token: nat)
    requires Core(c, s, token) && !c.done && !c.interest.Unregistered? && c2 == c.(interest := DesiredInterest(c, s.clock))
    requires s.pacing != [] && OnlyFor(s.pacing, s.pacing[1..], token)
    ensures Step(c, s, c2, HandOver(PopPacing(s), c2, token), token)
  {
    OnlyForSame(s.deadlines, token);
  }

  lemma HandOverCovers(c: Conn, s: Shared, c2: Conn, token: nat)
    requires Core(c, s, token) && Covered(c, s, token) && !c.done && !c.reconnectAtPace && c.awaitingPace
    requires !c.interest.Unregistered? && c2 == c.(interest := DesiredInterest(c, s.clock))
    requires s.pacing != [] && s.pacing[0].at <= s.clock && s.pacing[0].at == PacingDeadline(c).value
    requires StopIfExpired(c, s.clock) == Ok((c, false)) && !HandedOver(c, s, token)
    requires Matching(s.deadlines, token, c.generation) == [] && Matching(s.pacing[1..], token, c.generation) == []
    ensures Covered(c2, HandOver(PopPacing(s), c2, token), token)
  {
  }

  /** The only timer of the connection is the one taken from the queue. */
  lemma SlotIsCurrent(c: Conn, s: Shared, token: nat)
    requires Core(c, s, token) && Covered(c, s, token) && !c.done
    requires s.pacing != [] && IsFor(s.pacing[0], token, c.generation)
    ensures c.awaitingPace && s.pacing[0].at == PacingDeadline(c).value && !HandedOver(c, s, token)
    ensures Matching(s.deadlines, token, c.generation) == [] && Matching(s.pacing[1..], token, c.generation) == []
    ensures OnlyFor(s.pacing, s.pacing[1..], token) && Sorted(s.pacing[1..]) && Bounded(s.pacing[1..], token, c.generation)
  {
    PopOnlyFor(s.pacing);
    MatchingIn(s.pacing, s.pacing[0]);
  }

  /** And nothing is in the queues for its next generation. */
  lemma ReopenedHasNoTimer(c: Conn, s: Shared, token: nat)
    requires Core(c, s, token) && s.pacing != [] && IsFor(s.pacing[0], token, c.generation)
    ensures Matching(s.deadlines, token, c.generation + 1) == [] && Matching(s.pacing[1..], token, c.generation + 1) == []
  {
    PopOnlyFor(s.pacing);
    NoneAbove(s.deadlines, token, c.generation, c.generation + 1);
    NoneAbove(s.pacing, token, c.generation, c.generation + 1);
  }

  // ----- stale entries -----

  lemma DropKeepsSlot(c: Conn, s: Shared, token: nat, q: seq<Entry>)
    requires q != [] && Sorted(q) && (c.done || !IsFor(q[0], token, c.generation))
    requires Core(c, s, token) && Covered(c, s, token)
    ensures q == s.deadlines ==> Core(c, PopDeadline(s), token) && Covered(c, PopDeadline(s), token)
    ensures q == s.pacing ==> Core(c, PopPacing(s), token) && Covered(c, PopPacing(s), token)
  {
    PopOnlyFor(q);
  }

  /** Dropping a stale queue head loses no timer. */
  lemma DropDeadlineKeepsInv(w: W)
    requires Inv(w) && w.shared.deadlines != [] && Stale(w.shared.deadlines[0], w.conns)
    ensures Inv(w.(shared := PopDeadline(w.shared)))
  {
    var s := PopDeadline(w.shared);
    forall t | 0 <= t < |w.conns| ensures Core(w.conns[t], s, t) && Covered(w.conns[t], s, t) {
      assert Core(w.conns[t], w.shared, t);
      DropKeepsSlot(w.conns[t], w.shared, t, w.shared.deadlines);
    }
    assert forall e :: e in s.deadlines ==> e in w.shared.deadlines;
  }

  lemma DropPacingKeepsInv(w: W)
    requires Inv(w) && w.shared.pacing != [] && Stale(w.shared.pacing[0], w.conns)
    ensures Inv(w.(shared := PopPacing(w.shared)))
  {
    var s := PopPacing(w.shared);
    forall t | 0 <= t < |w.conns| ensures Core(w.conns[t], s, t) && Covered(w.conns[t], s, t) {
      assert Core(w.conns[t], w.shared, t);
      DropKeepsSlot(w.conns[t], w.shared, t, w.shared.pacing);
    }
    assert forall e :: e in s.pacing ==> e in w.shared.pacing;
  }
}
