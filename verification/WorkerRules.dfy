/** What the worker does for each event and timer, as functions, and that each of them is a step that keeps the invariant (src/engine/mod.rs). */
module WorkerRules {
  import opened Prelude
  import opened Decoder
  import opened Connections
  import opened WorkerSpec
  import opened WorkerSteps

  /**
   * A readiness event for one registered socket, with everything the sockets answer while it is handled: `writes` to the
   * current request, and `nextWrites` to the one after a completed response.
   */
  datatype Event = Event(
    token: nat, now: int,
    error: bool, socketError: bool, writable: bool, pendingError: bool, readable: bool,
    writes: seq<WriteOutcome>, inputs: seq<ReadOutcome>, connects: seq<set<nat>>,
    draw: Draw, nextWrites: seq<WriteOutcome>)

  /** One timer firing: the clock and what a reconnection meets. */
  datatype Firing = Firing(now: int, connects: seq<set<nat>>)

  /** One turn of the main loop. */
  datatype Round = Round(events: seq<Event>, expiryNow: int, expiries: seq<Firing>, slotNow: int, slots: seq<Firing>)

  /** One connection and what it shares with the others, after a rule. */
  type After = Res<(Conn, Shared)>

  // ----- failures -----

  /** The recovery block: the same request on a new connection, or a stop at the deadline, or an abandonment. */
  function RecoverRule(c: Conn, s: Shared, token: nat, kind: ErrorKind, connects: seq<set<nat>>): After
  {
    match RecoverRequest(c, s.clock, connects)
    case Err(f) => Err(f)
    case Ok((c1, recovered)) =>
      var attempts, c2 := c1.pendingRecoveries, c1.(pendingRecoveries := 0);
      if recovered then Ok((c2, Schedule(AfterFailure(s, kind, attempts, 0, 0), c2, token)))
      else match StopAfterDurationError(c2, s.clock)
        case Err(f) => Err(f)
        case Ok((c3, stopped)) =>
          if stopped then Ok((c3, AfterFailure(s, kind, attempts, 0, 1)))
          else if c3.done then Ok((c3, AfterFailure(s, kind, attempts, UnfinishedRequests(c3), 1)))
          else Err(Unrecovered)
  }

  /** The retry block: another address, or an abandonment. */
  function RetryRule(c: Conn, s: Shared, token: nat, connects: seq<set<nat>>): After
    requires 0 < c.addresses
  {
    match RetryAddress(c, s.clock, connects)
    case Err(f) => Err(f)
    case Ok((c1, retried)) =>
      var attempts, c2 := c1.pendingRecoveries, c1.(pendingRecoveries := 0);
      if retried then Ok((c2, Schedule(AfterFailure(s, ConnectError, attempts, 0, 0), c2, token)))
      else Ok((c2, AfterFailure(s, ConnectError, attempts, UnfinishedRequests(c2), 1)))
  }

  /** A connection that fails before its request: it waits for its slot if that is still to come, otherwise it retries. */
  function DeferOrRetryRule(c: Conn, s: Shared, token: nat, connects: seq<set<nat>>): After
    requires 0 < c.addresses
  {
    match DeferReconnect(c, s.clock)
    case Err(f) => Err(f)
    case Ok((c1, deferred)) =>
      if deferred then
        var s1 := AfterFailure(s, ConnectError, 0, 0, 0);
        Ok((c1, s1.(pacing := AddTimer(s1.pacing, PacingDeadline(c1), token, c1.generation))))
      else RetryRule(c, s, token, connects)
  }

  // ----- events -----

  function ErrorRule(c: Conn, s: Shared, token: nat, ev: Event): After
    requires 0 < c.addresses
  {
    if c.started.Some? then
      RecoverRule(c, s, token, if c.writeOffset == c.request.length then ReadError else WriteError, ev.connects)
    else DeferOrRetryRule(c, s, token, ev.connects)
  }

  /** Writing; a failed write has started the request. The flag says whether the event goes on to its readable part. */
  function WriteRule(c: Conn, s: Shared, token: nat, ev: Event): (r: Res<(Conn, Shared, bool)>)
    requires 0 < c.addresses && c.writeOffset <= c.request.length
    ensures r.Ok? && r.value.2 ==> r.value.0.decoder == c.decoder && r.value.0.addresses == c.addresses
  {
    var (c1, ok) := WriteRequest(c, s.clock, ev.writes);
    if ok then
      match RefreshInterest(c1, s.clock)
      case Err(f) => Err(f)
      case Ok(c2) => Ok((c2, if c2.generation != c.generation then Schedule(s, c2, token) else s, true))
    else
      match RecoverRule(c1, s, token, WriteError, ev.connects)
      case Err(f) => Err(f)
      case Ok((c2, s2)) => Ok((c2, s2, false))
  }

  function WritableRule(c: Conn, s: Shared, token: nat, ev: Event): (r: Res<(Conn, Shared, bool)>)
    requires 0 < c.addresses && c.writeOffset <= c.request.length
    ensures r.Ok? && r.value.2 ==> r.value.0.decoder == c.decoder && r.value.0.addresses == c.addresses
  {
    match StopIfExpired(c, s.clock)
    case Err(f) => Err(f)
    case Ok((c1, stopped)) =>
      if stopped then Ok((c1, s.(active := s.active - 1), false))
      else if ev.pendingError then
        match DeferOrRetryRule(c, s, token, ev.connects)
        case Err(f) => Err(f)
        case Ok((c2, s2)) => Ok((c2, s2, false))
      else WriteRule(c, s, token, ev)
  }

  /** A completed response is counted, and the connection is done or goes on with the next entry. */
  function FinishRule(c: Conn, s: Shared, token: nat, status: nat, close: bool, ev: Event): After
  {
    match FinishResponse(c, close, ev.draw, s.clock, ev.connects, ev.nextWrites)
    case Err(f) => Err(f)
    case Ok((c1, stopped)) =>
      var answer := AnswerOf(c, status, s.clock);
      if stopped then Ok((c1, CountFinish(s, answer, multiset{}, 1)))
      else Ok((c1, Schedule(CountFinish(s, answer, multiset{ev.draw.entry}, 0), c1, token)))
  }

  function RefreshRule(c: Conn, s: Shared): After
  {
    match RefreshInterest(c, s.clock) case Err(f) => Err(f) case Ok(c1) => Ok((c1, s))
  }

  /** No response yet, or none any more. */
  function UnansweredRule(c: Conn, s: Shared, token: nat, response: ReadResult, ev: Event): After
    requires 0 < c.addresses
  {
    if response.NoResponse? || (response.Unconnected? && c.started.None?) then RefreshRule(c, s)
    else if c.started.None? then DeferOrRetryRule(c, s, token, ev.connects)
    else RecoverRule(c, s, token, ReadError, ev.connects)
  }

  function ReadableRule(g: Grammar, c: Conn, s: Shared, token: nat, ev: Event): After
    requires 0 < c.addresses && Configured(c.decoder)
  {
    var (c1, response) := ReadResponse(g, c, ev.inputs);
    var bytes, c2 := c1.pendingRead, c1.(pendingRead := 0);
    match response
    case Completed(status, length, close) => FinishRule(c2, CountRead(s, bytes, length), token, status, close, ev)
    case Malformed => Err(InvalidResponse)
    case _ => UnansweredRule(c2, CountRead(s, bytes, 0), token, response, ev)
  }

  /** A connection that events may be delivered to. */
  predicate Usable(c: Conn)
  {
    0 < c.addresses && Configured(c.decoder) && c.writeOffset <= c.request.length
  }

  /** One event: an error ends it; otherwise its writable part comes before its readable part. */
  function EventRule(g: Grammar, c: Conn, s: Shared, token: nat, ev: Event): After
    requires Usable(c)
  {
    if ev.error && ev.socketError then ErrorRule(c, s, token, ev)
    else match if ev.writable then WritableRule(c, s, token, ev) else Ok((c, s, true))
      case Err(f) => Err(f)
      case Ok((c1, s1, goOn)) =>
        if goOn && ev.readable then ReadableRule(g, c1, s1, token, ev) else Ok((c1, s1))
  }

  // ----- timers -----

  /** A live deadline that is due. */
  function ExpiryRule(c: Conn, s: Shared, token: nat, connects: seq<set<nat>>): After
    requires 0 < c.addresses
  {
    match Expire(c, s.clock)
    case Err(f) => Err(f)
    case Ok((c1, Stopped)) => Ok((c1, s.(active := s.active - 1)))
    case Ok((_, RequestTimeout)) => RecoverRule(c, s, token, TimeoutError, connects)
    case Ok((_, ConnectionTimeout)) => RetryRule(c, s, token, connects)
  }

  /** A live slot that is due. */
  function SlotRule(c: Conn, s: Shared, token: nat, connects: seq<set<nat>>): After
  {
    match StopIfExpired(c, s.clock)
    case Err(f) => Err(f)
    case Ok((c1, stopped)) =>
      if stopped then Ok((c1, s.(active := s.active - 1)))
      else match ResumeAtPace(c, s.clock, connects)
        case Err(f) => Err(f)
        case Ok(c2) => Ok((c2, HandOver(s, c2, token)))
  }

  // ----- every rule is a step -----

  /** A rule's result: a step that leaves the connection covered, or one of the failures it may end the run with. */
  ghost predicate Sound(c: Conn, s: Shared, token: nat, r: After, failures: set<Failure>)
  {
    match r
    case Err(f) => f in failures
    case Ok((c', s')) => SlotStep(c, s, c', s', token)
  }

  /** Failures of the failing rules end only duration-limited runs. */
  function Refusals(c: Conn): set<Failure>
  {
    if c.limit.Deadline? then {ConnectRefused} else {}
  }

  lemma RecoverRuleIsStep(c: Conn, s: Shared, token: nat, kind: ErrorKind, connects: seq<set<nat>>)
    requires Core(c, s, token) && !c.done && !c.reconnectAtPace && c.started.Some?
    ensures Sound(c, s, token, RecoverRule(c, s, token, kind, connects), Refusals(c))
  {
    RecoverIsStep(c, s, token, kind, connects);
    if c.limit.Deadline? { StopIsStep(c, s, token); }
  }

  lemma RetryRuleIsStep(c: Conn, s: Shared, token: nat, connects: seq<set<nat>>)
    requires Core(c, s, token) && !c.done && !c.reconnectAtPace
    ensures Sound(c, s, token, RetryRule(c, s, token, connects), Refusals(c))
  {
    RetryIsStep(c, s, token, connects);
  }

  lemma DeferOrRetryRuleIsStep(c: Conn, s: Shared, token: nat, connects: seq<set<nat>>)
    requires Core(c, s, token) && !c.done && !c.reconnectAtPace
    ensures Sound(c, s, token, DeferOrRetryRule(c, s, token, connects), Refusals(c))
  {
    DeferIsStep(c, s, token);
    RetryRuleIsStep(c, s, token, connects);
  }

  lemma ErrorRuleIsStep(c: Conn, s: Shared, token: nat, ev: Event)
    requires Core(c, s, token) && !c.done && !c.reconnectAtPace
    ensures Sound(c, s, token, ErrorRule(c, s, token, ev), Refusals(c))
  {
    if c.started.Some? {
      RecoverRuleIsStep(c, s, token, if c.writeOffset == c.request.length then ReadError else WriteError, ev.connects);
    } else {
      DeferOrRetryRuleIsStep(c, s, token, ev.connects);
    }
  }

  /** A sound rule after a step is a sound rule from before it. */
  lemma SoundAfter(c: Conn, s: Shared, c1: Conn, s1: Shared, token: nat, r: After, failures: set<Failure>)
    requires Step(c, s, c1, s1, token) && Sound(c1, s1, token, r, failures)
    ensures Sound(c, s, token, r, failures)
  {
    if r.Ok? { StepTransitive(c, s, c1, s1, r.value.0, r.value.1, token); }
  }

  /** The same for the rules with a flag: an event that goes on leaves a connection that can be read. */
  ghost predicate SoundPart(c: Conn, s: Shared, token: nat, r: Res<(Conn, Shared, bool)>, failures: set<Failure>)
  {
    match r
    case Err(f) => f in failures
    case Ok((c', s', goOn)) => SlotStep(c, s, c', s', token) && (goOn ==> !c'.done && !c'.reconnectAtPace)
  }

  lemma WriteRuleIsStep(c: Conn, s: Shared, token: nat, ev: Event)
    requires Core(c, s, token) && Covered(c, s, token) && !c.done && !c.reconnectAtPace
    ensures SoundPart(c, s, token, WriteRule(c, s, token, ev), Refusals(c))
  {
    WriteKeepsCore(c, s, token, ev.writes);
    var (c1, ok) := WriteRequest(c, s.clock, ev.writes);
    if ok {
      WriteIsStep(c, s, token, ev.writes);
    } else {
      var r := RecoverRule(c1, s, token, WriteError, ev.connects);
      RecoverRuleIsStep(c1, s, token, WriteError, ev.connects);
      SoundAfter(c, s, c1, s, token, r, Refusals(c));
    }
  }

  lemma WritableRuleIsStep(c: Conn, s: Shared, token: nat, ev: Event)
    requires Core(c, s, token) && Covered(c, s, token) && !c.done && !c.reconnectAtPace
    ensures SoundPart(c, s, token, WritableRule(c, s, token, ev), Refusals(c))
  {
    var stop := StopIfExpired(c, s.clock);
    ExpiredIsStep(c, s, token);
    if !stop.value.1 {
      if ev.pendingError { DeferOrRetryRuleIsStep(c, s, token, ev.connects); } else { WriteRuleIsStep(c, s, token, ev); }
    }
  }

  /** Stopping an unstarted connection whose time is over. */
  lemma ExpiredIsStep(c: Conn, s: Shared, token: nat)
    requires Core(c, s, token) && !c.done && !c.reconnectAtPace
    ensures match StopIfExpired(c, s.clock)
            case Err(_) => false
            case Ok((c', stopped)) => if stopped then SlotStep(c, s, c', s.(active := s.active - 1), token) else c' == c
  {
    if c.limit.Deadline? { StopIsStep(c, s, token); }
  }

  const ENDINGS: set<Failure> := {ConnectRefused, WriteRefused, InvalidResponse}

  lemma RefreshRuleIsStep(c: Conn, s: Shared, token: nat)
    requires Core(c, s, token) && Covered(c, s, token) && !c.done && !c.reconnectAtPace
    ensures Sound(c, s, token, RefreshRule(c, s), {})
  {
    RefreshIsStep(c, s, token);
  }

  /** Only a completed or malformed response can end a request-limited run. */
  function ReadEndings(g: Grammar, c: Conn, inputs: seq<ReadOutcome>): set<Failure>
    requires Configured(c.decoder)
  {
    var response := ReadResponse(g, c, inputs).1;
    if response.Completed? then {ConnectRefused, WriteRefused} else if response.Malformed? then {InvalidResponse} else Refusals(c)
  }

  lemma ReadableRuleIsStep(g: Grammar, c: Conn, s: Shared, token: nat, ev: Event)
    requires Core(c, s, token) && Covered(c, s, token) && !c.done && !c.reconnectAtPace
    ensures Sound(c, s, token, ReadableRule(g, c, s, token, ev), ReadEndings(g, c, ev.inputs))
  {
    var (c1, response) := ReadResponse(g, c, ev.inputs);
    if response.Completed? {
      FinishIsStep(g, c, s, token, ev.inputs, ev.draw, ev.connects, ev.nextWrites);
    } else if !response.Malformed? {
      UnansweredIsStep(g, c, s, token, ev);
    }
  }

  lemma UnansweredIsStep(g: Grammar, c: Conn, s: Shared, token: nat, ev: Event)
    requires Core(c, s, token) && Covered(c, s, token) && !c.done && !c.reconnectAtPace
    requires ReadResponse(g, c, ev.inputs).1 in {NoResponse, Unconnected, Lost}
    ensures Sound(c, s, token, ReadableRule(g, c, s, token, ev), Refusals(c))
  {
    ReadIsStep(g, c, s, token, ev.inputs);
    var (c1, response) := ReadResponse(g, c, ev.inputs);
    var c2, s2 := c1.(pendingRead := 0), CountRead(s, c1.pendingRead, 0);
    if response.NoResponse? || (response.Unconnected? && c2.started.None?) {
      RefreshRuleIsStep(c2, s2, token);
    } else if c2.started.None? {
      DeferOrRetryRuleIsStep(c2, s2, token, ev.connects);
    } else {
      RecoverRuleIsStep(c2, s2, token, ReadError, ev.connects);
    }
    SoundAfter(c, s, c2, s2, token, UnansweredRule(c2, s2, token, response, ev), Refusals(c));
  }

  lemma EventRuleIsStep(g: Grammar, c: Conn, s: Shared, token: nat, ev: Event)
    requires Core(c, s, token) && Covered(c, s, token) && !c.done && !c.reconnectAtPace
    ensures Sound(c, s, token, EventRule(g, c, s, token, ev), ENDINGS)
  {
    if ev.error && ev.socketError {
      ErrorRuleIsStep(c, s, token, ev);
    } else if ev.writable {
      WritableRuleIsStep(c, s, token, ev);
      var r := WritableRule(c, s, token, ev);
      if r.Ok? && r.value.2 && ev.readable {
        ReadableRuleIsStep(g, r.value.0, r.value.1, token, ev);
        SoundAfter(c, s, r.value.0, r.value.1, token, ReadableRule(g, r.value.0, r.value.1, token, ev), ENDINGS);
      }
    } else if ev.readable {
      ReadableRuleIsStep(g, c, s, token, ev);
    } else {
      OnlyForSame(s.deadlines, token);
      OnlyForSame(s.pacing, token);
    }
  }

  /** A live due deadline, taken from the queue. */
  lemma ExpiryRuleIsStep(c: Conn, s: Shared, token: nat, connects: seq<set<nat>>)
    requires Core(c, s, token) && Covered(c, s, token) && !c.done
    requires s.deadlines != [] && IsFor(s.deadlines[0], token, c.generation) && s.deadlines[0].at <= s.clock
    ensures Sound(c, s, token, ExpiryRule(c, PopDeadline(s), token, connects), Refusals(c))
  {
    DeadlineFires(c, s, token);
    var s1 := PopDeadline(s);
    DueIsStep(c, s1, token, connects);
    SoundAfter(c, s, c, s1, token, ExpiryRule(c, s1, token, connects), Refusals(c));
  }

  /** What a due deadline means, once it is taken from the queue. */
  lemma DueIsStep(c: Conn, s: Shared, token: nat, connects: seq<set<nat>>)
    requires Core(c, s, token) && !c.done && !c.reconnectAtPace
    requires c.started.None? && !c.limit.ShouldContinue(c.completed, s.clock) ==> c.limit.Deadline?
    ensures Sound(c, s, token, ExpiryRule(c, s, token, connects), Refusals(c))
  {
    if c.started.Some? {
      RecoverRuleIsStep(c, s, token, TimeoutError, connects);
    } else if c.limit.ShouldContinue(c.completed, s.clock) {
      RetryRuleIsStep(c, s, token, connects);
    } else {
      StopIsStep(c, s, token);
    }
  }

  /** A live due slot, taken from the queue: the connection stops or is handed over to writability. */
  lemma SlotRuleIsStep(c: Conn, s: Shared, token: nat, connects: seq<set<nat>>)
    requires Core(c, s, token) && Covered(c, s, token) && !c.done
    requires s.pacing != [] && IsFor(s.pacing[0], token, c.generation) && s.pacing[0].at <= s.clock
    ensures Sound(c, s, token, SlotRule(c, PopPacing(s), token, connects), {ConnectRefused})
    ensures var r := SlotRule(c, PopPacing(s), token, connects);
            && (r.Err? ==> c.reconnectAtPace)
            && (r.Ok? && !r.value.0.done ==> Ready(r.value.0, s.clock) && HandedOver(r.value.0, r.value.1, token))
  {
    PacingFires(c, s, token, connects);
  }

  /**
   * A connection that was closed to wait and is opened again at its slot gets no timer at all, although it has a
   * connection deadline: nothing times it out until its socket becomes writable.
   */
  lemma ReopenedWithoutTimer(c: Conn, s: Shared, token: nat, connects: seq<set<nat>>)
    requires Core(c, s, token) && Covered(c, s, token) && !c.done && c.reconnectAtPace
    requires s.pacing != [] && IsFor(s.pacing[0], token, c.generation) && s.pacing[0].at <= s.clock
    ensures match SlotRule(c, PopPacing(s), token, connects)
            case Err(_) => ConnectFrom(c.addresses, 0, Reachable(connects, 0)).None?
            case Ok((c', s')) => c'.done || UntimedConnection(c', s', token)
  {
    SlotRuleIsStep(c, s, token, connects);
  }

  /** Connected and not started, with a deadline that is in no queue. */
  predicate UntimedConnection(c: Conn, s: Shared, token: nat)
  {
    && c.started.None? && !c.awaitingPace && NextDeadline(c, s.timeout).Some?
    && Matching(s.deadlines, token, c.generation) == [] && Matching(s.pacing, token, c.generation) == []
  }

  /** It stays so whatever the clock says. */
  lemma NoTimerWhileHandedOver(w: W, t: nat)
    requires Inv(w) && t < |w.conns| && !w.conns[t].done && HandedOver(w.conns[t], w.shared, t) && !w.conns[t].awaitingPace
    ensures UntimedConnection(w.conns[t], w.shared, t)
  {
    assert Covered(w.conns[t], w.shared, t);
  }

  // ----- the rules on the whole worker -----

  /** The same connections' limits, and the same limits given up. */
  predicate SameLimits(w: W, w': W)
  {
    && |w'.conns| == |w.conns| && w'.slots == w.slots && w'.refused == w.refused
    && forall i :: 0 <= i < |w.conns| ==> w'.conns[i].limit == w.conns[i].limit
  }

  /** The worker after a rule for one of its connections. */
  ghost function Replaced(w: W, token: nat, r: After): Res<W>
    requires token < |w.conns|
  {
    match r
    case Err(f) => Err(f)
    case Ok((c, s)) => Ok(w.(conns := w.conns[token := c], shared := s))
  }

  lemma SoundKeepsInv(w: W, token: nat, r: After, failures: set<Failure>)
    requires Inv(w) && token < |w.conns| && Sound(w.conns[token], w.shared, token, r, failures)
    ensures match Replaced(w, token, r)
            case Err(f) => f in failures
            case Ok(w') => Inv(w') && SameLimits(w, w') && w'.shared.clock == w.shared.clock
  {
    if r.Ok? { StepKeepsInv(w, token, r.value.0, r.value.1); }
  }

  lemma LiveIsUsable(w: W, token: nat)
    requires Inv(w) && token < |w.conns| && !w.conns[token].done
    ensures Core(w.conns[token], w.shared, token) && Covered(w.conns[token], w.shared, token)
    ensures Usable(w.conns[token])
    ensures w.conns[token].reconnectAtPace <==> w.conns[token].interest.Unregistered?
  {
    assert Core(w.conns[token], w.shared, token) && Covered(w.conns[token], w.shared, token);
  }

  ghost function At(w: W, now: int): (r: W)
    requires Inv(w)
    ensures Inv(r) && r.shared.clock == Max(w.shared.clock, now)
  {
    TickKeepsInv(w, now);
    w.(shared := Tick(w.shared, now))
  }

  /** One readiness event; events for sockets that are not registered are not delivered. */
  ghost function EventOn(g: Grammar, w: W, ev: Event): (r: Res<W>)
    requires Inv(w)
    ensures match r case Err(f) => f in ENDINGS case Ok(w') => Inv(w') && SameLimits(w, w')
  {
    var w1 := At(w, ev.now);
    if |w1.conns| <= ev.token || w1.conns[ev.token].done || w1.conns[ev.token].interest.Unregistered? then Ok(w1)
    else
      var c := w1.conns[ev.token];
      LiveIsUsable(w1, ev.token);
      EventRuleIsStep(g, c, w1.shared, ev.token, ev);
      var r := EventRule(g, c, w1.shared, ev.token, ev);
      SoundKeepsInv(w1, ev.token, r, ENDINGS);
      Replaced(w1, ev.token, r)
  }

  ghost function EventsOn(g: Grammar, w: W, events: seq<Event>): (r: Res<W>)
    requires Inv(w)
    ensures match r case Err(f) => f in ENDINGS case Ok(w') => Inv(w') && SameLimits(w, w')
    decreases |events|
  {
    if events == [] then Ok(w)
    else match EventOn(g, w, events[0])
      case Err(f) => Err(f)
      case Ok(w1) => EventsOn(g, w1, events[1..])
  }

  /** Events are handled one after another, each by the worker that the ones before it leave. */
  lemma {:induction false} EventsInOrder(g: Grammar, w: W, first: seq<Event>, rest: seq<Event>)
    requires Inv(w)
    ensures match EventsOn(g, w, first)
            case Err(f) => EventsOn(g, w, first + rest) == Err(f)
            case Ok(w1) => EventsOn(g, w, first + rest) == EventsOn(g, w1, rest)
    ensures first != [] && rest == [] && |first| == 1 ==> EventsOn(g, w, first) == EventOn(g, w, first[0])
    decreases |first|
  {
    if first == [] {
      assert first + rest == rest;
    } else {
      assert (first + rest)[1..] == first[1..] + rest;
      var r := EventOn(g, w, first[0]);
      if r.Ok? { EventsInOrder(g, r.value, first[1..], rest); }
    }
  }

  /** The head of the deadline queue, which is due: dropped if it is stale, fired if it is live. */
  ghost function DeadlineOn(w: W, firing: Firing): (r: Res<W>)
    requires Inv(w) && w.shared.deadlines != [] && w.shared.deadlines[0].at <= Max(w.shared.clock, firing.now)
    ensures match r
            case Err(f) => f == ConnectRefused
            case Ok(w') => Inv(w') && SameLimits(w, w') && w'.shared.clock == Max(w.shared.clock, firing.now)
  {
    DeadlineHead(At(w, firing.now), firing.connects)
  }

  ghost function DeadlineHead(w: W, connects: seq<set<nat>>): (r: Res<W>)
    requires Inv(w) && w.shared.deadlines != [] && w.shared.deadlines[0].at <= w.shared.clock
    ensures match r
            case Err(f) => f == ConnectRefused
            case Ok(w') => Inv(w') && SameLimits(w, w') && w'.shared.clock == w.shared.clock
  {
    var e := w.shared.deadlines[0];
    assert e in w.shared.deadlines;
    if Stale(e, w.conns) then
      DropDeadlineKeepsInv(w);
      Ok(w.(shared := PopDeadline(w.shared)))
    else
      var c := w.conns[e.token];
      LiveIsUsable(w, e.token);
      ExpiryRuleIsStep(c, w.shared, e.token, connects);
      var r := ExpiryRule(c, PopDeadline(w.shared), e.token, connects);
      SoundKeepsInv(w, e.token, r, Refusals(c));
      Replaced(w, e.token, r)
  }

  /** The head of the pacing queue, which is due. */
  ghost function SlotOn(w: W, firing: Firing): (r: Res<W>)
    requires Inv(w) && w.shared.pacing != [] && w.shared.pacing[0].at <= Max(w.shared.clock, firing.now)
    ensures match r
            case Err(f) => f == ConnectRefused
            case Ok(w') => Inv(w') && SameLimits(w, w') && w'.shared.clock == Max(w.shared.clock, firing.now)
  {
    SlotHead(At(w, firing.now), firing.connects)
  }

  ghost function SlotHead(w: W, connects: seq<set<nat>>): (r: Res<W>)
    requires Inv(w) && w.shared.pacing != [] && w.shared.pacing[0].at <= w.shared.clock
    ensures match r
            case Err(f) => f == ConnectRefused
            case Ok(w') => Inv(w') && SameLimits(w, w') && w'.shared.clock == w.shared.clock
  {
    var e := w.shared.pacing[0];
    assert e in w.shared.pacing;
    if Stale(e, w.conns) then
      DropPacingKeepsInv(w);
      Ok(w.(shared := PopPacing(w.shared)))
    else
      var c := w.conns[e.token];
      LiveIsUsable(w, e.token);
      SlotRuleIsStep(c, w.shared, e.token, connects);
      var r := SlotRule(c, PopPacing(w.shared), e.token, connects);
      SoundKeepsInv(w, e.token, r, {ConnectRefused});
      Replaced(w, e.token, r)
  }

  /** Every deadline that is due. Ok with false when the script ends first. */
  ghost function DeadlinesOn(w: W, due: int, firings: seq<Firing>): (r: Res<(W, bool)>)
    requires Inv(w) && due <= w.shared.clock
    ensures match r case Err(f) => f == ConnectRefused case Ok((w', _)) => Inv(w') && SameLimits(w, w')
    decreases |firings|
  {
    if w.shared.deadlines == [] || due < w.shared.deadlines[0].at then Ok((w, true))
    else if firings == [] then Ok((w, false))
    else match DeadlineOn(w, firings[0])
      case Err(f) => Err(f)
      case Ok(w1) => DeadlinesOn(w1, due, firings[1..])
  }

  ghost function SlotsOn(w: W, due: int, firings: seq<Firing>): (r: Res<(W, bool)>)
    requires Inv(w) && due <= w.shared.clock
    ensures match r case Err(f) => f == ConnectRefused case Ok((w', _)) => Inv(w') && SameLimits(w, w')
    decreases |firings|
  {
    if w.shared.pacing == [] || due < w.shared.pacing[0].at then Ok((w, true))
    else if firings == [] then Ok((w, false))
    else match SlotOn(w, firings[0])
      case Err(f) => Err(f)
      case Ok(w1) => SlotsOn(w1, due, firings[1..])
  }

  // ----- cleaning the queues -----

  ghost function CleanDeadlines(w: W): (r: W)
    requires Inv(w)
    ensures Inv(r) && r == w.(shared := w.shared.(deadlines := r.shared.deadlines))
    ensures var q := r.shared.deadlines; q != [] ==> q[0].token < |w.conns| && !Stale(q[0], w.conns)
    decreases |w.shared.deadlines|
  {
    var q := w.shared.deadlines;
    assert q != [] ==> q[0] in q;
    if q == [] || !Stale(q[0], w.conns) then w
    else
      DropDeadlineKeepsInv(w);
      CleanDeadlines(w.(shared := PopDeadline(w.shared)))
  }

  /** A pacing head is also dropped when its connection has another slot by now. */
  predicate StaleSlot(e: Entry, conns: seq<Conn>)
    requires e.token < |conns|
  {
    Stale(e, conns) || PacingDeadline(conns[e.token]) != Some(e.at)
  }

  /** That cannot happen to a live one. */
  lemma StaleSlotIsStale(w: W)
    requires Inv(w) && w.shared.pacing != []
    ensures var e := w.shared.pacing[0]; e.token < |w.conns| && (StaleSlot(e, w.conns) <==> Stale(e, w.conns))
  {
    var e := w.shared.pacing[0];
    assert e in w.shared.pacing;
    if !Stale(e, w.conns) { LiveEntryIsDue(w, e); }
  }

  ghost function CleanSlots(w: W): (r: W)
    requires Inv(w)
    ensures Inv(r) && r == w.(shared := w.shared.(pacing := r.shared.pacing))
    ensures var q := r.shared.pacing; q != [] ==> q[0].token < |w.conns| && !Stale(q[0], w.conns)
    decreases |w.shared.pacing|
  {
    var q := w.shared.pacing;
    if q == [] then w
    else
      StaleSlotIsStale(w);
      if !StaleSlot(q[0], w.conns) then w
      else
        DropPacingKeepsInv(w);
        CleanSlots(w.(shared := PopPacing(w.shared)))
  }

  // ----- the loop -----

  /** The due deadlines, then the due slots, each up to the clock when its turn comes. */
  ghost function TimersOn(w: W, round: Round): (r: Res<(W, bool)>)
    requires Inv(w)
    ensures match r case Err(f) => f == ConnectRefused case Ok((w', _)) => Inv(w') && SameLimits(w, w')
  {
    var w1 := At(w, round.expiryNow);
    match DeadlinesOn(w1, w1.shared.clock, round.expiries)
    case Err(f) => Err(f)
    case Ok((w2, fired)) =>
      if !fired then Ok((w2, false))
      else
        var w3 := At(w2, round.slotNow);
        SlotsOn(w3, w3.shared.clock, round.slots)
  }

  /** One turn of the main loop: cleaning, events, due deadlines, due slots. Ok with false when the script ends in the middle of it. */
  ghost function RoundOn(g: Grammar, w: W, round: Round): (r: Res<(W, bool)>)
    requires Inv(w)
    ensures match r case Err(f) => f in ENDINGS case Ok((w', _)) => Inv(w') && SameLimits(w, w')
  {
    match EventsOn(g, CleanSlots(CleanDeadlines(w)), round.events)
    case Err(f) => Err(f)
    case Ok(w1) => TimersOn(w1, round)
  }

  /** The main loop until no connection is active. Ok with false when the script ends first. */
  ghost function RoundsOn(g: Grammar, w: W, rounds: seq<Round>): (r: Res<(W, bool)>)
    requires Inv(w)
    ensures match r
            case Err(f) => f in ENDINGS
            case Ok((w', finished)) => Inv(w') && SameLimits(w, w') && (finished ==> w'.shared.active == 0)
    decreases |rounds|
  {
    ActiveIsUnfinished(w);
    if w.shared.active == 0 then Ok((w, true))
    else if rounds == [] then Ok((w, false))
    else match RoundOn(g, w, rounds[0])
      case Err(f) => Err(f)
      case Ok((w1, turned)) => if turned then RoundsOn(g, w1, rounds[1..]) else Ok((w1, false))
  }
}
