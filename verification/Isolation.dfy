/** Which socket failures end a run with an error, and which stay with their connection (src/engine/connection.rs, src/engine/mod.rs). */
module Isolation {
  import opened Prelude
  import opened ResponseHead
  import opened HeadProofs
  import opened Decoder
  import opened DecoderProofs
  import opened ChunkedRoundTrip
  import opened FramingProofs
  import opened Connections
  import opened WorkerSpec
  import opened WorkerSteps
  import opened WorkerRules
  import opened WorkerRuns

  predicate Unreachable(addresses: nat, start: nat, reachable: set<nat>)
  {
    forall i :: start <= i < addresses ==> i !in reachable
  }

  // ----- one event of a request-limited connection -----

  /** How going on after a completed response ends the run, if it does. */
  function NextEnding(c: Conn, close: bool, ev: Event, now: int): Option<Failure>
  {
    if !c.limit.ShouldContinue(c.completed + 1, now) then None
    else if close then
      if ConnectFrom(c.addresses, 0, Reachable(ev.connects, 0)).None? then Some(ConnectRefused) else None
    else if ev.draw.notBefore.Some? && now < ev.draw.notBefore.value then None
    else if Transmit(ev.nextWrites, 0, ev.draw.length).ok then None else Some(WriteRefused)
  }

  /** How a read ends the run, if it does: by a malformed response, or by a completed one that is not the last. */
  function ReadEnding(g: Grammar, c: Conn, ev: Event, now: int): Option<Failure>
    requires Configured(c.decoder)
  {
    match ReadResponse(g, c, ev.inputs).1
    case Malformed => Some(InvalidResponse)
    case Completed(_, _, close) => NextEnding(c, close, ev, now)
    case _ => None
  }

  /** Whether the event gets to its readable part: no socket error, and what is due is written. */
  predicate GetsToRead(c: Conn, ev: Event, now: int)
    requires c.writeOffset <= c.request.length
  {
    ev.readable && !(ev.error && ev.socketError)
    && (ev.writable ==> !ev.pendingError && WriteRequest(c, now, ev.writes).1)
  }

  /** A completed response that is not the last ends the run when the next request cannot be sent. */
  lemma FinishEnding(c: Conn, s: Shared, token: nat, response: ReadResult, ev: Event)
    requires response.Completed? && !c.interest.Unregistered?
    ensures var r := FinishRule(c, s, token, response.status, response.close, ev);
            (if r.Err? then Some(r.failure) else None) == NextEnding(c, response.close, ev, s.clock)
  {
  }

  lemma ReadEndsTheRun(g: Grammar, c: Conn, s: Shared, token: nat, ev: Event)
    requires Core(c, s, token) && Covered(c, s, token) && !c.done && !c.reconnectAtPace && c.limit.Requests?
    ensures var r := ReadableRule(g, c, s, token, ev);
            ReadEnding(g, c, ev, s.clock) == if r.Err? then Some(r.failure) else None
  {
    var response := ReadResponse(g, c, ev.inputs).1;
    if response.Completed? {
      var c1 := ReadResponse(g, c, ev.inputs).0.(pendingRead := 0);
      FinishEnding(c1, CountRead(s, ReadResponse(g, c, ev.inputs).0.pendingRead, response.bodyLength), token, response, ev);
    } else if !response.Malformed? {
      UnansweredIsStep(g, c, s, token, ev);
    }
  }

  /** A write that goes on changes nothing that a read depends on. */
  lemma WritingKeepsReading(g: Grammar, c: Conn, s: Shared, token: nat, ev: Event)
    requires Core(c, s, token) && !c.done && !c.reconnectAtPace && c.limit.Requests?
    ensures var r := WritableRule(c, s, token, ev);
            && (r.Ok? && r.value.2 <==> !ev.pendingError && WriteRequest(c, s.clock, ev.writes).1)
            && (r.Ok? && r.value.2 ==>
                  && Configured(r.value.0.decoder) && r.value.1.clock == s.clock && r.value.0.limit == c.limit
                  && ReadEnding(g, r.value.0, ev, s.clock) == ReadEnding(g, c, ev, s.clock))
  {
  }

  /**
   * An event ends a run through a request-limited connection exactly when it gets to read, and reads a malformed
   * response, or a complete one after which the next request meets a refused connection or a refused write.
   */
  lemma EventEndsTheRun(g: Grammar, c: Conn, s: Shared, token: nat, ev: Event)
    requires Core(c, s, token) && Covered(c, s, token) && !c.done && !c.reconnectAtPace && c.limit.Requests?
    ensures var r := EventRule(g, c, s, token, ev);
            (if r.Err? then Some(r.failure) else None) ==
            if GetsToRead(c, ev, s.clock) then ReadEnding(g, c, ev, s.clock) else None
  {
    if ev.error && ev.socketError {
      ErrorRuleIsStep(c, s, token, ev);
    } else if ev.writable {
      WritableRuleIsStep(c, s, token, ev);
      WritingKeepsReading(g, c, s, token, ev);
      var r := WritableRule(c, s, token, ev);
      if r.Ok? && r.value.2 && ev.readable { ReadEndsTheRun(g, r.value.0, r.value.1, token, ev); }
    } else if ev.readable {
      ReadEndsTheRun(g, c, s, token, ev);
    }
  }

  /**
   * For instance: the request is written, answered in full, and more is to come; the next request is due at once and its
   * first write fails. The run ends.
   */
  lemma NextWriteEndsTheRun(g: Grammar, c: Conn, s: Shared, token: nat, ev: Event)
    requires Core(c, s, token) && Covered(c, s, token) && !c.done && !c.reconnectAtPace && c.limit.Requests?
    requires ev.writable && ev.readable && !ev.error && !ev.pendingError && !Early(c, s.clock)
    requires c.writeOffset == 0 && ev.writes == [Wrote(c.request.length)]
    requires var r := ReadResponse(g, c, ev.inputs).1; r.Completed? && !r.close && c.completed + 1 < c.limit.count
    requires (ev.draw.notBefore.Some? ==> ev.draw.notBefore.value <= s.clock) && ev.nextWrites == [WriteFailed]
    ensures EventRule(g, c, s, token, ev) == Err(WriteRefused)
  {
    EventEndsTheRun(g, c, s, token, ev);
  }

  /** A due deadline never ends a run through a request-limited connection. */
  lemma DeadlineNeverEndsTheRun(c: Conn, s: Shared, token: nat, connects: seq<set<nat>>)
    requires Core(c, s, token) && Covered(c, s, token) && !c.done && c.limit.Requests?
    requires s.deadlines != [] && IsFor(s.deadlines[0], token, c.generation) && s.deadlines[0].at <= s.clock
    ensures ExpiryRule(c, PopDeadline(s), token, connects).Ok?
  {
    ExpiryRuleIsStep(c, s, token, connects);
  }

  /** A due slot ends it exactly when the connection was closed to wait and is now refused. */
  lemma SlotEndsTheRun(c: Conn, s: Shared, token: nat, connects: seq<set<nat>>)
    requires Core(c, s, token) && Covered(c, s, token) && !c.done && c.limit.Requests?
    requires s.pacing != [] && IsFor(s.pacing[0], token, c.generation) && s.pacing[0].at <= s.clock
    ensures SlotRule(c, PopPacing(s), token, connects).Err? <==>
            c.reconnectAtPace && Unreachable(c.addresses, 0, Reachable(connects, 0))
  {
    SlotRuleIsStep(c, s, token, connects);
  }

  // ----- the worker -----

  /** The same for the worker: only a delivered event can end it. */
  lemma WorkerEventEndsTheRun(g: Grammar, w: W, ev: Event)
    requires Inv(w) && AllFixed(w.conns)
    ensures var r := EventOn(g, w, ev);
            var now := Max(w.shared.clock, ev.now);
            (if r.Err? then Some(r.failure) else None) ==
            if |w.conns| <= ev.token then None
            else
              var c := w.conns[ev.token];
              if c.done || c.interest.Unregistered? || !Usable(c) || !GetsToRead(c, ev, now) then None
              else ReadEnding(g, c, ev, now)
  {
    var w1 := At(w, ev.now);
    if ev.token < |w.conns| && !w.conns[ev.token].done {
      LiveIsUsable(w1, ev.token);
      assert w.conns[ev.token] in w.conns;
      if !w.conns[ev.token].interest.Unregistered? {
        EventEndsTheRun(g, w1.conns[ev.token], w1.shared, ev.token, ev);
      }
    }
  }

  /** On a duration-limited connection recovery and retry end the run exactly when the one connection attempt is refused with time left. */
  lemma DurationFailuresEndTheRun(c: Conn, s: Shared, token: nat, kind: ErrorKind, connects: seq<set<nat>>)
    requires Core(c, s, token) && !c.done && !c.reconnectAtPace && c.limit.Deadline?
    ensures c.started.Some? ==>
              (RecoverRule(c, s, token, kind, connects).Err? <==>
                 !c.limit.Passed(s.clock) && Unreachable(c.addresses, 0, Reachable(connects, 0)))
    ensures RetryRule(c, s, token, connects).Err? <==>
            Unreachable(c.addresses, if c.addressIndex + 1 < c.addresses then c.addressIndex + 1 else 0,
                        Reachable(connects, 0))
  {
    RetryRuleIsStep(c, s, token, connects);
    if c.started.Some? { RecoverRuleIsStep(c, s, token, kind, connects); }
  }

  // ----- a run that ends -----

  /** A status line without any field: the body lasts until the connection closes. */
  lemma StatusLineHead(version: string, code: string, status: nat)
    requires Word(version) && Word(code) && Numeral(code, status) && status <= 0xFFFF
    requires !("HTTP/1.0" <= StatusLine(version, code, ""))
    ensures Ascii(StatusLine(version, code, ""))
    ensures ParseResponseHead(Bytes(StatusLine(version, code, ""))) == HeadOk(Head(status, false, CloseDelimited))
  {
    HeadIsRead(version, code, "", []);
    assert HeadText(StatusLine(version, code, ""), []) == StatusLine(version, code, "");
    var r := ParseResponseHead(Bytes(StatusLine(version, code, "")));
    assert r.HeadOk?;
    NumbersAreRead(code, 0xFFFF, status);
    NumbersAreRead(code, 0xFFFF, r.head.status);
    assert forall n: nat :: !LengthIs([], n);
  }

  lemma HeadIsFirst(head: seq<byte>)
    requires 13 !in head
    ensures FindBytes(head + CRLFCRLF + [], CRLFCRLF) == Some(|head|)
  {
    var s := head + CRLFCRLF + [];
    FindFromIsFirst(s, CRLFCRLF, 0);
    assert s[|head|..|head| + 4] == CRLFCRLF;
    assert IsAt(s, CRLFCRLF, |head|);
    forall j: nat | j < |head| ensures !IsAt(s, CRLFCRLF, j) {
      assert s[j] == head[j] && head[j] in head;
      if j + 4 <= |s| { assert s[j..j + 4][0] == s[j]; }
    }
  }

  /** A response without a length, and then the end of input. */
  lemma ClosingRead(g: Grammar, head: seq<byte>)
    requires Headed(g, head, []) && g.parseHead(head).head.framing.CloseDelimited?
    ensures ReadLoop(g, NewDecoder(false), [Received(head + CRLFCRLF + []), Received([])]).2 == Completed(g.parseHead(head).head.status, 0, true)
  {
    var s := head + CRLFCRLF + [];
    NewStandsForNothing(g, false);
    HeadOnly(g, false, head, [], false);
    HeadOnly(g, false, head, [], true);
    assert [] + s == s && s + [] == s;
    FeedSimulates(g, NewDecoder(false), false, [], s, false);
    var d := Feed(g, NewDecoder(false), s, false).0;
    FeedSimulates(g, d, false, s, [], true);
    assert [Received(s), Received([])][1..] == [Received([])];
  }

  /** A server that answers the first request with only a status line, closes, and then refuses connections. */
  function AnswerAndClose(version: string, code: string, draw: Draw): Event
    requires Word(version) && Word(code)
  {
    Event(0, 0, false, false, true, false, true,
          [Wrote(draw.length)], [Received(Bytes(StatusLine(version, code, "")) + CRLFCRLF + []), Received([])], [{}], draw, [])
  }

  lemma AnswerEndsTheRun(version: string, code: string, status: nat, draw: Draw, c: Conn)
    requires Word(version) && Word(code) && Numeral(code, status) && status <= 0xFFFF
    requires !("HTTP/1.0" <= StatusLine(version, code, "")) && |version| + 1 + |code| + 3 <= MAX_HEADER_BYTES
    requires !draw.isHead && draw.notBefore.None? && c == Fresh(1, 0, draw, Requests(2), 0)
    ensures var ev := AnswerAndClose(version, code, draw);
            GetsToRead(c, ev, 0) && ReadEnding(HTTP, c, ev, 0) == Some(ConnectRefused)
  {
    var head := Bytes(StatusLine(version, code, ""));
    StatusLineHead(version, code, status);
    HeadIsFirst(head);
    assert HTTP.parseHead(head) == ParseResponseHead(head);
    ClosingRead(HTTP, head);
    assert ConnectFrom(1, 0, {}).None? by { assert ConnectFrom(1, 1, {}).None?; }
  }

  function OneConnection(timeout: nat, draw: Draw, count: nat): W
  {
    WithOpened(AfterAttempts(EmptyWorker(timeout), 0, 0), Fresh(1, 0, draw, Requests(count), 0))
  }

  lemma OpensOne(timeout: nat, draw: Draw, count: nat)
    ensures OpeningsOn(EmptyWorker(timeout), 1, [Requests(count)], [[Dialing({0}, 0, draw)]]) ==
            (Connected, OneConnection(timeout, draw, count))
  {
    var dials := [Dialing({0}, 0, draw)];
    assert [Requests(count)][..0] == [];
    assert DialOn(1, Requests(count), dials, 0, 0) == Reached(0, 0, 0, draw);
  }

  /** A run that opens one connection is then the loop of its worker. */
  lemma RunsFromOpening(timeout: nat, draw: Draw, count: nat, rounds: seq<Round>)
    requires 0 < count
    ensures Inv(OneConnection(timeout, draw, count))
    ensures var r := RunOn(HTTP, timeout, 1, [Requests(count)], [[Dialing({0}, 0, draw)]], rounds);
            match RoundsOn(HTTP, OneConnection(timeout, draw, count), rounds)
            case Err(f) => r.0 == Failed(f)
            case Ok((w, finished)) => r == (if finished then Finished else Unfinished, w)
  {
    OpensOne(timeout, draw, count);
    OpeningsKeep(timeout, 1, [Requests(count)], [[Dialing({0}, 0, draw)]], []);
    assert [Requests(count)] + [] == [Requests(count)];
  }

  /** A worker with one fresh connection and its first timer. */
  ghost predicate Alone(w: W, timeout: nat, draw: Draw, count: nat)
  {
    && Inv(w) && w.conns == [Fresh(1, 0, draw, Requests(count), 0)]
    && w.shared.active == 1 && w.shared.clock == 0 && w.shared.timeout == timeout
    && w.shared.deadlines == [Entry(timeout, 0, 0)] && w.shared.pacing == [] && w.shared.answers == []
    && w.shared.counters == NOTHING
  }

  lemma OneIsAlone(timeout: nat, draw: Draw, count: nat)
    requires Inv(OneConnection(timeout, draw, count))
    ensures Alone(OneConnection(timeout, draw, count), timeout, draw, count)
  {
  }

  lemma NothingToClean(w: W, timeout: nat, draw: Draw, count: nat)
    requires Alone(w, timeout, draw, count)
    ensures CleanSlots(CleanDeadlines(w)) == w
  {
  }

  lemma LoopIsRefused(version: string, code: string, status: nat, draw: Draw, w: W)
    requires Word(version) && Word(code) && Numeral(code, status) && status <= 0xFFFF
    requires !("HTTP/1.0" <= StatusLine(version, code, "")) && |version| + 1 + |code| + 3 <= MAX_HEADER_BYTES
    requires !draw.isHead && draw.notBefore.None? && Alone(w, w.shared.timeout, draw, 2)
    ensures RoundsOn(HTTP, w, [Round([AnswerAndClose(version, code, draw)], 0, [], 0, [])]) == Err(ConnectRefused)
  {
    var ev := AnswerAndClose(version, code, draw);
    AnswerIsRefused(version, code, status, draw, w);
    NothingToClean(w, w.shared.timeout, draw, 2);
    LoopFails(HTTP, w, ev);
  }

  lemma AnswerIsRefused(version: string, code: string, status: nat, draw: Draw, w: W)
    requires Word(version) && Word(code) && Numeral(code, status) && status <= 0xFFFF
    requires !("HTTP/1.0" <= StatusLine(version, code, "")) && |version| + 1 + |code| + 3 <= MAX_HEADER_BYTES
    requires !draw.isHead && draw.notBefore.None? && Alone(w, w.shared.timeout, draw, 2)
    ensures EventOn(HTTP, w, AnswerAndClose(version, code, draw)) == Err(ConnectRefused)
  {
    var ev := AnswerAndClose(version, code, draw);
    AnswerEndsTheRun(version, code, status, draw, w.conns[0]);
    OnlyEventEnds(HTTP, w, w.conns[0], ev, ConnectRefused);
  }

  lemma OnlyEventEnds(g: Grammar, w: W, c: Conn, ev: Event, f: Failure)
    requires Inv(w) && w.conns == [c] && c.limit.Requests? && !c.done && !c.interest.Unregistered? && c.writeOffset <= c.request.length
    requires Configured(c.decoder) && ev.token == 0 && ev.now <= w.shared.clock
    requires GetsToRead(c, ev, w.shared.clock) && ReadEnding(g, c, ev, w.shared.clock) == Some(f)
    ensures EventOn(g, w, ev) == Err(f)
  {
    LiveIsUsable(w, 0);
    WorkerEventEndsTheRun(g, w, ev);
  }

  lemma LoopFails(g: Grammar, w: W, ev: Event)
    requires Inv(w) && w.shared.active == 1 && CleanSlots(CleanDeadlines(w)) == w && EventOn(g, w, ev).Err?
    ensures RoundsOn(g, w, [Round([ev], 0, [], 0, [])]) == Err(EventOn(g, w, ev).failure)
  {
    EventsInOrder(g, w, [ev], []);
  }

  /**
   * So failures are not isolated: a run of two requests ends with an error when the server closes after the first
   * answer and refuses the next connection. No recovery is attempted, and nothing is counted as abandoned.
   */
  lemma ClosedAndRefused(version: string, code: string, status: nat, timeout: nat, draw: Draw)
    requires Word(version) && Word(code) && Numeral(code, status) && status <= 0xFFFF
    requires !("HTTP/1.0" <= StatusLine(version, code, "")) && |version| + 1 + |code| + 3 <= MAX_HEADER_BYTES
    requires !draw.isHead && draw.notBefore.None?
    ensures var round := Round([AnswerAndClose(version, code, draw)], 0, [], 0, []);
            RunOn(HTTP, timeout, 1, [Requests(2)], [[Dialing({0}, 0, draw)]], [round]).0 == Failed(ConnectRefused)
  {
    RunsFromOpening(timeout, draw, 2, [Round([AnswerAndClose(version, code, draw)], 0, [], 0, [])]);
    OneIsAlone(timeout, draw, 2);
    LoopIsRefused(version, code, status, draw, OneConnection(timeout, draw, 2));
  }

  lemma PlainStatusLine()
    ensures Word("HTTP/1.1") && Word("200") && Numeral("200", 200)
    ensures !("HTTP/1.0" <= StatusLine("HTTP/1.1", "200", ""))
  {
    assert Decimal(20) == "20" && Decimal(200) == "200" && Zeros(0) + "200" == "200";
    assert StatusLine("HTTP/1.1", "200", "")[7] != "HTTP/1.0"[7];
  }

  /** A run in which this happens: the status line is `HTTP/1.1 200`. */
  lemma ClosedAndRefusedHappens(timeout: nat, draw: Draw)
    requires !draw.isHead && draw.notBefore.None?
    ensures exists version, code :: Word(version) && Word(code) &&
              var round := Round([AnswerAndClose(version, code, draw)], 0, [], 0, []);
              RunOn(HTTP, timeout, 1, [Requests(2)], [[Dialing({0}, 0, draw)]], [round]).0 == Failed(ConnectRefused)
  {
    PlainStatusLine();
    ClosedAndRefused("HTTP/1.1", "200", 200, timeout, draw);
  }

  // ----- a run that finishes -----

  /** The connection once its request is written in one go. */
  function WrittenAtOnce(c: Conn): Conn
  {
    c.(started := Some(0), generation := c.generation + 1, writeOffset := c.request.length,
       sent := Positions(0, c.request.length), interest := Readable)
  }

  lemma WritesAtOnce(c: Conn, s: Shared, token: nat, ev: Event)
    requires c.writeOffset == 0 && c.sent == [] && c.started.None? && c.request.notBefore.None? && !c.awaitingPace
    requires c.interest.ReadWrite? && c.limit.ShouldContinue(c.completed, 0) && s.clock == 0 && 0 < c.addresses
    requires !ev.pendingError && ev.writes == [Wrote(c.request.length)]
    ensures var c1 := WrittenAtOnce(c); WritableRule(c, s, token, ev) == Ok((c1, Schedule(s, c1, token), true))
  {
    assert [] + Positions(0, c.request.length) == Positions(0, c.request.length);
    assert Transmit(ev.writes, 0, c.request.length) == Sending(c.request.length, true, Positions(0, c.request.length));
  }

  /** What the last response of a connection changes: one more completed and recorded, one less active. */
  predicate Finishes(s: Shared, s': Shared, answer: Answer)
  {
    && s'.counters.completed == s.counters.completed + 1 && s'.counters.abandoned == s.counters.abandoned
    && s'.active == s.active - 1 && s'.answers == s.answers + [answer] && s'.clock == s.clock && s'.pacing == s.pacing
  }

  /** The answer as it is read. */
  lemma AnswerIsRead(version: string, code: string, status: nat)
    requires Word(version) && Word(code) && Numeral(code, status) && status <= 0xFFFF
    requires !("HTTP/1.0" <= StatusLine(version, code, "")) && |version| + 1 + |code| + 3 <= MAX_HEADER_BYTES
    ensures Ascii(StatusLine(version, code, ""))
    ensures var inputs := [Received(Bytes(StatusLine(version, code, "")) + CRLFCRLF + []), Received([])];
            ReadLoop(HTTP, NewDecoder(false), inputs).2 == Completed(status, 0, true)
  {
    var head := Bytes(StatusLine(version, code, ""));
    StatusLineHead(version, code, status);
    HeadIsFirst(head);
    assert HTTP.parseHead(head) == ParseResponseHead(head);
    ClosingRead(HTTP, head);
  }

  /** The read of the answer to the last request of a connection. */
  lemma ReadsTheLast(g: Grammar, c: Conn, s: Shared, token: nat, ev: Event, status: nat)
    requires 0 < c.addresses && Configured(c.decoder) && ReadResponse(g, c, ev.inputs).1 == Completed(status, 0, true)
    requires c.started == Some(0) && c.limit == Requests(1) && c.completed == 0 && !c.interest.Unregistered? && s.clock == 0
    ensures var r := ReadableRule(g, c, s, token, ev);
            && r.Ok? && Finishes(s, r.value.1, Answer(c.request.entry, status, 0)) && r.value.1.deadlines == s.deadlines
  {
  }

  /** One turn of the loop in which the only active connection finishes and no timer is due. */
  /** No timer fires while all are in the future. */
  lemma NothingIsDue(w: W, round: Round)
    requires Inv(w) && w.shared.clock == 0 && w.shared.pacing == [] && forall e :: e in w.shared.deadlines ==> 0 < e.at
    requires round.expiryNow == 0 && round.slotNow == 0
    ensures TimersOn(w, round) == Ok((w, true))
  {
    assert At(w, 0) == w;
    assert w.shared.deadlines != [] ==> w.shared.deadlines[0] in w.shared.deadlines;
  }

  lemma LoopsOnce(g: Grammar, w: W, ev: Event, w': W)
    requires Inv(w) && w.shared.active == 1 && CleanSlots(CleanDeadlines(w)) == w
    requires EventOn(g, w, ev) == Ok(w') && w'.shared.active == 0 && w'.shared.clock == 0 && w'.shared.pacing == []
    requires forall e :: e in w'.shared.deadlines ==> 0 < e.at
    ensures RoundsOn(g, w, [Round([ev], 0, [], 0, [])]) == Ok((w', true))
  {
    var round := Round([ev], 0, [], 0, []);
    EventsInOrder(g, w, [ev], []);
    NothingIsDue(w', round);
    assert RoundOn(g, w, round) == Ok((w', true));
    assert [round][1..] == [];
  }

  lemma RuleFinishes(version: string, code: string, status: nat, draw: Draw, c: Conn, s: Shared)
    requires Word(version) && Word(code) && Numeral(code, status) && status <= 0xFFFF
    requires !("HTTP/1.0" <= StatusLine(version, code, "")) && |version| + 1 + |code| + 3 <= MAX_HEADER_BYTES
    requires !draw.isHead && draw.notBefore.None? && c == Fresh(1, 0, draw, Requests(1), 0) && s.clock == 0
    ensures var r := EventRule(HTTP, c, s, 0, AnswerAndClose(version, code, draw));
            && r.Ok? && Finishes(s, r.value.1, Answer(draw.entry, status, 0))
            && r.value.1.deadlines == AddTimer(s.deadlines, Some(s.timeout), 0, 1)
  {
    var ev := AnswerAndClose(version, code, draw);
    var c1 := WrittenAtOnce(c);
    WritesAtOnce(c, s, 0, ev);
    AnswerIsRead(version, code, status);
    WritesAndReadsTheLast(HTTP, c, s, 0, ev, c1, Schedule(s, c1, 0), status);
    ScheduleThenFinishes(s, c1, EventRule(HTTP, c, s, 0, ev).value.1, Answer(draw.entry, status, 0));
  }

  lemma WritesAndReadsTheLast(g: Grammar, c: Conn, s: Shared, token: nat, ev: Event, c1: Conn, s1: Shared, status: nat)
    requires Usable(c) && 0 < c1.addresses && Configured(c1.decoder) && !(ev.error && ev.socketError) && ev.writable && ev.readable
    requires WritableRule(c, s, token, ev) == Ok((c1, s1, true))
    requires ReadResponse(g, c1, ev.inputs).1 == Completed(status, 0, true)
    requires c1.started == Some(0) && c1.limit == Requests(1) && c1.completed == 0 && !c1.interest.Unregistered? && s1.clock == 0
    ensures var r := EventRule(g, c, s, token, ev);
            && r.Ok? && Finishes(s1, r.value.1, Answer(c1.request.entry, status, 0)) && r.value.1.deadlines == s1.deadlines
  {
    ReadsTheLast(g, c1, s1, token, ev, status);
    WritesThenReads(g, c, s, token, ev, c1, s1);
  }

  lemma ScheduleThenFinishes(s: Shared, c: Conn, s': Shared, answer: Answer)
    requires Finishes(Schedule(s, c, 0), s', answer) && s'.deadlines == Schedule(s, c, 0).deadlines
    requires !c.awaitingPace && c.started == Some(0) && c.generation == 1
    ensures Finishes(s, s', answer) && s'.deadlines == AddTimer(s.deadlines, Some(s.timeout), 0, 1)
  {
  }

  lemma AnswerFinishes(version: string, code: string, status: nat, draw: Draw, w: W)
    requires Word(version) && Word(code) && Numeral(code, status) && status <= 0xFFFF
    requires !("HTTP/1.0" <= StatusLine(version, code, "")) && |version| + 1 + |code| + 3 <= MAX_HEADER_BYTES
    requires !draw.isHead && draw.notBefore.None? && Alone(w, w.shared.timeout, draw, 1)
    ensures var r := EventOn(HTTP, w, AnswerAndClose(version, code, draw));
            && r.Ok? && Finishes(w.shared, r.value.shared, Answer(draw.entry, status, 0))
            && r.value.shared.deadlines == AddTimer(w.shared.deadlines, Some(w.shared.timeout), 0, 1)
  {
    RuleFinishes(version, code, status, draw, w.conns[0], w.shared);
    DeliveredToOne(HTTP, w, w.conns[0], AnswerAndClose(version, code, draw));
  }

  lemma DeliveredToOne(g: Grammar, w: W, c: Conn, ev: Event)
    requires Inv(w) && w.conns == [c] && !c.done && !c.interest.Unregistered? && ev.token == 0 && ev.now <= w.shared.clock
    requires Usable(c)
    ensures match EventRule(g, c, w.shared, 0, ev)
            case Ok((c', s')) => EventOn(g, w, ev) == Ok(w.(conns := [c'], shared := s'))
            case Err(f) => EventOn(g, w, ev) == Err(f)
  {
    assert At(w, ev.now) == w;
    assert forall c' :: w.conns[0 := c'] == [c'];
  }

  lemma WritesThenReads(g: Grammar, c: Conn, s: Shared, token: nat, ev: Event, c1: Conn, s1: Shared)
    requires Usable(c) && 0 < c1.addresses && Configured(c1.decoder) && !(ev.error && ev.socketError) && ev.writable && ev.readable
    requires WritableRule(c, s, token, ev) == Ok((c1, s1, true))
    ensures EventRule(g, c, s, token, ev) == ReadableRule(g, c1, s1, token, ev)
  {
  }

  /**
   * And the same answer to the only request of a run ends it as it should: finished, with one completed request, its
   * status recorded, and nothing abandoned.
   */
  lemma AnsweredAndFinished(version: string, code: string, status: nat, timeout: nat, draw: Draw)
    requires Word(version) && Word(code) && Numeral(code, status) && status <= 0xFFFF && 0 < timeout
    requires !("HTTP/1.0" <= StatusLine(version, code, "")) && |version| + 1 + |code| + 3 <= MAX_HEADER_BYTES
    requires !draw.isHead && draw.notBefore.None?
    ensures var round := Round([AnswerAndClose(version, code, draw)], 0, [], 0, []);
            var (result, w) := RunOn(HTTP, timeout, 1, [Requests(1)], [[Dialing({0}, 0, draw)]], [round]);
            && result == Finished && w.shared.answers == [Answer(draw.entry, status, 0)]
            && w.shared.counters.completed == 1 && w.shared.counters.abandoned == 0
  {
    RunsFromOpening(timeout, draw, 1, [Round([AnswerAndClose(version, code, draw)], 0, [], 0, [])]);
    OneIsAlone(timeout, draw, 1);
    LoopFinishes(version, code, status, draw, OneConnection(timeout, draw, 1));
  }

  lemma LoopFinishes(version: string, code: string, status: nat, draw: Draw, w: W)
    requires Word(version) && Word(code) && Numeral(code, status) && status <= 0xFFFF
    requires !("HTTP/1.0" <= StatusLine(version, code, "")) && |version| + 1 + |code| + 3 <= MAX_HEADER_BYTES
    requires !draw.isHead && draw.notBefore.None? && 0 < w.shared.timeout && Alone(w, w.shared.timeout, draw, 1)
    ensures var r := RoundsOn(HTTP, w, [Round([AnswerAndClose(version, code, draw)], 0, [], 0, [])]);
            && r.Ok? && r.value.1 && r.value.0.shared.answers == [Answer(draw.entry, status, 0)]
            && r.value.0.shared.counters.completed == 1 && r.value.0.shared.counters.abandoned == 0
  {
    var ev := AnswerAndClose(version, code, draw);
    AnswerFinishes(version, code, status, draw, w);
    TimersAtOnce(w.shared.timeout);
    NothingToClean(w, w.shared.timeout, draw, 1);
    LoopsOnce(HTTP, w, ev, EventOn(HTTP, w, ev).value);
  }

  lemma TimersAtOnce(timeout: nat)
    ensures forall e :: e in AddTimer([Entry(timeout, 0, 0)], Some(timeout), 0, 1) ==> e.at == timeout
  {
    var q := AddTimer([Entry(timeout, 0, 0)], Some(timeout), 0, 1);
    forall e | e in q ensures e.at == timeout { assert e in multiset(q); }
  }
}
