/** What the worker counts and records of each event and timer (src/engine/mod.rs). */
module Outcomes {
  import opened Prelude
  import opened Decoder
  import opened DecoderProofs
  import opened Connections
  import opened WorkerSpec
  import opened WorkerSteps
  import opened WorkerRules

  // ----- failures, by kind -----

  /** The failures counted are at most one more, of this kind. */
  predicate Raised(k: Counters, k': Counters, kind: Option<ErrorKind>)
  {
    && k'.connectErrors - k.connectErrors == (if kind == Some(ConnectError) then 1 else 0)
    && k'.readErrors - k.readErrors == (if kind == Some(ReadError) then 1 else 0)
    && k'.writeErrors - k.writeErrors == (if kind == Some(WriteError) then 1 else 0)
    && k'.timeoutErrors - k.timeoutErrors == (if kind == Some(TimeoutError) then 1 else 0)
  }

  /** The kind of failure that a read meets: of the request if it has started, of the connection before that. */
  function ReadFailure(g: Grammar, c: Conn, inputs: seq<ReadOutcome>): Option<ErrorKind>
    requires Configured(c.decoder)
  {
    match ReadResponse(g, c, inputs).1
    case Lost => Some(if c.started.Some? then ReadError else ConnectError)
    case Unconnected => if c.started.Some? then Some(ReadError) else None
    case _ => None
  }

  /** The kind of failure that an event is. */
  function FailureOf(g: Grammar, c: Conn, ev: Event, now: int): Option<ErrorKind>
    requires Usable(c)
  {
    if ev.error && ev.socketError then
      Some(if c.started.None? then ConnectError else if c.writeOffset < c.request.length then WriteError else ReadError)
    else if ev.writable && c.started.None? && !c.limit.ShouldContinue(c.completed, now) then None
    else if ev.writable && ev.pendingError then Some(ConnectError)
    else if ev.writable && !WriteRequest(c, now, ev.writes).1 then Some(WriteError)
    else if ev.readable then ReadFailure(g, if ev.writable then WriteRequest(c, now, ev.writes).0 else c, ev.inputs)
    else None
  }

  lemma RecoveryRaises(c: Conn, s: Shared, token: nat, kind: ErrorKind, connects: seq<set<nat>>)
    ensures var r := RecoverRule(c, s, token, kind, connects); r.Ok? ==> Raised(s.counters, r.value.1.counters, Some(kind))
  {
  }

  lemma RetryRaises(c: Conn, s: Shared, token: nat, connects: seq<set<nat>>)
    requires 0 < c.addresses
    ensures var r := RetryRule(c, s, token, connects); r.Ok? ==> Raised(s.counters, r.value.1.counters, Some(ConnectError))
  {
  }

  lemma RulesRaise(c: Conn, s: Shared, token: nat, kind: ErrorKind, connects: seq<set<nat>>)
    requires 0 < c.addresses
    ensures var r := RecoverRule(c, s, token, kind, connects); r.Ok? ==> Raised(s.counters, r.value.1.counters, Some(kind))
    ensures var r := RetryRule(c, s, token, connects); r.Ok? ==> Raised(s.counters, r.value.1.counters, Some(ConnectError))
    ensures var r := DeferOrRetryRule(c, s, token, connects); r.Ok? ==> Raised(s.counters, r.value.1.counters, Some(ConnectError))
  {
    RecoveryRaises(c, s, token, kind, connects);
    RetryRaises(c, s, token, connects);
  }

  lemma ReadRaises(g: Grammar, c: Conn, s: Shared, token: nat, ev: Event)
    requires 0 < c.addresses && Configured(c.decoder)
    ensures var r := ReadableRule(g, c, s, token, ev);
            r.Ok? ==> Raised(s.counters, r.value.1.counters, ReadFailure(g, c, ev.inputs))
  {
    var (c1, response) := ReadResponse(g, c, ev.inputs);
    if !response.Completed? && !response.Malformed? {
      UnansweredRaises(c1.(pendingRead := 0), CountRead(s, c1.pendingRead, 0), token, response, ev);
    }
  }

  lemma UnansweredRaises(c: Conn, s: Shared, token: nat, response: ReadResult, ev: Event)
    requires 0 < c.addresses && !response.Completed? && !response.Malformed?
    ensures var r := UnansweredRule(c, s, token, response, ev);
            r.Ok? ==>
              Raised(s.counters, r.value.1.counters,
                     match response
                     case Lost => Some(if c.started.Some? then ReadError else ConnectError)
                     case Unconnected => if c.started.Some? then Some(ReadError) else None
                     case _ => None)
  {
    RulesRaise(c, s, token, ReadError, ev.connects);
  }

  lemma WriteRaises(c: Conn, s: Shared, token: nat, ev: Event)
    requires 0 < c.addresses && c.writeOffset <= c.request.length
    ensures var r := WritableRule(c, s, token, ev);
            r.Ok? ==>
              Raised(s.counters, r.value.1.counters,
                     if c.started.None? && !c.limit.ShouldContinue(c.completed, s.clock) then None
                     else if ev.pendingError then Some(ConnectError)
                     else if WriteRequest(c, s.clock, ev.writes).1 then None else Some(WriteError))
  {
    RulesRaise(c, s, token, WriteError, ev.connects);
    RulesRaise(WriteRequest(c, s.clock, ev.writes).0, s, token, WriteError, ev.connects);
  }

  /** What goes on from the writable part to the readable one is the connection after the write. */
  lemma WriteGoesOn(g: Grammar, c: Conn, s: Shared, token: nat, ev: Event)
    requires Usable(c) && WritableRule(c, s, token, ev).Ok? && WritableRule(c, s, token, ev).value.2
    ensures var (c1, s1, _) := WritableRule(c, s, token, ev).value;
            && !(c.started.None? && !c.limit.ShouldContinue(c.completed, s.clock))
            && !ev.pendingError && WriteRequest(c, s.clock, ev.writes).1
            && s1.counters == s.counters && Configured(c1.decoder)
            && ReadFailure(g, c1, ev.inputs) == ReadFailure(g, WriteRequest(c, s.clock, ev.writes).0, ev.inputs)
  {
  }

  /** Every event that the worker survives counts the failure that it is, in its kind, and no other. */
  lemma EventRaises(g: Grammar, c: Conn, s: Shared, token: nat, ev: Event)
    requires Usable(c)
    ensures var r := EventRule(g, c, s, token, ev);
            r.Ok? ==> Raised(s.counters, r.value.1.counters, FailureOf(g, c, ev, s.clock))
  {
    if ev.error && ev.socketError {
      RulesRaise(c, s, token, if c.writeOffset == c.request.length then ReadError else WriteError, ev.connects);
    } else if ev.writable {
      WriteRaises(c, s, token, ev);
      var r := WritableRule(c, s, token, ev);
      if r.Ok? && r.value.2 {
        WriteGoesOn(g, c, s, token, ev);
        if ev.readable { ReadRaises(g, r.value.0, r.value.1, token, ev); }
      }
    } else if ev.readable {
      ReadRaises(g, c, s, token, ev);
    }
  }

  /** A due deadline is a timeout of a started request, or a failure to connect in time, or the end of the load. */
  lemma ExpiryRaises(c: Conn, s: Shared, token: nat, connects: seq<set<nat>>)
    requires 0 < c.addresses
    ensures var r := ExpiryRule(c, s, token, connects);
            r.Ok? ==>
              Raised(s.counters, r.value.1.counters,
                     if c.started.Some? then Some(TimeoutError)
                     else if c.limit.ShouldContinue(c.completed, s.clock) then Some(ConnectError) else None)
  {
    RulesRaise(c, s, token, TimeoutError, connects);
  }

  // ----- what becomes of the connection -----

  /** The request starts over on a new connection, or the connection is done. */
  predicate StartsOver(c: Conn, c': Conn, now: int)
  {
    c'.done || (Reopened(c, c', now) && c'.started.None? && c'.writeOffset == 0 && c'.decoder == NewDecoder(c.request.isHead))
  }

  /** It goes on as far as it got on a new connection, or the connection is done. */
  predicate GoesOn(c: Conn, c': Conn, now: int)
  {
    c'.done || (Reopened(c, c', now) && c'.started == c.started && c'.writeOffset == c.writeOffset && c'.decoder == c.decoder)
  }

  /** It is closed to wait for its slot. */
  predicate Waits(c: Conn, c': Conn)
  {
    !c'.done && c'.awaitingPace && c'.reconnectAtPace && c'.interest.Unregistered? && c'.request == c.request
  }

  lemma RecoveryReopens(c: Conn, s: Shared, token: nat, kind: ErrorKind, connects: seq<set<nat>>)
    requires !c.done
    ensures var r := RecoverRule(c, s, token, kind, connects); r.Ok? ==> StartsOver(c, r.value.0, s.clock)
  {
  }

  lemma RetryReopens(c: Conn, s: Shared, token: nat, connects: seq<set<nat>>)
    requires 0 < c.addresses && !c.done
    ensures var r := RetryRule(c, s, token, connects); r.Ok? ==> GoesOn(c, r.value.0, s.clock)
  {
  }

  lemma DeferralWaits(c: Conn, s: Shared, token: nat, connects: seq<set<nat>>)
    requires 0 < c.addresses && !c.done
    ensures var r := DeferOrRetryRule(c, s, token, connects);
            var early := c.started.None? && c.request.notBefore.Some? && s.clock < c.request.notBefore.value;
            r.Ok? ==> if early then Waits(c, r.value.0) else GoesOn(c, r.value.0, s.clock)
  {
    RetryReopens(c, s, token, connects);
    if !c.interest.Unregistered? { DeferWaits(c, s.clock); }
  }

  /** An expired request starts over, and an expired connection is opened again; neither waits. */
  lemma ExpiryReopens(c: Conn, s: Shared, token: nat, connects: seq<set<nat>>)
    requires 0 < c.addresses && !c.done
    ensures var r := ExpiryRule(c, s, token, connects);
            r.Ok? ==> if c.started.Some? then StartsOver(c, r.value.0, s.clock) else GoesOn(c, r.value.0, s.clock)
  {
    RecoveryReopens(c, s, token, TimeoutError, connects);
    RetryReopens(c, s, token, connects);
  }

  /** A socket error makes a started request start over, and one that has not started wait for its slot or go on. */
  lemma ErrorReopens(c: Conn, s: Shared, token: nat, ev: Event)
    requires 0 < c.addresses && !c.done
    ensures var r := ErrorRule(c, s, token, ev);
            r.Ok? ==>
              if c.started.Some? then StartsOver(c, r.value.0, s.clock)
              else if Early(c, s.clock) then Waits(c, r.value.0) else GoesOn(c, r.value.0, s.clock)
  {
    RecoveryReopens(c, s, token, if c.writeOffset == c.request.length then ReadError else WriteError, ev.connects);
    DeferralWaits(c, s, token, ev.connects);
  }

  // ----- bytes and responses -----

  /** The bytes of some reads, all of them successful. */
  function BytesOf(inputs: seq<ReadOutcome>): seq<byte>
    requires forall i :: 0 <= i < |inputs| ==> inputs[i].Received?
  {
    if inputs == [] then [] else inputs[0].bytes + BytesOf(inputs[1..])
  }

  predicate AllReceived(inputs: seq<ReadOutcome>, k: nat)
  {
    k <= |inputs| && forall i :: 0 <= i < k ==> inputs[i].Received? && inputs[i].bytes != []
  }

  /** Nothing more to read for now. */
  predicate Drained(inputs: seq<ReadOutcome>, k: nat)
  {
    k == |inputs| || (k < |inputs| && inputs[k].ReadWouldBlock?)
  }

  /** How a read ends after `k` receptions that make up all bytes `s` since the request began. */
  ghost predicate ReadEnds(g: Grammar, noBody: bool, s: seq<byte>, inputs: seq<ReadOutcome>, k: nat, d: Response, r: ReadResult)
  {
    var open, closed := ParseResponse(g, noBody, s, false), ParseResponse(g, noBody, s, true);
    match r
    case Completed(status, length, close) =>
      || open == Complete(Parsed(status, length, close))
      || (k < |inputs| && inputs[k] == Received([]) && close && closed.Complete?
          && closed.value.status == status && closed.value.bodyLength == length)
    case NoResponse => Drained(inputs, k) && open.Pending? && StandsFor(g, d, noBody, s)
    case Malformed => open.Invalid?
    case Lost => k < |inputs| && (inputs[k].ReadFailed? || (inputs[k] == Received([]) && closed.Invalid?))
    case Unconnected => k < |inputs| && inputs[k].NotConnected?
  }

  /** A read of a decoder that stands for `p` answers as the one-shot parser on `p` and the bytes received. */
  lemma {:induction false} ReadIsParsed(g: Grammar, d: Response, noBody: bool, p: seq<byte>, inputs: seq<ReadOutcome>)
    returns (k: nat)
    requires StandsFor(g, d, noBody, p)
    ensures AllReceived(inputs, k)
    ensures var (d', count, r) := ReadLoop(g, d, inputs);
            count == |BytesOf(inputs[..k])| && ReadEnds(g, noBody, p + BytesOf(inputs[..k]), inputs, k, d', r)
    decreases |inputs|
  {
    if inputs != [] && inputs[0].Received? && inputs[0].bytes != [] {
      var bytes := inputs[0].bytes;
      FeedSimulates(g, d, noBody, p, bytes, false);
      var (next, outcome) := Feed(g, d, bytes, false);
      if outcome.Pending? {
        k := ReadIsParsed(g, next, noBody, p + bytes, inputs[1..]);
        ReceptionsNext(inputs, k);
        BytesNext(inputs, k, p);
        EndsNext(g, noBody, p + bytes + BytesOf(inputs[1..][..k]), inputs, k, ReadLoop(g, next, inputs[1..]));
        k := k + 1;
      } else {
        assert inputs[..1] == [inputs[0]] && BytesOf([inputs[0]]) == bytes by { assert BytesOf([]) == []; }
        k := 1;
      }
    } else {
      k := 0;
      assert inputs[..0] == [] && p + [] == p;
      NothingIsReceived(g, d, noBody, p, inputs);
    }
  }

  lemma NothingIsReceived(g: Grammar, d: Response, noBody: bool, p: seq<byte>, inputs: seq<ReadOutcome>)
    requires StandsFor(g, d, noBody, p) && (inputs != [] && inputs[0].Received? ==> inputs[0].bytes == [])
    ensures var (d', count, r) := ReadLoop(g, d, inputs);
            count == 0 && ReadEnds(g, noBody, p, inputs, 0, d', r)
  {
    if inputs == [] || inputs[0].ReadWouldBlock? {
      FeedSimulates(g, d, noBody, p, [], false);
    } else if inputs[0].Received? {
      FeedSimulates(g, d, noBody, p, [], true);
      AtEndOfInput(g, noBody, p);
    }
    assert p + [] == p;
  }

  lemma ReceptionsNext(inputs: seq<ReadOutcome>, k: nat)
    requires inputs != [] && inputs[0].Received? && inputs[0].bytes != [] && AllReceived(inputs[1..], k)
    ensures AllReceived(inputs, k + 1)
  {
    forall i | 0 <= i < k + 1
      ensures inputs[i].Received? && inputs[i].bytes != []
    {
      if i > 0 {
        assert inputs[i] == inputs[1..][i - 1];
      }
    }
  }

  lemma EndsNext(g: Grammar, noBody: bool, s: seq<byte>, inputs: seq<ReadOutcome>, k: nat, r: (Response, nat, ReadResult))
    requires inputs != [] && ReadEnds(g, noBody, s, inputs[1..], k, r.0, r.2)
    ensures ReadEnds(g, noBody, s, inputs, k + 1, r.0, r.2)
  {
    assert k < |inputs[1..]| ==> inputs[1..][k] == inputs[k + 1];
  }

  lemma BytesNext(inputs: seq<ReadOutcome>, k: nat, p: seq<byte>)
    requires inputs != [] && inputs[0].Received? && AllReceived(inputs[1..], k)
    ensures inputs[..k + 1][0] == inputs[0] && inputs[..k + 1][1..] == inputs[1..][..k]
    ensures p + BytesOf(inputs[..k + 1]) == p + inputs[0].bytes + BytesOf(inputs[1..][..k])
  {
    assert inputs[..k + 1][1..] == inputs[1..][..k];
  }

  /** The end of input always answers. */
  lemma AtEndOfInput(g: Grammar, noBody: bool, p: seq<byte>)
    ensures !ParseResponse(g, noBody, p, true).Pending?
  {
  }

  /**
   * A response that is read is counted and recorded once: its entry, its status, the time since its request started, all
   * bytes received, and the length of its body, as the one-shot parser says of the bytes since the request began.
   */
  lemma ResponseIsRecorded(g: Grammar, c: Conn, s: Shared, token: nat, p: seq<byte>, ev: Event) returns (k: nat)
    requires 0 < c.addresses && Configured(c.decoder) && c.pendingRead == 0 && StandsFor(g, c.decoder, c.request.isHead, p)
    requires ReadResponse(g, c, ev.inputs).1.Completed? && ReadableRule(g, c, s, token, ev).Ok?
    ensures AllReceived(ev.inputs, k)
    ensures var s' := ReadableRule(g, c, s, token, ev).value.1;
            var r := ReadResponse(g, c, ev.inputs).1;
            var begun := if c.started.Some? then c.started.value else c.connectedAt;
            && ReadEnds(g, c.request.isHead, p + BytesOf(ev.inputs[..k]), ev.inputs, k, c.decoder, r)
            && s'.counters.completed == s.counters.completed + 1
            && s'.counters.readBytes == s.counters.readBytes + |BytesOf(ev.inputs[..k])|
            && s'.counters.bodyBytes == s.counters.bodyBytes + r.bodyLength
            && |s'.answers| == |s.answers| + 1 && s.answers <= s'.answers
            && var answer := s'.answers[|s.answers|];
               && answer.entry == c.request.entry && answer.status == r.status
               && (begun <= s.clock ==> begun + answer.latency == s.clock) && (s.clock < begun ==> answer.latency == 0)
  {
    k := ReadIsParsed(g, c.decoder, c.request.isHead, p, ev.inputs);
  }

  /** A read without a response counts its bytes and records nothing. */
  lemma BytesAreCounted(g: Grammar, c: Conn, s: Shared, token: nat, p: seq<byte>, ev: Event) returns (k: nat)
    requires 0 < c.addresses && Configured(c.decoder) && c.pendingRead == 0 && StandsFor(g, c.decoder, c.request.isHead, p)
    requires !ReadResponse(g, c, ev.inputs).1.Completed? && ReadableRule(g, c, s, token, ev).Ok?
    ensures AllReceived(ev.inputs, k)
    ensures var s' := ReadableRule(g, c, s, token, ev).value.1;
            && s'.counters.readBytes == s.counters.readBytes + |BytesOf(ev.inputs[..k])|
            && s'.counters.bodyBytes == s.counters.bodyBytes && s'.counters.completed == s.counters.completed
            && s'.answers == s.answers
  {
    k := ReadIsParsed(g, c.decoder, c.request.isHead, p, ev.inputs);
  }

  /** A new request's decoder stands for no bytes, and one that has not answered stands for those received as well. */
  lemma DecoderGoesOn(g: Grammar, c: Conn, s: Shared, token: nat, p: seq<byte>, ev: Event) returns (k: nat)
    requires 0 < c.addresses && Configured(c.decoder) && StandsFor(g, c.decoder, c.request.isHead, p)
    requires ReadResponse(g, c, ev.inputs).1.NoResponse?
    ensures StandsFor(g, NewDecoder(c.request.isHead), c.request.isHead, [])
    ensures AllReceived(ev.inputs, k)
    ensures var r := ReadableRule(g, c, s, token, ev);
            r.Ok? ==> StandsFor(g, r.value.0.decoder, r.value.0.request.isHead, p + BytesOf(ev.inputs[..k]))
  {
    NewStandsForNothing(g, c.request.isHead);
    k := ReadIsParsed(g, c.decoder, c.request.isHead, p, ev.inputs);
  }
}
