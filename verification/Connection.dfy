/** One connection of a worker (src/engine/connection.rs): its state and its operations, as functions. */
module Connections {
  import opened Prelude
  import opened Decoder

  const FIXED_REQUEST_RECOVERY_ATTEMPTS: nat := 3

  datatype Limit = Requests(count: nat) | Deadline(at: int) {
    predicate ShouldContinue(completed: nat, now: int)
    {
      match this
      case Requests(count) => completed < count
      case Deadline(at) => now < at
    }

    predicate Passed(now: int)
    {
      Deadline? && at <= now
    }
  }

  /** What the poll registry holds for the connection's socket. */
  datatype Interest = Unregistered | Readable | ReadWrite

  type Positive = n: int | 0 < n witness 1

  /** A request handed out by the shared sequence: its entry, its encoded length, and its pacing slot. */
  datatype Draw = Draw(entry: nat, isHead: bool, length: Positive, notBefore: Option<int>)

  /** Why a worker stops with an error. */
  datatype Failure = RegistryMisuse | ConnectRefused | WriteRefused | InvalidResponse | Unrecovered

  datatype Res<+T> = Ok(value: T) | Err(failure: Failure)

  datatype WriteOutcome = Wrote(count: nat) | WriteWouldBlock | WriteFailed
  datatype ReadOutcome = Received(bytes: seq<byte>) | ReadWouldBlock | NotConnected | ReadFailed
  datatype ReadResult = Completed(status: nat, bodyLength: nat, close: bool) | NoResponse | Unconnected | Lost | Malformed

  /** `sent` is what sockets have taken of the request since it began: the positions of its bytes, in the order taken. */
  datatype Conn = Conn(
    addresses: nat, addressIndex: nat,
    request: Draw,
    awaitingPace: bool, reconnectAtPace: bool,
    writeOffset: nat, decoder: Response,
    started: Option<int>, connectedAt: int,
    completed: nat, limit: Limit, done: bool,
    generation: nat,
    pendingRead: nat, pendingRecoveries: nat, recoveryAttempts: nat,
    interest: Interest, sent: seq<nat>)

  // ----- connecting -----

  /** The first reachable address at or after `start`. */
  function ConnectFrom(addresses: nat, start: nat, reachable: set<nat>): (r: Option<nat>)
    ensures r.Some? ==> start <= r.value < addresses && r.value in reachable
    ensures r.Some? ==> forall i :: start <= i < r.value ==> i !in reachable
    ensures r.None? ==> forall i :: start <= i < addresses ==> i !in reachable
    decreases addresses - start
  {
    if addresses <= start then None
    else if start in reachable then Some(start)
    else ConnectFrom(addresses, start + 1, reachable)
  }

  /** The addresses reachable at the next attempt; an exhausted script reaches none. */
  function Reachable(connects: seq<set<nat>>, attempt: nat): set<nat>
  {
    if attempt < |connects| then connects[attempt] else {}
  }

  /** Retries up to `budget` times: how many attempts were made, and where the last one connected. */
  function Dial(addresses: nat, start: nat, connects: seq<set<nat>>, attempt: nat, budget: nat): (r: (nat, Option<nat>))
    requires 0 < budget
    ensures 1 <= r.0 <= budget
    ensures r.1.None? ==> r.0 == budget
    ensures r.1.Some? ==> r.1.value < addresses
    decreases budget
  {
    match ConnectFrom(addresses, start, Reachable(connects, attempt))
    case Some(index) => (1, Some(index))
    case None =>
      if budget == 1 then (1, None)
      else var (tries, index) := Dial(addresses, start, connects, attempt + 1, budget - 1); (tries + 1, index)
  }

  /** The first address from some start on that an attempt reaches. */
  predicate FirstReached(index: nat, addresses: nat, start: nat, reachable: set<nat>)
  {
    start <= index < addresses && index in reachable && forall j :: start <= j < index ==> j !in reachable
  }

  predicate NoneReached(addresses: nat, start: nat, reachable: set<nat>)
  {
    forall j :: start <= j < addresses ==> j !in reachable
  }

  /** The attempts stop at the first that reaches an address, at the first address it reaches. */
  lemma {:induction false} DialStops(addresses: nat, start: nat, connects: seq<set<nat>>, attempt: nat, budget: nat)
    requires 0 < budget
    ensures var (tries, index) := Dial(addresses, start, connects, attempt, budget);
            && (forall a :: attempt <= a < attempt + tries - 1 ==> NoneReached(addresses, start, Reachable(connects, a)))
            && var last := Reachable(connects, attempt + tries - 1);
               match index
               case Some(i) => FirstReached(i, addresses, start, last)
               case None => NoneReached(addresses, start, last)
    decreases budget
  {
    if ConnectFrom(addresses, start, Reachable(connects, attempt)).None? && 1 < budget {
      DialStops(addresses, start, connects, attempt + 1, budget - 1);
    }
  }

  // ----- operations -----

  function Opened(addresses: nat, index: nat, draw: Draw, limit: Limit, now: int): Conn
  {
    Conn(addresses, index, draw, false, false, 0,
         NewDecoder(draw.isHead), None, now, 0, limit, false, 0, 0, 0, 0, Unregistered, [])
  }

  /** A new connection has nothing written, read, started or counted yet. */
  lemma OpenedIsFresh(addresses: nat, index: nat, draw: Draw, limit: Limit, now: int)
    ensures var c := Opened(addresses, index, draw, limit, now);
            && c.addresses == addresses && c.addressIndex == index && c.request == draw && c.limit == limit
            && c.connectedAt == now && c.started.None? && c.writeOffset == 0 && c.sent == []
            && c.decoder == NewDecoder(draw.isHead) && c.completed == 0 && c.recoveryAttempts == 0
            && !c.done && !c.awaitingPace && !c.reconnectAtPace
  {
  }

  /** A fresh transport for the same request. */
  function Reconnected(c: Conn, index: nat, now: int): Conn
  {
    c.(addressIndex := index, connectedAt := now, awaitingPace := false, reconnectAtPace := false,
       generation := c.generation + 1, interest := ReadWrite)
  }

  predicate Early(c: Conn, now: int)
  {
    c.request.notBefore.Some? && now < c.request.notBefore.value
  }

  /** The positions from one offset up to another. */
  function Positions(from: nat, to: nat): (p: seq<nat>)
    requires from <= to
    ensures |p| == to - from && forall i :: 0 <= i < |p| ==> p[i] == from + i
  {
    seq(to - from, i requires 0 <= i => from + i)
  }

  /** The positions that a socket takes of what is offered, if it takes `n`. */
  function Accepted(offset: nat, n: nat, length: nat): seq<nat>
    requires offset <= length
  {
    Positions(offset, offset + Min(n, length - offset))
  }

  /** How far some socket writes get, whether they end without an error, and the positions of the bytes taken. */
  datatype Sending = Sending(offset: nat, ok: bool, taken: seq<nat>)

  /** The write loop: each call offers the request from the offset on, and the socket takes some of its bytes. */
  function Transmit(writes: seq<WriteOutcome>, offset: nat, length: nat): (r: Sending)
    requires offset < length
    ensures offset <= r.offset <= length
    decreases |writes|
  {
    if writes == [] then Sending(offset, true, [])
    else match writes[0]
      case Wrote(0) => Sending(offset, false, [])
      case Wrote(n) =>
        var taken := Accepted(offset, n, length);
        var next := Min(offset + n, length);
        if next == length then Sending(next, true, taken)
        else
          var rest := Transmit(writes[1..], next, length);
          rest.(taken := taken + rest.taken)
      case WriteWouldBlock => Sending(offset, true, [])
      case WriteFailed => Sending(offset, false, [])
  }

  predicate Takes(write: WriteOutcome) { write.Wrote? && 0 < write.count }

  function TakenBy(write: WriteOutcome): int { if write.Wrote? then write.count else 0 }

  /**
   * The offset moves by exactly what the socket takes before it first stops, up to the end of the request; the writes
   * end with an error exactly when it stops with one before that.
   */
  lemma {:induction false} TransmitTakes(writes: seq<WriteOutcome>, offset: nat, length: nat, k: nat)
    requires offset < length && k <= |writes| && (forall i :: 0 <= i < k ==> Takes(writes[i]))
    requires k < |writes| ==> !Takes(writes[k])
    ensures var r, end := Transmit(writes, offset, length), offset + Sum(writes[..k], TakenBy);
            && r.offset == (if end <= length then end else length)
            && (r.ok <==> length <= end || k == |writes| || writes[k].WriteWouldBlock?)
    decreases k
  {
    if k == 0 {
      assert writes[..0] == [];
    } else {
      assert writes[..k][0] == writes[0] && writes[..k][1..] == writes[1..][..k - 1];
      TakesNonNegative(writes[1..][..k - 1]);
      var next := Min(offset + writes[0].count, length);
      if next < length { TransmitTakes(writes[1..], next, length, k - 1); }
    }
  }

  lemma TakesNonNegative(writes: seq<WriteOutcome>)
    ensures 0 <= Sum(writes, TakenBy)
  {
    SumNonNegative(writes, TakenBy);
  }

  /** The bytes of the request up to the offset, each once and in order. */
  predicate Contiguous(sent: seq<nat>, offset: nat)
  {
    |sent| == offset && forall i :: 0 <= i < |sent| ==> sent[i] == i
  }

  /** What the writes take goes on exactly where the last ones ended. */
  lemma {:induction false} TransmitContinues(writes: seq<WriteOutcome>, sent: seq<nat>, offset: nat, length: nat)
    requires offset < length && Contiguous(sent, offset)
    ensures var r := Transmit(writes, offset, length); Contiguous(sent + r.taken, r.offset)
    decreases |writes|
  {
    if writes != [] && Takes(writes[0]) {
      var next := Min(offset + writes[0].count, length);
      var taken := Accepted(offset, writes[0].count, length);
      if next < length {
        TransmitContinues(writes[1..], sent + taken, next, length);
        assert sent + (taken + Transmit(writes[1..], next, length).taken) ==
               sent + taken + Transmit(writes[1..], next, length).taken;
      }
    }
  }

  /** `write_request`: the new state and whether no socket error occurred. */
  function WriteRequest(c: Conn, now: int, writes: seq<WriteOutcome>): (Conn, bool)
    requires c.writeOffset <= c.request.length
  {
    if c.writeOffset == c.request.length then (c, true)
    else if Early(c, now) then
      (if c.awaitingPace then c else c.(awaitingPace := true, generation := c.generation + 1), true)
    else
      var begun := if c.started.None? then c.(started := Some(now), generation := c.generation + 1) else c;
      var r := Transmit(writes, c.writeOffset, c.request.length);
      (begun.(awaitingPace := false, writeOffset := r.offset, sent := c.sent + r.taken), r.ok)
  }

  lemma WriteContinues(c: Conn, now: int, writes: seq<WriteOutcome>)
    requires c.writeOffset <= c.request.length && Contiguous(c.sent, c.writeOffset)
    ensures var c' := WriteRequest(c, now, writes).0; Contiguous(c'.sent, c'.writeOffset)
  {
    if c.writeOffset < c.request.length { TransmitContinues(writes, c.sent, c.writeOffset, c.request.length); }
  }

  /**
   * A write starts a request that is due, at that instant and only once; an early request only begins to wait for its
   * slot. The timers change exactly when the one or the other begins.
   */
  lemma WriteStarts(c: Conn, now: int, writes: seq<WriteOutcome>)
    requires c.writeOffset < c.request.length
    ensures var c' := WriteRequest(c, now, writes).0;
            var early := c.request.notBefore.Some? && now < c.request.notBefore.value;
            && (early ==> c'.awaitingPace && c'.started == c.started && c'.writeOffset == c.writeOffset)
            && (!early ==> !c'.awaitingPace && c'.started == Some(if c.started.Some? then c.started.value else now))
            && c'.generation == c.generation + (if (if early then c.awaitingPace else c.started.Some?) then 0 else 1)
  {
  }

  function DesiredInterest(c: Conn, now: int): Interest
  {
    if c.writeOffset == c.request.length || Early(c, now) then Readable else ReadWrite
  }

  function RefreshInterest(c: Conn, now: int): Res<Conn>
  {
    if c.interest.Unregistered? then Err(RegistryMisuse) else Ok(c.(interest := DesiredInterest(c, now)))
  }

  /** Writability is watched for exactly when there is something to write now. */
  lemma WatchesWrites(c: Conn, now: int)
    requires !c.interest.Unregistered? && c.writeOffset <= c.request.length
    ensures var r := RefreshInterest(c, now);
            && r.Ok? && r.value == c.(interest := r.value.interest) && !r.value.interest.Unregistered?
            && (r.value.interest.ReadWrite? <==>
                  c.writeOffset < c.request.length && (c.request.notBefore.Some? ==> c.request.notBefore.value <= now))
  {
  }

  function Report(outcome: Outcome<Parsed>, eof: bool): ReadResult
    requires !outcome.Pending?
  {
    match outcome
    case Complete(parsed) => Completed(parsed.status, parsed.bodyLength, parsed.connectionClose || eof)
    case Invalid(_) => if eof then Lost else Malformed
  }

  /** `read_response`: reads until a response, an error, end of input, or nothing more to read. */
  function ReadLoop(g: Grammar, d: Response, inputs: seq<ReadOutcome>): (r: (Response, nat, ReadResult))
    requires Configured(d)
    ensures Configured(r.0)
    decreases |inputs|
  {
    if inputs == [] || inputs[0].ReadWouldBlock? then
      var (next, outcome) := Feed(g, d, [], false);
      (next, 0, if outcome.Pending? then NoResponse else Report(outcome, false))
    else match inputs[0]
      case Received(bytes) =>
        if bytes == [] then
          var (next, outcome) := Feed(g, d, [], true);
          (next, 0, if outcome.Pending? then NoResponse else Report(outcome, true))
        else
          var (next, outcome) := Feed(g, d, bytes, false);
          if outcome.Pending? then
            var (last, more, result) := ReadLoop(g, next, inputs[1..]);
            (last, |bytes| + more, result)
          else (next, |bytes|, Report(outcome, false))
      case NotConnected => (d, 0, Unconnected)
      case ReadFailed => (d, 0, Lost)
  }

  function ReadResponse(g: Grammar, c: Conn, inputs: seq<ReadOutcome>): (Conn, ReadResult)
    requires Configured(c.decoder)
  {
    var (decoder, count, result) := ReadLoop(g, c.decoder, inputs);
    (c.(decoder := decoder, pendingRead := c.pendingRead + count), result)
  }

  /** The state in which the next request of the sequence replaces the completed one. */
  function NextRequest(c: Conn, draw: Draw): Conn
  {
    c.(writeOffset := 0, sent := [], request := draw, awaitingPace := false, reconnectAtPace := false,
       decoder := NewDecoder(draw.isHead), started := None, generation := c.generation + 1)
  }

  /** Going on after a response that closes the connection. */
  function ContinueElsewhere(c: Conn, now: int, connects: seq<set<nat>>): Res<Conn>
  {
    if c.interest.Unregistered? then Err(RegistryMisuse)
    else match ConnectFrom(c.addresses, 0, Reachable(connects, 0))
      case None => Err(ConnectRefused)
      case Some(index) => Ok(c.(addressIndex := index, connectedAt := now, interest := ReadWrite))
  }

  /** Going on over the same connection: the next request is written at once. */
  function ContinueHere(c: Conn, now: int, writes: seq<WriteOutcome>): Res<Conn>
    requires c.writeOffset <= c.request.length
  {
    if c.interest.Unregistered? then Err(RegistryMisuse)
    else
      var (written, ok) := WriteRequest(c, now, writes);
      if ok then Ok(written.(interest := DesiredInterest(written, now))) else Err(WriteRefused)
  }

  function Continue(c: Conn, close: bool, draw: Draw, now: int, connects: seq<set<nat>>, writes: seq<WriteOutcome>): Res<Conn>
  {
    var next := NextRequest(c, draw);
    if close then ContinueElsewhere(next, now, connects) else ContinueHere(next, now, writes)
  }

  /**
   * Going on begins the next request from nothing: its first byte, a decoder for its method, and over a new connection,
   * to the first address reached, when the old one closes.
   */
  lemma NextBegins(c: Conn, close: bool, draw: Draw, now: int, connects: seq<set<nat>>, writes: seq<WriteOutcome>)
    requires Continue(c, close, draw, now, connects, writes).Ok?
    ensures var c' := Continue(c, close, draw, now, connects, writes).value;
            && c'.request == draw && c'.decoder == NewDecoder(draw.isHead) && !c'.reconnectAtPace
            && c'.completed == c.completed && c'.limit == c.limit && c'.done == c.done
            && (close ==>
                  && c'.writeOffset == 0 && c'.sent == [] && c'.started.None? && c'.connectedAt == now
                  && FirstReached(c'.addressIndex, c.addresses, 0, Reachable(connects, 0)))
            && (!close ==> c'.addressIndex == c.addressIndex && c'.connectedAt == c.connectedAt)
            && (!close && draw.notBefore.Some? && now < draw.notBefore.value ==> c'.started.None? && c'.writeOffset == 0)
            && (!close && (draw.notBefore.None? || draw.notBefore.value <= now) ==> c'.started == Some(now))
  {
  }

  /** `finish_response`: Ok(true) when the connection is done, Ok(false) when it goes on with `draw`. */
  function FinishResponse(c: Conn, close: bool, draw: Draw, now: int, connects: seq<set<nat>>, writes: seq<WriteOutcome>)
    : Res<(Conn, bool)>
  {
    StopOrContinue(c.(completed := c.completed + 1, recoveryAttempts := 0), close, draw, now, connects, writes)
  }

  function StopOrContinue(c: Conn, close: bool, draw: Draw, now: int, connects: seq<set<nat>>, writes: seq<WriteOutcome>)
    : Res<(Conn, bool)>
  {
    if !c.limit.ShouldContinue(c.completed, now) then
      if c.interest.Unregistered? then Err(RegistryMisuse)
      else Ok((c.(done := true, interest := Unregistered), true))
    else match Continue(c, close, draw, now, connects, writes)
      case Ok(next) => Ok((next, false))
      case Err(f) => Err(f)
  }

  function StopIfExpired(c: Conn, now: int): Res<(Conn, bool)>
  {
    if c.started.None? && !c.limit.ShouldContinue(c.completed, now) then
      if !c.reconnectAtPace && c.interest.Unregistered? then Err(RegistryMisuse)
      else Ok((c.(done := true, interest := if c.reconnectAtPace then c.interest else Unregistered), true))
    else Ok((c, false))
  }

  function RetryFixed(c: Conn, now: int, connects: seq<set<nat>>): (Conn, bool)
    requires 0 < c.addresses && c.limit.Requests?
  {
    var next := (c.addressIndex + 1) % c.addresses;
    if FIXED_REQUEST_RECOVERY_ATTEMPTS <= c.recoveryAttempts then (c.(done := true, interest := Unregistered), false)
    else
      var (tries, index) := Dial(c.addresses, next, connects, 0, FIXED_REQUEST_RECOVERY_ATTEMPTS - c.recoveryAttempts);
      var tried := c.(interest := Unregistered, pendingRecoveries := c.pendingRecoveries + tries,
                      recoveryAttempts := c.recoveryAttempts + tries);
      match index
      case None => (tried.(done := true), false)
      case Some(i) => (Reconnected(tried, i, now), true)
  }

  /** `retry_address`: the same request on another address, at most three times on a request-limited connection. */
  function RetryAddress(c: Conn, now: int, connects: seq<set<nat>>): Res<(Conn, bool)>
    requires 0 < c.addresses
  {
    if c.interest.Unregistered? then Err(RegistryMisuse) else RetryClosed(c.(interest := Unregistered), now, connects)
  }

  function RetryClosed(c: Conn, now: int, connects: seq<set<nat>>): Res<(Conn, bool)>
    requires 0 < c.addresses
  {
    if c.limit.Requests? then Ok(RetryFixed(c, now, connects))
    else
      var next := if c.addressIndex + 1 < c.addresses then c.addressIndex + 1 else 0;
      match ConnectFrom(c.addresses, next, Reachable(connects, 0))
      case None => Err(ConnectRefused)
      case Some(i) => Ok((Reconnected(c, i, now), true))
  }

  /** A connection that was reopened: reachable again, and with no timer of its past. */
  predicate Reopened(c: Conn, c': Conn, now: int)
  {
    && c'.connectedAt == now && c'.interest.ReadWrite? && c'.generation == c.generation + 1
    && !c'.awaitingPace && !c'.reconnectAtPace && c'.done == c.done
    && c'.request == c.request && c'.completed == c.completed && c'.limit == c.limit && c'.addresses == c.addresses
  }

  /** Which attempts were spent before the connection was reopened or given up, from some address on. */
  predicate Spent(c: Conn, c': Conn, start: nat, connects: seq<set<nat>>, reopened: bool)
  {
    var tries := c'.recoveryAttempts - c.recoveryAttempts;
    && 0 <= tries && c'.recoveryAttempts <= Max(c.recoveryAttempts, 3)
    && c'.pendingRecoveries == c.pendingRecoveries + tries
    && (forall a :: 0 <= a < tries - 1 ==> NoneReached(c.addresses, start, Reachable(connects, a)))
    && if reopened then 0 < tries && FirstReached(c'.addressIndex, c.addresses, start, Reachable(connects, tries - 1))
       else c'.done && 3 <= c'.recoveryAttempts && (0 < tries ==> NoneReached(c.addresses, start, Reachable(connects, tries - 1)))
  }

  /** A retry on a request limit goes on at the next address; after three attempts it gives up. */
  lemma RetryGoesOn(c: Conn, now: int, connects: seq<set<nat>>)
    requires 0 < c.addresses && c.limit.Requests? && c.addressIndex < c.addresses
    ensures var next := if c.addressIndex == c.addresses - 1 then 0 else c.addressIndex + 1;
            var (c', retried) := RetryFixed(c, now, connects);
            Spent(c, c', next, connects, retried)
  {
    NextAddress(c.addressIndex, c.addresses);
    var (c', retried) := RetryFixed(c, now, connects);
    if c.recoveryAttempts < FIXED_REQUEST_RECOVERY_ATTEMPTS {
      SpentOnDialing(c, c', (c.addressIndex + 1) % c.addresses, connects, retried);
    }
  }

  lemma SpentOnDialing(c: Conn, c': Conn, start: nat, connects: seq<set<nat>>, reopened: bool)
    requires c.recoveryAttempts < 3
    requires var (tries, index) := Dial(c.addresses, start, connects, 0, 3 - c.recoveryAttempts);
             && c'.recoveryAttempts == c.recoveryAttempts + tries && c'.pendingRecoveries == c.pendingRecoveries + tries
             && (if reopened then index == Some(c'.addressIndex) else index.None? && c'.done)
    ensures Spent(c, c', start, connects, reopened)
  {
    DialStops(c.addresses, start, connects, 0, 3 - c.recoveryAttempts);
  }

  /** It keeps what was written and read of the request. */
  lemma RetryKeepsRequest(c: Conn, now: int, connects: seq<set<nat>>)
    requires 0 < c.addresses && c.limit.Requests?
    ensures var (c', retried) := RetryFixed(c, now, connects);
            retried ==>
              && Reopened(c, c', now) && c'.writeOffset == c.writeOffset && c'.sent == c.sent
              && c'.decoder == c.decoder && c'.started == c.started
  {
  }

  lemma NextAddress(index: nat, addresses: nat)
    requires index < addresses
    ensures (index + 1) % addresses == if index == addresses - 1 then 0 else index + 1
  {
  }

  /** The request starts over: nothing written, nothing decoded, not started. */
  function Restarted(c: Conn): Conn
  {
    c.(writeOffset := 0, sent := [], decoder := NewDecoder(c.request.isHead), started := None)
  }

  function RecoverFixed(c: Conn, now: int, connects: seq<set<nat>>): (Conn, bool)
    requires c.limit.Requests?
  {
    if FIXED_REQUEST_RECOVERY_ATTEMPTS <= c.recoveryAttempts then (c.(done := true, interest := Unregistered), false)
    else
      var (tries, index) := Dial(c.addresses, 0, connects, 0, FIXED_REQUEST_RECOVERY_ATTEMPTS - c.recoveryAttempts);
      var tried := c.(interest := Unregistered, pendingRecoveries := c.pendingRecoveries + tries,
                      recoveryAttempts := c.recoveryAttempts + tries);
      match index
      case None => (tried.(done := true), false)
      case Some(i) => (Reconnected(Restarted(tried), i, now), true)
  }

  /** A recovery on a request limit starts the request over, from the first address on; after three attempts it gives up. */
  lemma RecoveryStartsOver(c: Conn, now: int, connects: seq<set<nat>>)
    requires c.limit.Requests?
    ensures var (c', recovered) := RecoverFixed(c, now, connects);
            && Spent(c, c', 0, connects, recovered)
            && (recovered ==> Reopened(c, c', now) && c'.writeOffset == 0 && c'.sent == [] &&
                              c'.decoder == NewDecoder(c.request.isHead) && c'.started.None?)
  {
    var (c', recovered) := RecoverFixed(c, now, connects);
    if c.recoveryAttempts < FIXED_REQUEST_RECOVERY_ATTEMPTS { SpentOnDialing(c, c', 0, connects, recovered); }
  }

  /** `recover_request`: the same request again on a new connection. */
  function RecoverRequest(c: Conn, now: int, connects: seq<set<nat>>): Res<(Conn, bool)>
  {
    if c.limit.Passed(now) then Ok((c, false))
    else if c.interest.Unregistered? then Err(RegistryMisuse)
    else RecoverClosed(c.(interest := Unregistered), now, connects)
  }

  function RecoverClosed(c: Conn, now: int, connects: seq<set<nat>>): Res<(Conn, bool)>
  {
    if c.limit.Requests? then Ok(RecoverFixed(c, now, connects))
    else match ConnectFrom(c.addresses, 0, Reachable(connects, 0))
      case None => Err(ConnectRefused)
      case Some(i) => Ok((Reconnected(Restarted(c.(pendingRecoveries := c.pendingRecoveries + 1)), i, now), true))
  }

  function DeferReconnect(c: Conn, now: int): Res<(Conn, bool)>
  {
    if c.started.Some? || !Early(c, now) then Ok((c, false))
    else if c.interest.Unregistered? then Err(RegistryMisuse)
    else Ok((c.(awaitingPace := true, reconnectAtPace := true, generation := c.generation + 1, interest := Unregistered), true))
  }

  /** A connection that fails before its slot is closed until then, for the same request; otherwise it is left as it is. */
  lemma DeferWaits(c: Conn, now: int)
    requires !c.interest.Unregistered?
    ensures var wait := c.started.None? && c.request.notBefore.Some? && now < c.request.notBefore.value;
            match DeferReconnect(c, now)
            case Err(_) => false
            case Ok((c', deferred)) =>
              && (deferred <==> wait)
              && (!deferred ==> c' == c)
              && (deferred ==>
                    && c'.awaitingPace && c'.reconnectAtPace && c'.interest.Unregistered?
                    && c'.request == c.request && c'.generation == c.generation + 1
                    && c'.recoveryAttempts == c.recoveryAttempts && c'.done == c.done)
  {
  }

  /** At its slot a connection that was closed to wait is opened again, at the first address reached. */
  lemma ResumeReopens(c: Conn, now: int, connects: seq<set<nat>>)
    requires c.reconnectAtPace && c.interest.Unregistered?
    ensures match ResumeAtPace(c, now, connects)
            case Ok(c') => Reopened(c, c', now) && FirstReached(c'.addressIndex, c.addresses, 0, Reachable(connects, 0))
            case Err(f) => f == ConnectRefused && NoneReached(c.addresses, 0, Reachable(connects, 0))
  {
  }

  function ResumeAtPace(c: Conn, now: int, connects: seq<set<nat>>): Res<Conn>
  {
    if !c.reconnectAtPace then RefreshInterest(c, now)
    else match ConnectFrom(c.addresses, 0, Reachable(connects, 0))
      case None => Err(ConnectRefused)
      case Some(i) => if c.interest.Unregistered? then Ok(Reconnected(c, i, now)) else Err(RegistryMisuse)
  }

  function StopAfterDurationError(c: Conn, now: int): Res<(Conn, bool)>
  {
    if !c.limit.Passed(now) then Ok((c, false))
    else if c.interest.Unregistered? then Err(RegistryMisuse)
    else Ok((c.(done := true, interest := Unregistered), true))
  }

  // ----- timers -----

  function NextDeadline(c: Conn, timeout: nat): Option<int>
  {
    if c.awaitingPace then None
    else match c.started
      case Some(started) => Some(started + timeout)
      case None =>
        match c.limit
        case Requests(_) => Some(c.connectedAt + timeout)
        case Deadline(at) => Some(Min(at, c.connectedAt + timeout))
  }

  function PacingDeadline(c: Conn): Option<int>
  {
    if !c.awaitingPace || c.done || c.request.notBefore.None? then None
    else match c.limit
      case Requests(_) => c.request.notBefore
      case Deadline(at) => Some(Min(at, c.request.notBefore.value))
  }

  datatype Expiration = Stopped | RequestTimeout | ConnectionTimeout

  function Expire(c: Conn, now: int): Res<(Conn, Expiration)>
  {
    if c.started.Some? then Ok((c, RequestTimeout))
    else if c.limit.ShouldContinue(c.completed, now) then Ok((c, ConnectionTimeout))
    else if c.interest.Unregistered? then Err(RegistryMisuse)
    else Ok((c.(done := true, interest := Unregistered), Stopped))
  }

  function UnfinishedRequests(c: Conn): nat
  {
    match c.limit
    case Requests(count) => Max(0, count - c.completed)
    case Deadline(_) => 0
  }
}
