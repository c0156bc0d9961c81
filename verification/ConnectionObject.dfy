/** The connection object of src/engine/connection.rs; every method is proved equal to its function in Connections. */
module ConnectionObjects {
  import opened Prelude
  import opened Decoder
  import opened Connections

  /** A transmission after some bytes have been taken. */
  function After(taken: seq<nat>, r: Sending): Sending { r.(taken := taken + r.taken) }

  /** One call of the socket: it takes some bytes and the loop goes on or is complete, or it stops. */
  lemma TransmitNext(taken: seq<nat>, writes: seq<WriteOutcome>, offset: nat, length: nat)
    requires offset < length
    ensures var r := After(taken, Transmit(writes, offset, length));
            if writes == [] then r == Sending(offset, true, taken)
            else if !Takes(writes[0]) then r == Sending(offset, writes[0].WriteWouldBlock?, taken + [])
            else
              var more := taken + Accepted(offset, writes[0].count, length);
              var next := Min(offset + writes[0].count, length);
              r == if next == length then Sending(length, true, more) else After(more, Transmit(writes[1..], next, length))
  {
    assert taken + [] == taken;
    if writes != [] && Takes(writes[0]) {
      var more, next := Accepted(offset, writes[0].count, length), Min(offset + writes[0].count, length);
      if next < length {
        var rest := Transmit(writes[1..], next, length).taken;
        assert taken + (more + rest) == taken + more + rest;
      }
    }
  }

  class Connection {
    const grammar: Grammar
    const addresses: nat
    const limit: Limit
    var addressIndex: nat
    var request: Draw
    var awaitingPace: bool
    var reconnectAtPace: bool
    var writeOffset: nat
    var decoder: Response
    var started: Option<int>
    var connectedAt: int
    var completed: nat
    var done: bool
    var generation: nat
    var pendingRead: nat
    var pendingRecoveries: nat
    var recoveryAttempts: nat
    var interest: Interest
    /** What sockets have taken of the request. */
    var sent: seq<nat>

    function View(): Conn
      reads this
    {
      Conn(addresses, addressIndex, request, awaitingPace, reconnectAtPace, writeOffset, decoder,
           started, connectedAt, completed, limit, done, generation, pendingRead, pendingRecoveries, recoveryAttempts, interest, sent)
    }

    constructor (grammar: Grammar, addresses: nat, index: nat, draw: Draw, limit: Limit, now: int)
      ensures View() == Opened(addresses, index, draw, limit, now)
      ensures this.grammar == grammar
    {
      this.grammar := grammar;
      this.addresses, this.limit, addressIndex := addresses, limit, index;
      request := draw;
      awaitingPace, reconnectAtPace, writeOffset, decoder := false, false, 0, NewDecoder(draw.isHead);
      started, connectedAt, completed, done, generation := None, now, 0, false, 0;
      pendingRead, pendingRecoveries, recoveryAttempts, interest, sent := 0, 0, 0, Unregistered, [];
    }

    method Register() returns (r: Res<()>)
      modifies this`interest
      ensures r == if old(interest).Unregistered? then Ok(()) else Err(RegistryMisuse)
      ensures r.Ok? ==> View() == old(View()).(interest := ReadWrite)
    {
      if !interest.Unregistered? { return Err(RegistryMisuse); }
      interest := ReadWrite;
      return Ok(());
    }

    method Deregister() returns (r: Res<()>)
      modifies this`interest
      ensures r == if old(interest).Unregistered? then Err(RegistryMisuse) else Ok(())
      ensures r.Ok? ==> View() == old(View()).(interest := Unregistered)
    {
      if interest.Unregistered? { return Err(RegistryMisuse); }
      interest := Unregistered;
      return Ok(());
    }

    method RefreshInterest(now: int) returns (r: Res<()>)
      modifies this`interest
      ensures match Connections.RefreshInterest(old(View()), now)
              case Ok(c) => r.Ok? && View() == c
              case Err(f) => r == Err(f)
    {
      if interest.Unregistered? { return Err(RegistryMisuse); }
      interest := DesiredInterest(View(), now);
      return Ok(());
    }

    method WriteRequest(now: int, writes: seq<WriteOutcome>) returns (ok: bool)
      requires writeOffset <= request.length
      modifies this
      ensures (View(), ok) == Connections.WriteRequest(old(View()), now, writes)
    {
      if writeOffset == request.length { return true; }
      if request.notBefore.Some? && now < request.notBefore.value {
        Await();
        return true;
      }
      Begin(now);
      ok := Transfer(writes);
    }

    /** An early request waits for its slot. */
    method Await()
      modifies this`awaitingPace, this`generation
      ensures var c := old(View()); View() == if c.awaitingPace then c else c.(awaitingPace := true, generation := c.generation + 1)
    {
      if !awaitingPace {
        awaitingPace := true;
        generation := generation + 1;
      }
    }

    method Transfer(writes: seq<WriteOutcome>) returns (ok: bool)
      requires writeOffset < request.length
      modifies this`writeOffset, this`sent
      ensures var c, r := old(View()), Transmit(writes, old(writeOffset), request.length);
              ok == r.ok && View() == c.(writeOffset := r.offset, sent := c.sent + r.taken)
    {
      ok := Send(writes);
    }

    /** The request begins, unless it has begun. */
    method Begin(now: int)
      modifies this`awaitingPace, this`started, this`generation
      ensures var c := old(View()).(awaitingPace := false);
              View() == if c.started.None? then c.(started := Some(now), generation := c.generation + 1) else c
    {
      awaitingPace := false;
      if started.None? {
        started := Some(now);
        generation := generation + 1;
      }
    }

    /** The socket write loop. */
    method Send(writes: seq<WriteOutcome>) returns (ok: bool)
      requires writeOffset < request.length
      modifies this`writeOffset, this`sent
      ensures var r := Transmit(writes, old(writeOffset), request.length);
              writeOffset == r.offset && ok == r.ok && sent == old(sent) + r.taken
    {
      ghost var target, offset, taken := Transmit(writes, writeOffset, request.length), writeOffset, [];
      ghost var length, rest := request.length, writes;
      assert After([], target) == target;
      var i := 0;
      while i < |writes|
        invariant 0 <= i <= |writes| && rest == writes[i..]
        invariant request.length == length && writeOffset == offset < length && sent == old(sent) + taken
        invariant target == After(taken, Transmit(rest, offset, length))
      {
        TransmitNext(taken, rest, offset, length);
        var stopped := Push(writes[i]);
        taken := taken + if Takes(rest[0]) then Accepted(offset, rest[0].count, length) else [];
        if stopped.Some? { return stopped.value; }
        offset, rest := Min(offset + rest[0].count, length), rest[1..];
        i := i + 1;
      }
      TransmitNext(taken, rest, offset, length);
      return true;
    }

    /** One call of the socket; some answer when the loop is over. */
    method Push(write: WriteOutcome) returns (stopped: Option<bool>)
      requires writeOffset < request.length
      modifies this`writeOffset, this`sent
      ensures var length := request.length;
              if !Takes(write) then
                writeOffset == old(writeOffset) && sent == old(sent) + [] && stopped == Some(write.WriteWouldBlock?)
              else
                && writeOffset == Min(old(writeOffset) + write.count, length)
                && sent == old(sent) + Accepted(old(writeOffset), write.count, length)
                && stopped == if writeOffset == length then Some(true) else None
    {
      match write {
        case Wrote(n) =>
          if n == 0 { return Some(false); }
          sent := sent + Accepted(writeOffset, n, request.length);
          writeOffset := Min(writeOffset + n, request.length);
          return if writeOffset == request.length then Some(true) else None;
        case WriteWouldBlock => return Some(true);
        case WriteFailed => return Some(false);
      }
    }

    method ReadResponse(inputs: seq<ReadOutcome>) returns (r: ReadResult)
      requires Configured(decoder)
      modifies this
      ensures (View(), r) == Connections.ReadResponse(grammar, old(View()), inputs)
    {
      var next, count, result := ReadSocket(grammar, decoder, inputs);
      decoder := next;
      pendingRead := pendingRead + count;
      return result;
    }

    /** One read of the loop. */
    static lemma OneRead(grammar: Grammar, d: Response, inputs: seq<ReadOutcome>, i: nat)
      requires Configured(d) && i < |inputs|
      ensures ReadLoop(grammar, d, inputs[i..]) ==
              match inputs[i]
              case ReadWouldBlock => ReadLoop(grammar, d, [])
              case NotConnected => (d, 0, Unconnected)
              case ReadFailed => (d, 0, Lost)
              case Received(bytes) =>
                var (next, outcome) := Feed(grammar, d, bytes, bytes == []);
                if bytes == [] then (next, 0, if outcome.Pending? then NoResponse else Report(outcome, true))
                else if !outcome.Pending? then (next, |bytes|, Report(outcome, false))
                else var (last, more, result) := ReadLoop(grammar, next, inputs[i + 1..]); (last, |bytes| + more, result)
    {
      assert inputs[i..][0] == inputs[i] && inputs[i..][1..] == inputs[i + 1..];
    }

    /** The socket read loop. */
    static method ReadSocket(grammar: Grammar, start: Response, inputs: seq<ReadOutcome>)
      returns (decoder: Response, count: nat, r: ReadResult)
      requires Configured(start)
      ensures (decoder, count, r) == ReadLoop(grammar, start, inputs)
    {
      decoder, count := start, 0;
      var eof := false;
      ghost var target := ReadLoop(grammar, start, inputs);
      var i := 0;
      while i < |inputs|
        invariant 0 <= i <= |inputs| && !eof
        invariant Configured(decoder)
        invariant var (d, n, result) := ReadLoop(grammar, decoder, inputs[i..]);
                  target == (d, count + n, result)
      {
        OneRead(grammar, decoder, inputs, i);
        match inputs[i] {
          case Received(bytes) =>
            if bytes == [] {
              eof := true;
              break;
            }
            var (next, outcome) := Feed(grammar, decoder, bytes, false);
            decoder := next;
            count := count + |bytes|;
            if !outcome.Pending? { return decoder, count, Report(outcome, false); }
          case ReadWouldBlock => break;
          case NotConnected => return decoder, count, Unconnected;
          case ReadFailed => return decoder, count, Lost;
        }
        i := i + 1;
      }
      var (next, outcome) := Feed(grammar, decoder, [], eof);
      decoder := next;
      r := if outcome.Pending? then NoResponse else Report(outcome, eof);
    }

    method FinishResponse(close: bool, draw: Draw, now: int, connects: seq<set<nat>>, writes: seq<WriteOutcome>)
      returns (r: Res<bool>)
      modifies this
      ensures match Connections.FinishResponse(old(View()), close, draw, now, connects, writes)
              case Ok((c, stopped)) => r == Ok(stopped) && View() == c
              case Err(f) => r == Err(f)
    {
      CountResponse();
      r := StopOrContinue(close, draw, now, connects, writes);
    }

    /** Once the response is counted. */
    method StopOrContinue(close: bool, draw: Draw, now: int, connects: seq<set<nat>>, writes: seq<WriteOutcome>)
      returns (r: Res<bool>)
      modifies this
      ensures match Connections.StopOrContinue(old(View()), close, draw, now, connects, writes)
              case Ok((c, stopped)) => r == Ok(stopped) && View() == c
              case Err(f) => r == Err(f)
    {
      if !limit.ShouldContinue(completed, now) {
        var gone := Close();
        return if gone.Ok? then Ok(true) else Err(gone.failure);
      }
      r := Continue(close, draw, now, connects, writes);
    }

    method Close() returns (r: Res<()>)
      modifies this`done, this`interest
      ensures r == if old(interest).Unregistered? then Err(RegistryMisuse) else Ok(())
      ensures r.Ok? ==> View() == old(View()).(done := true, interest := Unregistered)
    {
      done := true;
      r := Deregister();
    }

    method CountResponse()
      modifies this`completed, this`recoveryAttempts
      ensures View() == old(View()).(completed := old(completed) + 1, recoveryAttempts := 0)
    {
      completed := completed + 1;
      recoveryAttempts := 0;
    }

    method Continue(close: bool, draw: Draw, now: int, connects: seq<set<nat>>, writes: seq<WriteOutcome>)
      returns (r: Res<bool>)
      modifies this
      ensures match Connections.Continue(old(View()), close, draw, now, connects, writes)
              case Ok(c) => r == Ok(false) && View() == c
              case Err(f) => r == Err(f)
    {
      InstallNextRequest(draw);
      var next: Res<()>;
      if close {
        next := ContinueElsewhere(now, connects);
      } else {
        next := ContinueHere(now, writes);
      }
      return if next.Ok? then Ok(false) else Err(next.failure);
    }

    method InstallNextRequest(draw: Draw)
      modifies this
      ensures View() == NextRequest(old(View()), draw)
    {
      Install(draw);
      Reset();
    }

    /** The new request in place of the old one, with nothing written. */
    method Install(draw: Draw)
      modifies this`writeOffset, this`sent, this`request, this`awaitingPace, this`reconnectAtPace
      ensures View() == old(View()).(writeOffset := 0, sent := [], request := draw, awaitingPace := false, reconnectAtPace := false)
    {
      writeOffset, sent, request := 0, [], draw;
      awaitingPace, reconnectAtPace := false, false;
    }

    /** Not started, nothing decoded, and a new generation. */
    method Reset()
      modifies this`decoder, this`started, this`generation
      ensures View() == old(View()).(decoder := NewDecoder(request.isHead), started := None, generation := old(generation) + 1)
    {
      decoder := NewDecoder(request.isHead);
      started := None;
      generation := generation + 1;
    }

    method ContinueElsewhere(now: int, connects: seq<set<nat>>) returns (r: Res<()>)
      modifies this
      ensures match Connections.ContinueElsewhere(old(View()), now, connects)
              case Ok(c) => r.Ok? && View() == c
              case Err(f) => r == Err(f)
    {
      r := Deregister();
      if r.Err? { return; }
      var index := ConnectFrom(addresses, 0, Reachable(connects, 0));
      if index.None? { return Err(ConnectRefused); }
      addressIndex := index.value;
      connectedAt := now;
      r := Register();
    }

    method ContinueHere(now: int, writes: seq<WriteOutcome>) returns (r: Res<()>)
      requires writeOffset <= request.length
      modifies this
      ensures match Connections.ContinueHere(old(View()), now, writes)
              case Ok(c) => r.Ok? && View() == c
              case Err(f) => r == Err(f)
    {
      if interest.Unregistered? { return Err(RegistryMisuse); }
      var ok := WriteRequest(now, writes);
      if !ok { return Err(WriteRefused); }
      r := RefreshInterest(now);
    }

    method StopIfExpired(now: int) returns (r: Res<bool>)
      modifies this
      ensures match Connections.StopIfExpired(old(View()), now)
              case Ok((c, stopped)) => r == Ok(stopped) && View() == c
              case Err(f) => r == Err(f)
    {
      if started.None? && !limit.ShouldContinue(completed, now) {
        done := true;
        if !reconnectAtPace {
          var gone := Deregister();
          if gone.Err? { return Err(gone.failure); }
        }
        return Ok(true);
      }
      return Ok(false);
    }

    /** The reconnecting tail shared by retry, recovery and resumption; the old socket is already deregistered. */
    method Reopen(index: nat, now: int)
      requires interest.Unregistered?
      modifies this
      ensures View() == Reconnected(old(View()), index, now)
    {
      addressIndex := index;
      connectedAt := now;
      awaitingPace := false;
      reconnectAtPace := false;
      generation := generation + 1;
      interest := ReadWrite;
    }

    /** The bounded redial loop of request-limited connections. */
    method Redial(start: nat, connects: seq<set<nat>>) returns (index: Option<nat>)
      requires recoveryAttempts < FIXED_REQUEST_RECOVERY_ATTEMPTS
      modifies this`pendingRecoveries, this`recoveryAttempts
      ensures var (tries, i) := Dial(addresses, start, connects, 0, FIXED_REQUEST_RECOVERY_ATTEMPTS - old(recoveryAttempts));
              && index == i
              && pendingRecoveries == old(pendingRecoveries) + tries && recoveryAttempts == old(recoveryAttempts) + tries
    {
      ghost var target := Dial(addresses, start, connects, 0, FIXED_REQUEST_RECOVERY_ATTEMPTS - recoveryAttempts);
      var attempt: nat := 0;
      while true
        invariant recoveryAttempts < FIXED_REQUEST_RECOVERY_ATTEMPTS
        invariant pendingRecoveries == old(pendingRecoveries) + attempt && recoveryAttempts == old(recoveryAttempts) + attempt
        invariant var (n, i) := Dial(addresses, start, connects, attempt, FIXED_REQUEST_RECOVERY_ATTEMPTS - recoveryAttempts);
                  target == (attempt + n, i)
        decreases FIXED_REQUEST_RECOVERY_ATTEMPTS - recoveryAttempts
      {
        pendingRecoveries := pendingRecoveries + 1;
        recoveryAttempts := recoveryAttempts + 1;
        index := ConnectFrom(addresses, start, Reachable(connects, attempt));
        if index.Some? || FIXED_REQUEST_RECOVERY_ATTEMPTS <= recoveryAttempts { return; }
        attempt := attempt + 1;
      }
    }

    method RetryAddress(now: int, connects: seq<set<nat>>) returns (r: Res<bool>)
      requires 0 < addresses
      modifies this
      ensures match Connections.RetryAddress(old(View()), now, connects)
              case Ok((c, retried)) => r == Ok(retried) && View() == c
              case Err(f) => r == Err(f)
    {
      var gone := Deregister();
      if gone.Err? { return Err(gone.failure); }
      r := RetryClosed(now, connects);
    }

    /** Once the old socket is deregistered. */
    method RetryClosed(now: int, connects: seq<set<nat>>) returns (r: Res<bool>)
      requires 0 < addresses && interest.Unregistered?
      modifies this
      ensures match Connections.RetryClosed(old(View()), now, connects)
              case Ok((c, retried)) => r == Ok(retried) && View() == c
              case Err(f) => r == Err(f)
    {
      if limit.Requests? {
        var retried := RetryFixed(now, connects);
        return Ok(retried);
      }
      var next := if addressIndex + 1 < addresses then addressIndex + 1 else 0;
      var index := ConnectFrom(addresses, next, Reachable(connects, 0));
      if index.None? { return Err(ConnectRefused); }
      Reopen(index.value, now);
      return Ok(true);
    }

    method RetryFixed(now: int, connects: seq<set<nat>>) returns (retried: bool)
      requires 0 < addresses && limit.Requests? && interest.Unregistered?
      modifies this
      ensures (View(), retried) == Connections.RetryFixed(old(View()), now, connects)
    {
      var next := (addressIndex + 1) % addresses;
      if FIXED_REQUEST_RECOVERY_ATTEMPTS <= recoveryAttempts {
        done := true;
        return false;
      }
      var index := Redial(next, connects);
      if index.None? {
        done := true;
        return false;
      }
      Reopen(index.value, now);
      return true;
    }

    method RecoverRequest(now: int, connects: seq<set<nat>>) returns (r: Res<bool>)
      modifies this
      ensures match Connections.RecoverRequest(old(View()), now, connects)
              case Ok((c, recovered)) => r == Ok(recovered) && View() == c
              case Err(f) => r == Err(f)
    {
      if limit.Deadline? && limit.at <= now { return Ok(false); }
      var gone := Deregister();
      if gone.Err? { return Err(gone.failure); }
      r := RecoverClosed(now, connects);
    }

    method RecoverClosed(now: int, connects: seq<set<nat>>) returns (r: Res<bool>)
      requires interest.Unregistered?
      modifies this
      ensures match Connections.RecoverClosed(old(View()), now, connects)
              case Ok((c, recovered)) => r == Ok(recovered) && View() == c
              case Err(f) => r == Err(f)
    {
      if limit.Requests? {
        var recovered := RecoverFixed(now, connects);
        return Ok(recovered);
      }
      pendingRecoveries := pendingRecoveries + 1;
      var index := ConnectFrom(addresses, 0, Reachable(connects, 0));
      if index.None? { return Err(ConnectRefused); }
      Restart();
      Reopen(index.value, now);
      return Ok(true);
    }

    method RecoverFixed(now: int, connects: seq<set<nat>>) returns (recovered: bool)
      requires limit.Requests? && interest.Unregistered?
      modifies this
      ensures (View(), recovered) == Connections.RecoverFixed(old(View()), now, connects)
    {
      if FIXED_REQUEST_RECOVERY_ATTEMPTS <= recoveryAttempts {
        done := true;
        return false;
      }
      var index := Redial(0, connects);
      if index.None? {
        done := true;
        return false;
      }
      Restart();
      Reopen(index.value, now);
      return true;
    }

    method Restart()
      modifies this
      ensures View() == Restarted(old(View()))
    {
      writeOffset, sent := 0, [];
      decoder := NewDecoder(request.isHead);
      started := None;
    }

    method DeferReconnect(now: int) returns (r: Res<bool>)
      modifies this
      ensures match Connections.DeferReconnect(old(View()), now)
              case Ok((c, deferred)) => r == Ok(deferred) && View() == c
              case Err(f) => r == Err(f)
    {
      if started.Some? || request.notBefore.None? || request.notBefore.value <= now { return Ok(false); }
      var gone := Deregister();
      if gone.Err? { return Err(gone.failure); }
      awaitingPace := true;
      reconnectAtPace := true;
      generation := generation + 1;
      return Ok(true);
    }

    method ResumeAtPace(now: int, connects: seq<set<nat>>) returns (r: Res<()>)
      modifies this
      ensures match Connections.ResumeAtPace(old(View()), now, connects)
              case Ok(c) => r.Ok? && View() == c
              case Err(f) => r == Err(f)
    {
      if !reconnectAtPace {
        r := RefreshInterest(now);
        return;
      }
      var index := ConnectFrom(addresses, 0, Reachable(connects, 0));
      if index.None? { return Err(ConnectRefused); }
      if !interest.Unregistered? { return Err(RegistryMisuse); }
      Reopen(index.value, now);
      return Ok(());
    }

    method StopAfterDurationError(now: int) returns (r: Res<bool>)
      modifies this
      ensures match Connections.StopAfterDurationError(old(View()), now)
              case Ok((c, stopped)) => r == Ok(stopped) && View() == c
              case Err(f) => r == Err(f)
    {
      if limit.Deadline? && limit.at <= now {
        done := true;
        var gone := Deregister();
        return if gone.Ok? then Ok(true) else Err(gone.failure);
      }
      return Ok(false);
    }

    method Expire(now: int) returns (r: Res<Expiration>)
      modifies this
      ensures match Connections.Expire(old(View()), now)
              case Ok((c, e)) => r == Ok(e) && View() == c
              case Err(f) => r == Err(f)
    {
      if started.Some? { return Ok(RequestTimeout); }
      if limit.ShouldContinue(completed, now) { return Ok(ConnectionTimeout); }
      done := true;
      var gone := Deregister();
      return if gone.Ok? then Ok(Stopped) else Err(gone.failure);
    }

    method TakeReadBytes() returns (count: nat)
      modifies this`pendingRead
      ensures count == old(pendingRead) && View() == old(View()).(pendingRead := 0)
    {
      count := pendingRead;
      pendingRead := 0;
    }

    method TakeRecoveryAttempts() returns (count: nat)
      modifies this`pendingRecoveries
      ensures count == old(pendingRecoveries) && View() == old(View()).(pendingRecoveries := 0)
    {
      count := pendingRecoveries;
      pendingRecoveries := 0;
    }
  }
}
