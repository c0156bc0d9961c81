/** The worker loop of src/engine/mod.rs, run on scripts of socket outcomes and clock readings. */
module Workers {
  import opened Prelude
  import opened Decoder
  import opened Connections
  import opened ConnectionObjects
  import opened WorkerSpec
  import opened WorkerSteps
  import opened WorkerRules
  import opened WorkerRuns

  ghost function Views(cs: seq<Connection>): (s: seq<Conn>)
    reads cs
    ensures |s| == |cs|
    ensures forall i :: 0 <= i < |s| ==> s[i] == cs[i].View()
  {
    seq(|cs|, i requires 0 <= i < |cs| reads cs => cs[i].View())
  }

  class Worker {
    const grammar: Grammar
    const timeout: nat
    var connections: seq<Connection>
    var deadlines: seq<Entry>
    var pacing: seq<Entry>
    var summary: Counters
    var active: int
    var clock: int
    ghost var drawn: multiset<nat>
    ghost var finished: multiset<nat>
    ghost var answers: seq<Answer>
    ghost var handed: set<Handover>
    ghost var refused: nat
    ghost var slots: nat
    /** Every connection this worker has made. */
    ghost var owned: set<Connection>

    ghost function State(): Shared
      reads this
    {
      Shared(deadlines, pacing, summary, active, clock, timeout, drawn, finished, answers, handed)
    }

    ghost function Conns(): seq<Conn>
      reads this`connections, connections
    {
      Views(connections)
    }

    ghost function View(): W
      reads this, connections
    {
      W(Conns(), State(), refused, slots)
    }

    ghost predicate Distinct()
      reads this`connections, connections
    {
      && (forall i, j :: 0 <= i < j < |connections| ==> connections[i] != connections[j])
      && (forall i :: 0 <= i < |connections| ==> connections[i].grammar == grammar)
    }

    ghost predicate Valid()
      reads this, connections
    {
      Distinct() && Inv(View())
    }

    /** What a method did to one connection and to the worker is what the rule says. */
    ghost predicate Did(r: Res<()>, c: Connection, after: After)
      reads this, c
    {
      match after
      case Err(f) => r == Err(f)
      case Ok((c', s')) => r.Ok? && c.View() == c' && State() == s'
    }

    /** What a method did to the whole worker is what the rule says. */
    ghost predicate Became(r: Res<()>, after: Res<W>)
      reads this, connections
    {
      match after
      case Err(f) => r == Err(f)
      case Ok(w) => r.Ok? && View() == w
    }

    /** A rule for one connection is a rule for the worker. */
    lemma Commit(w: W, token: nat, c: Connection, r: Res<()>, after: After)
      requires Distinct() && token < |connections| && connections[token] == c && |w.conns| == |connections|
      requires forall i :: 0 <= i < |connections| && i != token ==> connections[i].View() == w.conns[i]
      requires w.refused == refused && w.slots == slots
      requires Did(r, c, after)
      ensures Became(r, Replaced(w, token, after))
    {
      if r.Ok? {
        assert Conns() == w.conns[token := c.View()];
      }
    }

    // ----- pieces shared by the event and timer handlers -----

    method ScheduleDeadline(c: Connection, token: nat)
      modifies this`deadlines
      ensures deadlines == AddTimer(old(deadlines), NextDeadline(c.View(), timeout), token, c.generation)
    {
      deadlines := AddTimer(deadlines, NextDeadline(c.View(), timeout), token, c.generation);
    }

    method SchedulePacing(c: Connection, token: nat)
      modifies this`pacing
      ensures pacing == AddTimer(old(pacing), PacingDeadline(c.View()), token, c.generation)
    {
      pacing := AddTimer(pacing, PacingDeadline(c.View()), token, c.generation);
    }

    /** Both schedule calls. */
    method ScheduleTimers(c: Connection, token: nat)
      modifies this`deadlines, this`pacing
      ensures State() == Schedule(old(State()), c.View(), token)
    {
      ScheduleDeadline(c, token);
      SchedulePacing(c, token);
    }

    method Note(kind: ErrorKind, attempts: nat, abandoned: nat, stopped: nat)
      modifies this`summary, this`active
      ensures State() == AfterFailure(old(State()), kind, attempts, abandoned, stopped)
    {
      var k := CountError(summary, kind);
      summary := k.(recoveries := k.recoveries + attempts, abandoned := k.abandoned + abandoned);
      active := active - stopped;
    }

    method Recover(c: Connection, token: nat, kind: ErrorKind, connects: seq<set<nat>>) returns (r: Res<()>)
      modifies this`deadlines, this`pacing, this`summary, this`active, c
      ensures Did(r, c, RecoverRule(old(c.View()), old(State()), token, kind, connects))
    {
      var recovered := c.RecoverRequest(clock, connects);
      if recovered.Err? { return Err(recovered.failure); }
      var attempts := c.TakeRecoveryAttempts();
      if recovered.value {
        Note(kind, attempts, 0, 0);
        ScheduleTimers(c, token);
        return Ok(());
      }
      var stopped := c.StopAfterDurationError(clock);
      if stopped.Err? { return Err(stopped.failure); }
      if stopped.value {
        Note(kind, attempts, 0, 1);
        return Ok(());
      }
      if c.done {
        Note(kind, attempts, UnfinishedRequests(c.View()), 1);
        return Ok(());
      }
      return Err(Unrecovered);
    }

    method Retry(c: Connection, token: nat, connects: seq<set<nat>>) returns (r: Res<()>)
      requires 0 < c.addresses
      modifies this`deadlines, this`pacing, this`summary, this`active, c
      ensures Did(r, c, RetryRule(old(c.View()), old(State()), token, connects))
    {
      var retried := c.RetryAddress(clock, connects);
      if retried.Err? { return Err(retried.failure); }
      var attempts := c.TakeRecoveryAttempts();
      if retried.value {
        Note(ConnectError, attempts, 0, 0);
        ScheduleTimers(c, token);
      } else {
        Note(ConnectError, attempts, UnfinishedRequests(c.View()), 1);
      }
      return Ok(());
    }

    method DeferOrRetry(c: Connection, token: nat, connects: seq<set<nat>>) returns (r: Res<()>)
      requires 0 < c.addresses
      modifies this`deadlines, this`pacing, this`summary, this`active, c
      ensures Did(r, c, DeferOrRetryRule(old(c.View()), old(State()), token, connects))
    {
      var deferred := c.DeferReconnect(clock);
      if deferred.Err? { return Err(deferred.failure); }
      if deferred.value {
        Note(ConnectError, 0, 0, 0);
        SchedulePacing(c, token);
        return Ok(());
      }
      r := Retry(c, token, connects);
    }

    method NoteStop()
      modifies this`active
      ensures State() == old(State()).(active := old(active) - 1)
    {
      active := active - 1;
    }

    // ----- events -----

    /** A socket error reported by the poll. */
    method OnError(c: Connection, token: nat, ev: Event) returns (r: Res<()>)
      requires 0 < c.addresses
      modifies this`deadlines, this`pacing, this`summary, this`active, c
      ensures Did(r, c, ErrorRule(old(c.View()), old(State()), token, ev))
    {
      if c.started.Some? {
        var readError := c.writeOffset == c.request.length;
        r := Recover(c, token, if readError then ReadError else WriteError, ev.connects);
      } else {
        r := DeferOrRetry(c, token, ev.connects);
      }
    }

    /** A rule with a flag, done. */
    ghost predicate DidPart(r: Res<bool>, c: Connection, after: Res<(Conn, Shared, bool)>)
      reads this, c
    {
      match after
      case Err(f) => r == Err(f)
      case Ok((c', s', goOn)) => r == Ok(goOn) && c.View() == c' && State() == s'
    }

    /** A writable socket. Ok(true) when the event goes on to its readable part. */
    method OnWritable(c: Connection, token: nat, ev: Event) returns (r: Res<bool>)
      requires 0 < c.addresses && c.writeOffset <= c.request.length
      modifies this`deadlines, this`pacing, this`summary, this`active, c
      ensures DidPart(r, c, WritableRule(old(c.View()), old(State()), token, ev))
    {
      var expired := c.StopIfExpired(clock);
      if expired.Err? { return Err(expired.failure); }
      if expired.value {
        NoteStop();
        return Ok(false);
      }
      if ev.pendingError {
        var failed := DeferOrRetry(c, token, ev.connects);
        return if failed.Ok? then Ok(false) else Err(failed.failure);
      }
      r := Write(c, token, ev);
    }

    method Write(c: Connection, token: nat, ev: Event) returns (r: Res<bool>)
      requires 0 < c.addresses && c.writeOffset <= c.request.length
      modifies this`deadlines, this`pacing, this`summary, this`active, c
      ensures DidPart(r, c, WriteRule(old(c.View()), old(State()), token, ev))
    {
      var generation := c.generation;
      var ok := c.WriteRequest(clock, ev.writes);
      if !ok {
        var failed := Recover(c, token, WriteError, ev.connects);
        return if failed.Ok? then Ok(false) else Err(failed.failure);
      }
      var refreshed := c.RefreshInterest(clock);
      if refreshed.Err? { return Err(refreshed.failure); }
      if c.generation != generation {
        ScheduleTimers(c, token);
      }
      return Ok(true);
    }

    method NoteRead(bytes: nat, body: nat)
      modifies this`summary
      ensures State() == CountRead(old(State()), bytes, body)
    {
      summary := summary.(readBytes := summary.readBytes + bytes, bodyBytes := summary.bodyBytes + body);
    }

    /** A readable socket. */
    method OnReadable(c: Connection, token: nat, ev: Event) returns (r: Res<()>)
      requires 0 < c.addresses && Configured(c.decoder) && c.grammar == grammar && c.pendingRead == 0
      modifies this`deadlines, this`pacing, this`summary, this`active, this`drawn, this`finished, this`answers, c
      ensures Did(r, c, ReadableRule(grammar, old(c.View()), old(State()), token, ev))
    {
      var response := c.ReadResponse(ev.inputs);
      var bytes := c.TakeReadBytes();
      if response.Completed? {
        NoteRead(bytes, response.bodyLength);
        r := Finish(c, token, response.status, response.close, ev);
        return;
      }
      NoteRead(bytes, 0);
      if response.Malformed? { return Err(InvalidResponse); }
      r := Unanswered(c, token, response, ev);
    }

    /** No response yet, or none any more. */
    method Unanswered(c: Connection, token: nat, response: ReadResult, ev: Event) returns (r: Res<()>)
      requires 0 < c.addresses
      modifies this`deadlines, this`pacing, this`summary, this`active, c
      ensures Did(r, c, UnansweredRule(old(c.View()), old(State()), token, response, ev))
    {
      if response.NoResponse? || (response.Unconnected? && c.started.None?) {
        r := c.RefreshInterest(clock);
      } else if c.started.None? {
        r := DeferOrRetry(c, token, ev.connects);
      } else {
        r := Recover(c, token, ReadError, ev.connects);
      }
    }

    method NoteFinish(ghost answer: Answer, ghost draws: multiset<nat>, stopped: nat)
      modifies this`summary, this`active, this`drawn, this`finished, this`answers
      ensures State() == CountFinish(old(State()), answer, draws, stopped)
    {
      summary := summary.(completed := summary.completed + 1);
      active := active - stopped;
      answers, finished := answers + [answer], finished + multiset{answer.entry};
      drawn := drawn + draws;
    }

    /** Records a completed response and goes on with the next entry, or finishes the connection. */
    method Finish(c: Connection, token: nat, status: nat, close: bool, ev: Event) returns (r: Res<()>)
      modifies this`deadlines, this`pacing, this`summary, this`active, this`drawn, this`finished, this`answers, c
      ensures Did(r, c, FinishRule(old(c.View()), old(State()), token, status, close, ev))
    {
      ghost var answer := AnswerOf(c.View(), status, clock);
      var stopped := c.FinishResponse(close, ev.draw, clock, ev.connects, ev.nextWrites);
      if stopped.Err? { return Err(stopped.failure); }
      if stopped.value {
        NoteFinish(answer, multiset{}, 1);
      } else {
        NoteFinish(answer, multiset{ev.draw.entry}, 0);
        ScheduleTimers(c, token);
      }
      return Ok(());
    }

    /** One event of one connection: its error, or its writable and then its readable part. */
    method Dispatch(c: Connection, token: nat, ev: Event) returns (r: Res<()>)
      requires Usable(c.View()) && c.grammar == grammar && c.pendingRead == 0
      modifies this`deadlines, this`pacing, this`summary, this`active, this`drawn, this`finished, this`answers, c
      ensures Did(r, c, EventRule(grammar, old(c.View()), old(State()), token, ev))
    {
      if ev.error && ev.socketError {
        r := OnError(c, token, ev);
        return;
      }
      if ev.writable {
        var goOn := OnWritable(c, token, ev);
        if goOn.Err? { return Err(goOn.failure); }
        if !goOn.value { return Ok(()); }
      }
      if ev.readable {
        r := OnReadable(c, token, ev);
        return;
      }
      return Ok(());
    }

    /** Reads the clock, which never goes back. */
    method Advance(now: int)
      requires Valid()
      modifies this`clock
      ensures View() == At(old(View()), now) && Valid()
    {
      clock := Max(clock, now);
      assert View() == old(View()).(shared := Tick(old(State()), now));
    }

    method HandleLive(ev: Event) returns (r: Res<()>)
      requires Distinct() && ev.token < |connections|
      requires Usable(connections[ev.token].View()) && connections[ev.token].pendingRead == 0
      modifies this`deadlines, this`pacing, this`summary, this`active, this`drawn, this`finished, this`answers, connections[ev.token]
      ensures Distinct()
      ensures Became(r, Replaced(old(View()), ev.token,
                                 EventRule(grammar, old(connections[ev.token].View()), old(State()), ev.token, ev)))
    {
      var c := connections[ev.token];
      ghost var w := View();
      r := Dispatch(c, ev.token, ev);
      Commit(w, ev.token, c, r, EventRule(grammar, w.conns[ev.token], w.shared, ev.token, ev));
    }

    /** One readiness event, delivered only to a registered socket. */
    method HandleEvent(ev: Event) returns (r: Res<()>)
      requires Valid()
      modifies this`clock, this`deadlines, this`pacing, this`summary, this`active, this`drawn, this`finished, this`answers, this`handed, connections
      ensures Became(r, EventOn(grammar, old(View()), ev))
      ensures Distinct() && (r.Ok? ==> Valid())
    {
      Advance(ev.now);
      if |connections| <= ev.token { return Ok(()); }
      var c := connections[ev.token];
      if c.done || c.interest.Unregistered? { return Ok(()); }
      LiveIsUsable(View(), ev.token);
      r := HandleLive(ev);
    }

    // ----- timers -----

    method DropDeadline()
      requires deadlines != []
      modifies this`deadlines
      ensures State() == PopDeadline(old(State()))
    {
      deadlines := deadlines[1..];
    }

    method DropPacing()
      requires pacing != []
      modifies this`pacing
      ensures State() == PopPacing(old(State()))
    {
      pacing := pacing[1..];
    }

    /** A live deadline entry: the connection stops, recovers its request, or retries its address. */
    method Expire(c: Connection, token: nat, connects: seq<set<nat>>) returns (r: Res<()>)
      requires 0 < c.addresses
      modifies this`deadlines, this`pacing, this`summary, this`active, c
      ensures Did(r, c, ExpiryRule(old(c.View()), old(State()), token, connects))
    {
      var expiration := c.Expire(clock);
      if expiration.Err? { return Err(expiration.failure); }
      match expiration.value {
        case Stopped =>
          NoteStop();
          return Ok(());
        case RequestTimeout =>
          r := Recover(c, token, TimeoutError, connects);
        case ConnectionTimeout =>
          r := Retry(c, token, connects);
      }
    }

    /** The head of the deadline queue, which is due. */
    method FireDeadline(firing: Firing) returns (r: Res<()>)
      requires Valid() && deadlines != [] && deadlines[0].at <= Max(clock, firing.now)
      modifies this`clock, this`deadlines, this`pacing, this`summary, this`active, connections
      ensures Became(r, DeadlineOn(old(View()), firing))
      ensures Distinct() && (r.Ok? ==> Valid())
    {
      Advance(firing.now);
      r := FireDeadlineHead(firing.connects);
    }

    method FireDeadlineHead(connects: seq<set<nat>>) returns (r: Res<()>)
      requires Valid() && deadlines != [] && deadlines[0].at <= clock
      modifies this`deadlines, this`pacing, this`summary, this`active, connections
      ensures Became(r, DeadlineHead(old(View()), connects))
      ensures Distinct() && (r.Ok? ==> Valid())
    {
      assert deadlines[0] in View().shared.deadlines;
      var e := deadlines[0];
      var c := connections[e.token];
      if c.done || c.generation != e.generation {
        DropDeadline();
        return Ok(());
      }
      LiveIsUsable(View(), e.token);
      r := FireLiveDeadline(connects);
    }

    method FireLiveDeadline(connects: seq<set<nat>>) returns (r: Res<()>)
      requires Distinct() && deadlines != [] && deadlines[0].token < |connections|
      requires 0 < connections[deadlines[0].token].addresses
      modifies this`deadlines, this`pacing, this`summary, this`active, connections[deadlines[0].token]
      ensures Distinct()
      ensures var token := old(deadlines[0].token);
              Became(r, Replaced(old(View()), token,
                                 ExpiryRule(old(connections[deadlines[0].token].View()), PopDeadline(old(State())), token, connects)))
    {
      var e := deadlines[0];
      var c := connections[e.token];
      ghost var w := View();
      DropDeadline();
      r := Expire(c, e.token, connects);
      Commit(w, e.token, c, r, ExpiryRule(w.conns[e.token], PopDeadline(w.shared), e.token, connects));
    }

    /** A live pacing entry: the connection stops, or is handed over to writability. */
    method Resume(c: Connection, ghost token: nat, connects: seq<set<nat>>) returns (r: Res<()>)
      modifies this`active, this`handed, c
      ensures Did(r, c, SlotRule(old(c.View()), old(State()), token, connects))
    {
      var stopped := c.StopIfExpired(clock);
      if stopped.Err? { return Err(stopped.failure); }
      if stopped.value {
        NoteStop();
        return Ok(());
      }
      r := c.ResumeAtPace(clock, connects);
      handed := handed + {Handover(token, c.generation)};
    }

    /** The head of the pacing queue, which is due. */
    method FirePacing(firing: Firing) returns (r: Res<()>)
      requires Valid() && pacing != [] && pacing[0].at <= Max(clock, firing.now)
      modifies this`clock, this`pacing, this`active, this`handed, connections
      ensures Became(r, SlotOn(old(View()), firing))
      ensures Distinct() && (r.Ok? ==> Valid())
    {
      Advance(firing.now);
      r := FireSlotHead(firing.connects);
    }

    method FireSlotHead(connects: seq<set<nat>>) returns (r: Res<()>)
      requires Valid() && pacing != [] && pacing[0].at <= clock
      modifies this`pacing, this`active, this`handed, connections
      ensures Became(r, SlotHead(old(View()), connects))
      ensures Distinct() && (r.Ok? ==> Valid())
    {
      assert pacing[0] in View().shared.pacing;
      var e := pacing[0];
      var c := connections[e.token];
      if c.done || c.generation != e.generation {
        DropPacing();
        return Ok(());
      }
      r := FireLiveSlot(connects);
    }

    method FireLiveSlot(connects: seq<set<nat>>) returns (r: Res<()>)
      requires Distinct() && pacing != [] && pacing[0].token < |connections| && !connections[pacing[0].token].done
      modifies this`pacing, this`active, this`handed, connections[pacing[0].token]
      ensures Distinct()
      ensures var token := old(pacing[0].token);
              Became(r, Replaced(old(View()), token,
                                 SlotRule(old(connections[pacing[0].token].View()), PopPacing(old(State())), token, connects)))
    {
      var e := pacing[0];
      var c := connections[e.token];
      ghost var w := View();
      DropPacing();
      r := Resume(c, e.token, connects);
      Commit(w, e.token, c, r, SlotRule(w.conns[e.token], PopPacing(w.shared), e.token, connects));
    }

    /** Removes stale heads from the deadline queue. */
    method DiscardStaleDeadlines()
      requires Valid()
      modifies this`deadlines
      ensures View() == CleanDeadlines(old(View())) && Valid()
    {
      ghost var target := CleanDeadlines(View());
      while deadlines != []
        invariant Valid() && CleanDeadlines(View()) == target
        decreases |deadlines|
      {
        var dropped := DropStaleDeadline();
        if !dropped { break; }
      }
    }

    /** Drops the head of the deadline queue if it is stale. */
    method DropStaleDeadline() returns (dropped: bool)
      requires Valid() && deadlines != []
      modifies this`deadlines
      ensures Valid() && CleanDeadlines(View()) == CleanDeadlines(old(View()))
      ensures if dropped then deadlines == old(deadlines)[1..] else CleanDeadlines(View()) == View()
    {
      ghost var w := View();
      assert deadlines[0] in w.shared.deadlines;
      var c := connections[deadlines[0].token];
      if !c.done && c.generation == deadlines[0].generation { return false; }
      DropDeadlineKeepsInv(w);
      DropDeadline();
      assert View() == w.(shared := PopDeadline(w.shared));
      return true;
    }

    /** Removes stale heads from the pacing queue, including those for another slot of the same connection. */
    method DiscardStalePacing()
      requires Valid()
      modifies this`pacing
      ensures View() == CleanSlots(old(View())) && Valid()
    {
      ghost var target := CleanSlots(View());
      while pacing != []
        invariant Valid() && CleanSlots(View()) == target
        decreases |pacing|
      {
        var dropped := DropStaleSlot();
        if !dropped { break; }
      }
    }

    method DropStaleSlot() returns (dropped: bool)
      requires Valid() && pacing != []
      modifies this`pacing
      ensures Valid() && CleanSlots(View()) == CleanSlots(old(View()))
      ensures if dropped then pacing == old(pacing)[1..] else CleanSlots(View()) == View()
    {
      ghost var w := View();
      StaleSlotIsStale(w);
      var c := connections[pacing[0].token];
      if !c.done && c.generation == pacing[0].generation && PacingDeadline(c.View()) == Some(pacing[0].at) { return false; }
      DropPacingKeepsInv(w);
      DropPacing();
      assert View() == w.(shared := PopPacing(w.shared));
      return true;
    }

    /** Lazy cleaning, before every poll. */
    method Clean()
      requires Valid()
      modifies this`deadlines, this`pacing
      ensures View() == CleanSlots(CleanDeadlines(old(View()))) && Valid()
    {
      DiscardStaleDeadlines();
      DiscardStalePacing();
    }

    /** Heads that are not stale; cleaning leaves only such. */
    ghost predicate Cleaned()
      reads this, connections
    {
      && (deadlines != [] ==> deadlines[0].token < |connections| && !Stale(deadlines[0], Conns()))
      && (pacing != [] ==> pacing[0].token < |connections| && !Stale(pacing[0], Conns()))
    }

    /** When the poll must wake up: no later than any unfinished connection's timer, and never for nothing. */
    method NextWake() returns (wake: Option<int>)
      requires Valid() && Cleaned()
      ensures forall t :: 0 <= t < |connections| ==> WokenInTime(connections[t].View(), State(), t, wake)
      ensures wake.Some? ==> exists t :: 0 <= t < |connections| && WakesFor(connections[t].View(), wake)
    {
      wake := Earliest(HeadTime(deadlines), HeadTime(pacing));
      forall t | 0 <= t < |connections| ensures WokenInTime(connections[t].View(), State(), t, wake) {
        NoTimerMissed(View(), t);
      }
      if deadlines != [] { LiveEntryIsDue(View(), deadlines[0]); }
      if pacing != [] { LiveEntryIsDue(View(), pacing[0]); }
    }

    /** The poll, after cleaning, with the timeout that the timers allow. */
    method Sleep()
      requires Valid()
      modifies this`deadlines, this`pacing
      ensures View() == CleanSlots(CleanDeadlines(old(View()))) && Valid()
    {
      Clean();
      var wake := NextWake();
    }

    ghost predicate WakesFor(c: Conn, wake: Option<int>)
      reads this
    {
      !c.done && wake.Some? && DueAt(c, timeout, wake.value)
    }

    // ----- opening -----

    constructor (grammar: Grammar, timeout: nat)
      ensures Opening() && Planned() == EmptyWorker(timeout) && connections == [] && owned == {}
      ensures this.grammar == grammar && this.timeout == timeout
    {
      this.grammar, this.timeout := grammar, timeout;
      connections, deadlines, pacing, summary, active, clock := [], [], [], NOTHING, 0, 0;
      drawn, finished, answers, handed, refused, slots, owned := multiset{}, multiset{}, [], {}, 0, 0, {};
    }

    /** The worker as it will be once every opened connection is scheduled. */
    ghost function Planned(): W
      reads this, connections
    {
      W(Conns(), State().(deadlines := FirstDeadlines(Conns(), timeout), active := |connections|), refused, slots)
    }

    /** Nothing is scheduled yet. */
    ghost predicate Opening()
      reads this, connections
    {
      && Distinct() && deadlines == [] && pacing == []
      && forall i :: 0 <= i < |connections| ==> !connections[i].awaitingPace && connections[i] in owned
    }

    /** Tries to connect: at most three times for a request limit, until the deadline for a duration limit. */
    method Connect(addresses: nat, limit: Limit, dials: seq<Dialing>) returns (c: Connection?, ending: Ending)
      modifies this`clock, this`summary
      ensures var d := DialOn(addresses, limit, dials, 0, old(clock));
              && clock == d.now && summary == CountRefusals(old(summary), AttemptsOf(d), 0)
              && (c != null <==> d.Reached?) && (d.Ended? ==> ending == d.ending) && (!d.Ended? ==> ending.Connected?)
              && (c != null ==> c.grammar == grammar && c.View() == Opened(addresses, d.index, d.draw, limit, clock))
      ensures c != null ==> fresh(c)
    {
      ghost var target := DialOn(addresses, limit, dials, 0, clock);
      c, ending := null, Cut;
      var i := 0;
      while i < |dials|
        invariant 0 <= i <= |dials| && (limit.Requests? ==> i < 3)
        invariant DialOn(addresses, limit, dials[i..], i, clock) == target
        invariant summary == CountRefusals(old(summary), i, 0)
      {
        assert dials[i..][0] == dials[i] && dials[i..][1..] == dials[i + 1..];
        var dial := dials[i];
        clock := Max(clock, dial.now);
        var index := ConnectFrom(addresses, 0, dial.reachable);
        if index.Some? {
          c := new Connection(grammar, addresses, index.value, dial.draw, limit, clock);
          return c, Connected;
        }
        summary := summary.(connectErrors := summary.connectErrors + 1);
        i := i + 1;
        if limit.Deadline? && limit.at <= clock { return null, LoadOver; }
        if limit.Requests? && i == 3 { return null, Connected; }
      }
    }

    method Append(c: Connection)
      requires Opening() && c !in connections && c.grammar == grammar && c.interest.Unregistered? && !c.awaitingPace
      modifies this`connections, this`drawn, this`slots, this`owned, c
      ensures connections == old(connections) + [c] && c.View() == old(c.View()).(interest := ReadWrite)
      ensures Opening() && owned == old(owned) + {c} && Conns() == old(Conns()) + [c.View()]
      ensures drawn == old(drawn) + multiset{c.request.entry} && slots == old(slots) + 1
    {
      var registered := c.Register();
      connections, owned := connections + [c], owned + {c};
      drawn := drawn + multiset{c.request.entry};
      slots := slots + 1;
    }

    /** A new connection joins the others. */
    method Admit(c: Connection, addresses: nat, ghost index: nat, ghost limit: Limit)
      requires Opening() && c !in connections && c.grammar == grammar
      requires c.View() == Opened(addresses, index, c.request, limit, clock)
      modifies this`connections, this`drawn, this`slots, this`owned, c
      ensures Opening() && owned == old(owned) + {c}
      ensures Planned() == WithOpened(old(Planned()), Fresh(addresses, index, old(c.request), limit, clock))
    {
      ghost var plan := Planned();
      Append(c);
      PlanAppend(plan.conns, plan.shared, plan.refused, plan.slots, c.View());
      assert Planned() == WithOpened(plan, c.View());
    }

    method NoteRefused(requests: nat)
      modifies this`summary, this`refused, this`slots
      ensures Planned() == GiveUp(old(Planned()), requests)
    {
      ghost var plan := Planned();
      summary := CountRefusals(summary, 0, requests);
      refused := refused + requests;
      slots := slots + 1;
      assert Conns() == plan.conns;
      assert Planned() == GiveUp(plan, requests);
    }

    /** One limit: a connection, an abandonment of all its requests, or the end of the worker. */
    method OpenOne(addresses: nat, limit: Limit, dials: seq<Dialing>) returns (ending: Ending)
      requires Opening()
      modifies this`clock, this`summary, this`connections, this`drawn, this`refused, this`slots, this`owned
      ensures Opening() && (ending, Planned()) == OpenOn(old(Planned()), addresses, limit, dials)
      ensures fresh(owned - old(owned))
    {
      ghost var d := DialOn(addresses, limit, dials, 0, clock);
      var c;
      c, ending := Dial(addresses, limit, dials);
      if c != null {
        Admit(c, addresses, d.index, limit);
        assert owned - old(owned) <= {c};
      } else {
        Settle(ending, limit);
        assert owned - old(owned) == {};
      }
    }

    /** A limit that got no connection. */
    method Settle(ending: Ending, limit: Limit)
      requires Opening() && (ending.Connected? ==> limit.Requests?)
      modifies this`summary, this`refused, this`slots
      ensures Opening() && Planned() == if ending.Connected? then GiveUp(old(Planned()), limit.count) else old(Planned())
    {
      if ending.Connected? { NoteRefused(limit.count); }
    }

    method Dial(addresses: nat, limit: Limit, dials: seq<Dialing>) returns (c: Connection?, ending: Ending)
      requires Opening()
      modifies this`clock, this`summary
      ensures var d := DialOn(addresses, limit, dials, 0, old(clock));
              && Opening() && clock == d.now && Planned() == AfterAttempts(old(Planned()), clock, AttemptsOf(d))
              && (c != null <==> d.Reached?) && (d.Ended? ==> ending == d.ending) && (!d.Ended? ==> ending.Connected?)
              && (c != null ==> c.grammar == grammar && c.View() == Opened(addresses, d.index, d.draw, limit, clock))
      ensures c != null ==> fresh(c)
    {
      c, ending := Connect(addresses, limit, dials);
    }

    /** Schedules every connection, in the order of the tokens. */
    method ScheduleEach()
      requires Opening()
      modifies this`deadlines, this`pacing
      ensures pacing == [] && deadlines == FirstDeadlines(Conns(), timeout)
    {
      ghost var conns := Conns();
      var t := 0;
      while t < |connections|
        invariant 0 <= t <= |connections| && Conns() == conns
        invariant pacing == [] && deadlines == FirstDeadlines(conns[..t], timeout)
      {
        FirstDeadlinesNext(conns, timeout, t);
        ScheduleTimers(connections[t], t);
        t := t + 1;
      }
      assert conns[..t] == conns;
    }

    method ScheduleAll()
      requires Opening()
      modifies this`active, this`deadlines, this`pacing
      ensures Distinct() && View() == old(Planned())
    {
      ScheduleEach();
      active := |connections|;
    }

    /** Opens a connection for one limit after the other, until one of them ends the worker. */
    method OpenSome(addresses: nat, limits: seq<Limit>, dials: seq<seq<Dialing>>) returns (ending: Ending, k: nat)
      requires Opening() && connections == []
      modifies this`clock, this`summary, this`connections, this`drawn, this`refused, this`slots, this`owned
      ensures Opening() && k <= |limits| && (ending.Connected? ==> k == |limits|)
      ensures (ending, Planned()) == OpeningsOn(old(Planned()), addresses, limits[..k], dials)
      ensures fresh(owned - old(owned))
    {
      ghost var plan := Planned();
      ending := Connected;
      k := 0;
      while k < |limits| && ending.Connected?
        invariant 0 <= k <= |limits| && Opening()
        invariant (ending, Planned()) == OpeningsOn(plan, addresses, limits[..k], dials)
        invariant fresh(owned - old(owned))
        decreases |limits| - k
      {
        OpeningsNext(plan, addresses, limits, dials, k);
        ending := OpenOne(addresses, limits[k], DialsAt(dials, k));
        k := k + 1;
      }
    }

    method OpenAll(addresses: nat, limits: seq<Limit>, dials: seq<seq<Dialing>>) returns (ending: Ending)
      requires Opening() && connections == []
      modifies this`clock, this`summary, this`connections, this`drawn, this`refused, this`slots, this`owned
      ensures Opening() && (ending, Planned()) == OpeningsOn(old(Planned()), addresses, limits, dials)
      ensures fresh(owned - old(owned))
    {
      ghost var plan := Planned();
      var k;
      ending, k := OpenSome(addresses, limits, dials);
      OpeningsStop(plan, addresses, limits, dials, k);
    }

    /** Opens a connection for every limit, then schedules them all. */
    method Open(addresses: nat, limits: seq<Limit>, dials: seq<seq<Dialing>>) returns (ending: Ending)
      requires Opening() && connections == []
      modifies this
      ensures Distinct() && ending == OpeningsOn(old(Planned()), addresses, limits, dials).0
      ensures forall i :: 0 <= i < |connections| ==> connections[i] in owned
      ensures var plan := OpeningsOn(old(Planned()), addresses, limits, dials).1;
              if ending.Connected? then View() == plan else summary == plan.shared.counters
      ensures fresh(owned - old(owned))
    {
      ending := OpenAll(addresses, limits, dials);
      if ending.Connected? { ScheduleAll(); }
    }

    // ----- the main loop -----

    method HandleEvents(events: seq<Event>) returns (r: Res<()>)
      requires Valid()
      modifies this`clock, this`deadlines, this`pacing, this`summary, this`active, this`drawn, this`finished, this`answers, this`handed, connections
      ensures Became(r, EventsOn(grammar, old(View()), events))
      ensures Distinct() && (r.Ok? ==> Valid())
    {
      ghost var target := EventsOn(grammar, View(), events);
      for i := 0 to |events|
        invariant Valid() && EventsOn(grammar, View(), events[i..]) == target
      {
        assert events[i..][0] == events[i] && events[i..][1..] == events[i + 1..];
        r := HandleEvent(events[i]);
        if r.Err? { return; }
      }
      return Ok(());
    }

    /** What a method with a flag did to the whole worker is what the rule says. */
    ghost predicate BecamePart(r: Res<bool>, after: Res<(W, bool)>)
      reads this, connections
    {
      match after
      case Err(f) => r == Err(f)
      case Ok((w, b)) => r == Ok(b) && View() == w
    }

    /** Fires every deadline that is due. Ok(false) when the script ends first. */
    method FireDeadlines(due: int, firings: seq<Firing>) returns (r: Res<bool>)
      requires Valid() && due <= clock
      modifies this`clock, this`deadlines, this`pacing, this`summary, this`active, connections
      ensures BecamePart(r, DeadlinesOn(old(View()), due, firings))
      ensures Distinct() && (r.Ok? ==> Valid())
      decreases |firings|
    {
      if deadlines == [] || due < deadlines[0].at { return Ok(true); }
      if firings == [] { return Ok(false); }
      var fired := FireDeadline(firings[0]);
      if fired.Err? { return Err(fired.failure); }
      r := FireDeadlines(due, firings[1..]);
    }

    /** Fires every pacing slot that is due. Ok(false) when the script ends first. */
    method FireSlots(due: int, firings: seq<Firing>) returns (r: Res<bool>)
      requires Valid() && due <= clock
      modifies this`clock, this`pacing, this`active, this`handed, connections
      ensures BecamePart(r, SlotsOn(old(View()), due, firings))
      ensures Distinct() && (r.Ok? ==> Valid())
      decreases |firings|
    {
      if pacing == [] || due < pacing[0].at { return Ok(true); }
      if firings == [] { return Ok(false); }
      var fired := FirePacing(firings[0]);
      if fired.Err? { return Err(fired.failure); }
      r := FireSlots(due, firings[1..]);
    }

    /** One turn of the main loop. Ok(false) when the script ends in the middle of it. */
    method RunRound(round: Round) returns (r: Res<bool>)
      requires Valid()
      modifies this`clock, this`deadlines, this`pacing, this`summary, this`active, this`drawn, this`finished, this`answers, this`handed, connections
      ensures BecamePart(r, RoundOn(grammar, old(View()), round))
      ensures Distinct() && (r.Ok? ==> Valid())
    {
      Sleep();
      var handled := HandleEvents(round.events);
      if handled.Err? { return Err(handled.failure); }
      r := FireTimers(round);
    }

    method FireTimers(round: Round) returns (r: Res<bool>)
      requires Valid()
      modifies this`clock, this`deadlines, this`pacing, this`summary, this`active, this`handed, connections
      ensures BecamePart(r, TimersOn(old(View()), round))
      ensures Distinct() && (r.Ok? ==> Valid())
    {
      Advance(round.expiryNow);
      r := FireDeadlines(clock, round.expiries);
      if r.Err? || !r.value { return; }
      Advance(round.slotNow);
      r := FireSlots(clock, round.slots);
    }

    method RunRounds(rounds: seq<Round>) returns (r: Result)
      requires Valid()
      modifies this`clock, this`deadlines, this`pacing, this`summary, this`active, this`drawn, this`finished, this`answers, this`handed, connections
      ensures match RoundsOn(grammar, old(View()), rounds)
              case Err(f) => r == Failed(f)
              case Ok((w, finished)) => r == (if finished then Finished else Unfinished) && View() == w
    {
      ghost var target := RoundsOn(grammar, View(), rounds);
      var i := 0;
      while 0 < active
        invariant 0 <= i <= |rounds| && Valid() && RoundsOn(grammar, View(), rounds[i..]) == target
        decreases |rounds| - i
      {
        if i == |rounds| { return Unfinished; }
        var turned := RunRound(rounds[i]);
        if turned.Err? { return Failed(turned.failure); }
        if !turned.value { return Unfinished; }
        assert rounds[i..][1..] == rounds[i + 1..];
        i := i + 1;
      }
      ActiveIsUnfinished(View());
      return Finished;
    }

    /** The whole worker: what it returns and reports is what the rules give for its script. */
    method Run(addresses: nat, limits: seq<Limit>, dials: seq<seq<Dialing>>, rounds: seq<Round>) returns (r: Result)
      requires Opening() && connections == [] && owned == {} && Planned() == EmptyWorker(timeout) && 0 < addresses && Servable(limits)
      modifies this
      ensures var (result, w) := RunOn(grammar, timeout, addresses, limits, dials, rounds);
              && r == result
              && (!r.Failed? ==> summary == w.shared.counters)
              && (r.Finished? ==> View() == w && RunReport(w, limits))
              && (r.Unfinished? ==> Progress(w.shared.counters, limits))
              && (r.Failed? ==> r.failure in ENDINGS)
    {
      RunOnReports(grammar, timeout, addresses, limits, dials, rounds);
      assert limits + [] == limits;
      OpeningsKeep(timeout, addresses, limits, dials, []);
      var ending := Open(addresses, limits, dials);
      if ending.LoadOver? { return DeadlinePassed; }
      if ending.Cut? { return Unfinished; }
      r := RunRounds(rounds);
    }
  }
}
