/** Workers taking turns, in any order, on one shared replay sequence (src/engine/mod.rs, src/request_sequence.rs). */
module Interleaving {
  import opened Prelude
  import opened Decoder
  import opened Connections
  import opened WorkerSpec
  import opened WorkerSteps
  import opened WorkerRules
  import opened WorkerRuns
  import opened Runs
  import opened Replay

  // ----- what a turn draws -----

  /** A rule draws nothing, or exactly one entry. */
  predicate DrawsAtMost(s: Shared, s': Shared, entry: nat)
  {
    s'.drawn == s.drawn || s'.drawn == s.drawn + multiset{entry}
  }

  lemma FailuresDrawNothing(c: Conn, s: Shared, token: nat, kind: ErrorKind, connects: seq<set<nat>>)
    requires 0 < c.addresses
    ensures var r := RecoverRule(c, s, token, kind, connects); r.Ok? ==> r.value.1.drawn == s.drawn
    ensures var r := RetryRule(c, s, token, connects); r.Ok? ==> r.value.1.drawn == s.drawn
    ensures var r := DeferOrRetryRule(c, s, token, connects); r.Ok? ==> r.value.1.drawn == s.drawn
  {
  }

  lemma WritingDrawsNothing(c: Conn, s: Shared, token: nat, ev: Event)
    requires 0 < c.addresses && c.writeOffset <= c.request.length
    ensures var r := WritableRule(c, s, token, ev); r.Ok? ==> r.value.1.drawn == s.drawn
  {
    FailuresDrawNothing(c, s, token, WriteError, ev.connects);
    FailuresDrawNothing(WriteRequest(c, s.clock, ev.writes).0, s, token, WriteError, ev.connects);
  }

  /** Only a finished response that goes on draws the event's entry. */
  lemma ReadingDrawsAtMost(g: Grammar, c: Conn, s: Shared, token: nat, ev: Event)
    requires 0 < c.addresses && Configured(c.decoder)
    ensures var r := ReadableRule(g, c, s, token, ev); r.Ok? ==> DrawsAtMost(s, r.value.1, ev.draw.entry)
  {
    var c1 := ReadResponse(g, c, ev.inputs).0;
    FailuresDrawNothing(c1.(pendingRead := 0), CountRead(s, c1.pendingRead, 0), token, ReadError, ev.connects);
  }

  lemma EventRuleDraws(g: Grammar, c: Conn, s: Shared, token: nat, ev: Event)
    requires Usable(c)
    ensures var r := EventRule(g, c, s, token, ev); r.Ok? ==> DrawsAtMost(s, r.value.1, ev.draw.entry)
  {
    if ev.error && ev.socketError {
      FailuresDrawNothing(c, s, token, if c.writeOffset == c.request.length then ReadError else WriteError, ev.connects);
    } else if ev.writable {
      WritingDrawsNothing(c, s, token, ev);
      var r := WritableRule(c, s, token, ev);
      if r.Ok? && r.value.2 && ev.readable { ReadingDrawsAtMost(g, r.value.0, r.value.1, token, ev); }
    } else if ev.readable {
      ReadingDrawsAtMost(g, c, s, token, ev);
    }
  }

  lemma EventDraws(g: Grammar, w: W, ev: Event)
    requires Inv(w)
    ensures var r := EventOn(g, w, ev); r.Ok? ==> DrawsAtMost(w.shared, r.value.shared, ev.draw.entry)
  {
    var w1 := At(w, ev.now);
    if ev.token < |w1.conns| && !w1.conns[ev.token].done {
      LiveIsUsable(w1, ev.token);
      EventRuleDraws(g, w1.conns[ev.token], w1.shared, ev.token, ev);
    }
  }

  lemma DeadlineDrawsNothing(w: W, firing: Firing)
    requires Inv(w) && w.shared.deadlines != [] && w.shared.deadlines[0].at <= Max(w.shared.clock, firing.now)
    ensures var r := DeadlineOn(w, firing); r.Ok? ==> r.value.shared.drawn == w.shared.drawn
  {
    var w1 := At(w, firing.now);
    var e := w1.shared.deadlines[0];
    assert e in w1.shared.deadlines;
    if !Stale(e, w1.conns) {
      LiveIsUsable(w1, e.token);
      FailuresDrawNothing(w1.conns[e.token], PopDeadline(w1.shared), e.token, TimeoutError, firing.connects);
    }
  }

  lemma SlotDrawsNothing(w: W, firing: Firing)
    requires Inv(w) && w.shared.pacing != [] && w.shared.pacing[0].at <= Max(w.shared.clock, firing.now)
    ensures var r := SlotOn(w, firing); r.Ok? ==> r.value.shared.drawn == w.shared.drawn
  {
  }

  // ----- one worker's turn -----

  /** A worker, and how many of its limits it has opened. */
  datatype Member = Member(limits: seq<Limit>, ready: nat, w: W)

  /** What a worker does atomically: open its next connection, handle one event, fire one timer, clean its queues, or wait. */
  datatype Action = Open(dials: seq<Dialing>) | Handle(ev: Event) | Expire(firing: Firing) | Resume(firing: Firing)
                  | Clean | Wait(now: int)

  ghost predicate Healthy(m: Member)
  {
    && m.ready <= |m.limits| && Servable(m.limits) && AllRequestLimits(m.limits)
    && Inv(m.w)
    && if m.ready < |m.limits| then OpenedFor(m.w, m.limits[..m.ready]) else Serves(m.w, m.limits)
  }

  lemma NextIsHealthy(addresses: nat, m: Member, d: Dialed)
    requires 0 < addresses && Healthy(m) && m.ready < |m.limits| && !d.Ended?
    requires var limit := m.limits[m.ready];
             && (d.Reached? ==> d.index < addresses && m.w.shared.clock <= d.now && (limit.Requests? ==> d.attempts <= 2))
             && (d.GivenUpAt? ==> m.w.shared.clock <= d.now && limit.Requests?)
    ensures Healthy(Member(m.limits, m.ready + 1, OpenWith(m.w, addresses, m.limits[m.ready], d).1))
  {
    var limit := m.limits[m.ready];
    assert limit in m.limits;
    OpenKeeps(m.w, addresses, m.limits[..m.ready], limit, d);
    assert m.limits[..m.ready] + [limit] == m.limits[..m.ready + 1];
    OpenedIsHealthy(m.limits, m.ready + 1, OpenWith(m.w, addresses, limit, d).1);
  }

  lemma OpenedIsHealthy(limits: seq<Limit>, ready: nat, w: W)
    requires ready <= |limits| && Servable(limits) && AllRequestLimits(limits) && OpenedFor(w, limits[..ready])
    ensures Healthy(Member(limits, ready, w))
  {
    if ready == |limits| { assert limits[..ready] == limits; }
  }

  /** Opening the next connection with the entry that the sequence serves. It waits when there is none to serve. */
  ghost function OpenNext(addresses: nat, m: Member, dials: seq<Dialing>, entry: Option<nat>): (r: (Member, bool))
    requires 0 < addresses && Healthy(m) && m.ready < |m.limits|
    ensures Healthy(r.0) && r.0.limits == m.limits && (r.1 ==> entry.Some?)
    ensures r.0.w.shared.drawn == m.w.shared.drawn + if r.1 then multiset{entry.value} else multiset{}
  {
    var limit := m.limits[m.ready];
    var d := DialOn(addresses, limit, dials, 0, m.w.shared.clock);
    if d.Ended? || (d.Reached? && entry.None?) then (m, false)
    else
      var served := if d.Reached? then d.(draw := d.draw.(entry := entry.value)) else d;
      NextIsHealthy(addresses, m, served);
      (Member(m.limits, m.ready + 1, OpenWith(m.w, addresses, limit, served).1), d.Reached?)
  }

  ghost predicate Due(q: seq<Entry>, clock: int, now: int)
  {
    q != [] && q[0].at <= Max(clock, now)
  }

  /** Handling an event with the entry that the sequence serves; the flag says whether it was drawn. */
  ghost function HandleNext(g: Grammar, m: Member, ev: Event, entry: Option<nat>): (r: Res<(Member, bool)>)
    requires Healthy(m) && m.ready == |m.limits|
    ensures r.Ok? ==> Healthy(r.value.0) && r.value.0.limits == m.limits && (r.value.1 ==> entry.Some?)
    ensures r.Ok? ==> r.value.0.w.shared.drawn ==
                      m.w.shared.drawn + if r.value.1 then multiset{entry.value} else multiset{}
  {
    var served := if entry.Some? then ev.(draw := ev.draw.(entry := entry.value)) else ev;
    match EventOn(g, m.w, served)
    case Err(f) => Err(f)
    case Ok(w) =>
      EventDraws(g, m.w, served);
      ServesStill(m.w, w, m.limits);
      if w.shared.drawn == m.w.shared.drawn then Ok((m.(w := w), false))
      else if entry.None? then Ok((m, false))
      else Ok((m.(w := w), true))
  }

  /** What is left: timers, cleaning and waiting draw nothing. */
  ghost function TimeNext(m: Member, a: Action): (r: Res<Member>)
    requires Healthy(m) && m.ready == |m.limits|
    ensures r.Ok? ==> Healthy(r.value) && r.value.limits == m.limits && r.value.w.shared.drawn == m.w.shared.drawn
  {
    match a
    case Expire(firing) =>
      if !Due(m.w.shared.deadlines, m.w.shared.clock, firing.now) then Ok(m)
      else (match DeadlineOn(m.w, firing)
        case Err(f) => Err(f)
        case Ok(w) =>
          DeadlineDrawsNothing(m.w, firing);
          ServesStill(m.w, w, m.limits);
          Ok(m.(w := w)))
    case Resume(firing) =>
      if !Due(m.w.shared.pacing, m.w.shared.clock, firing.now) then Ok(m)
      else (match SlotOn(m.w, firing)
        case Err(f) => Err(f)
        case Ok(w) =>
          SlotDrawsNothing(m.w, firing);
          ServesStill(m.w, w, m.limits);
          Ok(m.(w := w)))
    case Clean =>
      var w := CleanSlots(CleanDeadlines(m.w));
      ServesStill(m.w, w, m.limits);
      Ok(m.(w := w))
    case Wait(now) =>
      var w := At(m.w, now);
      ServesStill(m.w, w, m.limits);
      Ok(m.(w := w))
    case _ => Ok(m)
  }

  /** One action of one worker. What cannot happen yet changes nothing. */
  ghost function ActOn(g: Grammar, addresses: nat, m: Member, a: Action, entry: Option<nat>): (r: Res<(Member, bool)>)
    requires 0 < addresses && Healthy(m)
    ensures r.Ok? ==> Healthy(r.value.0) && r.value.0.limits == m.limits && (r.value.1 ==> entry.Some?)
    ensures r.Ok? ==> r.value.0.w.shared.drawn ==
                      m.w.shared.drawn + if r.value.1 then multiset{entry.value} else multiset{}
  {
    if m.ready < |m.limits| then
      if a.Open? then Ok(OpenNext(addresses, m, a.dials, entry)) else Ok((m, false))
    else if a.Handle? then HandleNext(g, m, a.ev, entry)
    else match TimeNext(m, a)
      case Err(f) => Err(f)
      case Ok(m') => Ok((m', false))
  }

  // ----- all workers -----

  /** The workers, the shared sequence, everything it has served, and to whom. */
  datatype System = System(members: seq<Member>, order: Order, output: seq<nat>, owner: seq<nat>)

  datatype Turn = Turn(worker: nat, action: Action)

  /** The entries that one worker drew: those at the positions it owns in the shared output. */
  function Share(output: seq<nat>, owner: seq<nat>, w: nat): multiset<nat>
    requires |owner| == |output|
  {
    if output == [] then multiset{}
    else
      var k := |output| - 1;
      Share(output[..k], owner[..k], w) + (if owner[k] == w then multiset{output[k]} else multiset{})
  }

  /** Every worker drew exactly its share. */
  predicate InShares(members: seq<Member>, output: seq<nat>, owner: seq<nat>)
  {
    && |owner| == |output| && (forall i :: 0 <= i < |owner| ==> owner[i] < |members|)
    && forall i :: 0 <= i < |members| ==> members[i].w.shared.drawn == Share(output, owner, i)
  }

  ghost predicate AllHealthy(members: seq<Member>)
  {
    forall i :: 0 <= i < |members| ==> Healthy(members[i])
  }

  /** The workers share what the sequence has served. */
  ghost predicate Sharing(sys: System, start: Order, n: nat)
    requires WellFormed(start, n)
  {
    && AllHealthy(sys.members) && InShares(sys.members, sys.output, sys.owner)
    && Draws(start, n, |sys.output|) == Some((sys.output, sys.order))
  }

  lemma HealthyUpdate(members: seq<Member>, w: nat, m: Member)
    requires AllHealthy(members) && w < |members| && Healthy(m)
    ensures AllHealthy(members[w := m])
  {
  }

  /** One turn: the worker acts, and the sequence moves on exactly when it drew. */
  ghost function TurnOn(g: Grammar, addresses: nat, n: nat, sys: System, turn: Turn): (r: Res<System>)
    requires 0 < addresses && WellFormed(sys.order, n) && AllHealthy(sys.members)
    ensures r.Ok? ==> WellFormed(r.value.order, n) && AllHealthy(r.value.members) && |r.value.members| == |sys.members|
    ensures r.Ok? ==> forall i :: 0 <= i < |sys.members| ==> r.value.members[i].limits == sys.members[i].limits
  {
    if |sys.members| <= turn.worker then Ok(sys)
    else
      var next := NextOf(sys.order, n);
      match ActOn(g, addresses, sys.members[turn.worker], turn.action, if next.Some? then Some(next.value.0) else None)
      case Err(f) => Err(f)
      case Ok((m, drew)) =>
        var members := sys.members[turn.worker := m];
        HealthyUpdate(sys.members, turn.worker, m);
        if drew then Ok(System(members, next.value.1, sys.output + [next.value.0], sys.owner + [turn.worker]))
        else Ok(sys.(members := members))
  }

  ghost function TurnsOn(g: Grammar, addresses: nat, n: nat, sys: System, turns: seq<Turn>): (r: Res<System>)
    requires 0 < addresses && WellFormed(sys.order, n) && AllHealthy(sys.members)
    ensures r.Ok? ==> WellFormed(r.value.order, n) && AllHealthy(r.value.members) && |r.value.members| == |sys.members|
    ensures r.Ok? ==> forall i :: 0 <= i < |sys.members| ==> r.value.members[i].limits == sys.members[i].limits
  {
    if turns == [] then Ok(sys)
    else match TurnsOn(g, addresses, n, sys, turns[..|turns| - 1])
      case Err(f) => Err(f)
      case Ok(sys1) => TurnOn(g, addresses, n, sys1, turns[|turns| - 1])
  }

  lemma ShareNext(output: seq<nat>, owner: seq<nat>, x: nat, o: nat, w: nat)
    requires |owner| == |output|
    ensures Share(output + [x], owner + [o], w) == Share(output, owner, w) + if o == w then multiset{x} else multiset{}
  {
    assert (output + [x])[..|output|] == output && (owner + [o])[..|owner|] == owner;
  }

  lemma SharesNext(members: seq<Member>, output: seq<nat>, owner: seq<nat>, w: nat, m: Member, x: nat)
    requires InShares(members, output, owner) && w < |members|
    requires m.w.shared.drawn == members[w].w.shared.drawn + multiset{x}
    ensures InShares(members[w := m], output + [x], owner + [w])
  {
    forall i | 0 <= i < |members|
      ensures members[w := m][i].w.shared.drawn == Share(output + [x], owner + [w], i)
    {
      ShareNext(output, owner, x, w, i);
    }
  }

  lemma SharesSame(members: seq<Member>, output: seq<nat>, owner: seq<nat>, w: nat, m: Member)
    requires InShares(members, output, owner) && w < |members| && m.w.shared.drawn == members[w].w.shared.drawn
    ensures InShares(members[w := m], output, owner)
  {
  }

  lemma DrawsNext(start: Order, n: nat, output: seq<nat>, order: Order)
    requires WellFormed(start, n) && Draws(start, n, |output|) == Some((output, order)) && NextOf(order, n).Some?
    ensures var (x, order') := NextOf(order, n).value;
            Draws(start, n, |output + [x]|) == Some((output + [x], order'))
  {
  }

  /** Whoever takes a turn, every worker's draws stay its share of the sequence. */
  lemma TurnKeepsSharing(g: Grammar, addresses: nat, n: nat, sys: System, start: Order, turn: Turn)
    requires 0 < addresses && WellFormed(start, n) && Sharing(sys, start, n)
    ensures var r := TurnOn(g, addresses, n, sys, turn); r.Ok? ==> Sharing(r.value, start, n)
  {
    var next := NextOf(sys.order, n);
    if turn.worker < |sys.members| {
      var entry := if next.Some? then Some(next.value.0) else None;
      var r := ActOn(g, addresses, sys.members[turn.worker], turn.action, entry);
      if r.Ok? && r.value.1 {
        DrawsNext(start, n, sys.output, sys.order);
        SharesNext(sys.members, sys.output, sys.owner, turn.worker, r.value.0, entry.value);
      } else if r.Ok? {
        SharesSame(sys.members, sys.output, sys.owner, turn.worker, r.value.0);
      }
    }
  }

  lemma {:induction false} TurnsKeepSharing(g: Grammar, addresses: nat, n: nat, sys: System, start: Order, turns: seq<Turn>)
    requires 0 < addresses && WellFormed(start, n) && Sharing(sys, start, n)
    ensures var r := TurnsOn(g, addresses, n, sys, turns); r.Ok? ==> Sharing(r.value, start, n)
  {
    if turns != [] {
      TurnsKeepSharing(g, addresses, n, sys, start, turns[..|turns| - 1]);
      var r := TurnsOn(g, addresses, n, sys, turns[..|turns| - 1]);
      if r.Ok? { TurnKeepsSharing(g, addresses, n, r.value, start, turns[|turns| - 1]); }
    }
  }

  /** The workers before anything has happened. */
  function Beginning(parts: seq<seq<Limit>>, timeout: nat, start: Order): System
  {
    System(seq(|parts|, i requires 0 <= i < |parts| => Member(parts[i], 0, EmptyWorker(timeout))), start, [], [])
  }

  lemma BeginningIsSharing(parts: seq<seq<Limit>>, timeout: nat, start: Order, n: nat)
    requires WellFormed(start, n)
    requires forall w :: 0 <= w < |parts| ==> Servable(parts[w]) && AllRequestLimits(parts[w])
    ensures Sharing(Beginning(parts, timeout, start), start, n)
  {
    EmptyIsOpened(timeout);
  }

  // ----- the end of a run -----

  predicate AllFinished(sys: System)
  {
    forall i :: 0 <= i < |sys.members| ==> sys.members[i].ready == |sys.members[i].limits| && sys.members[i].w.shared.active == 0
  }

  function Finals(sys: System): (ws: seq<W>)
    ensures |ws| == |sys.members| && forall i :: 0 <= i < |ws| ==> ws[i] == sys.members[i].w
  {
    seq(|sys.members|, i requires 0 <= i < |sys.members| => sys.members[i].w)
  }

  function CountIn(x: nat): multiset<nat> -> int
  {
    (m: multiset<nat>) => m[x]
  }

  function SizeOf(m: multiset<nat>): int { |m| }

  function FinishedOf(x: nat): W -> int
  {
    (w: W) => w.shared.finished[x]
  }

  lemma {:induction false} NoShares(drawn: seq<multiset<nat>>, x: nat)
    requires forall w :: 0 <= w < |drawn| ==> drawn[w] == multiset{}
    ensures Sum(drawn, CountIn(x)) == 0 && Sum(drawn, SizeOf) == 0
  {
    if drawn != [] {
      NoShares(drawn[1..], x);
    }
  }

  /** The workers' shares make up the whole output, whichever worker drew which position. */
  lemma {:induction false} SharesAddUp(output: seq<nat>, owner: seq<nat>, drawn: seq<multiset<nat>>, x: nat)
    requires |owner| == |output| && forall i :: 0 <= i < |owner| ==> owner[i] < |drawn|
    requires forall w :: 0 <= w < |drawn| ==> drawn[w] == Share(output, owner, w)
    ensures Sum(drawn, CountIn(x)) == multiset(output)[x]
    ensures Sum(drawn, SizeOf) == |output|
  {
    if output == [] {
      NoShares(drawn, x);
    } else {
      var k := |output| - 1;
      var before := Shares(output[..k], owner[..k], |drawn|);
      SharesAddUp(output[..k], owner[..k], before, x);
      var o := owner[k];
      forall w | 0 <= w < |drawn| ensures drawn[w] == before[w] + (if o == w then multiset{output[k]} else multiset{}) {
        ShareLast(output, owner, w);
      }
      LastShare(drawn, before, o, output[k]);
      SumUpdate(before, o, before[o] + multiset{output[k]}, CountIn(x));
      SumUpdate(before, o, before[o] + multiset{output[k]}, SizeOf);
      assert output == output[..k] + [output[k]];
    }
  }

  function Shares(output: seq<nat>, owner: seq<nat>, workers: nat): (shares: seq<multiset<nat>>)
    requires |owner| == |output|
    ensures |shares| == workers && forall w :: 0 <= w < workers ==> shares[w] == Share(output, owner, w)
  {
    seq(workers, w requires 0 <= w => Share(output, owner, w))
  }

  lemma ShareLast(output: seq<nat>, owner: seq<nat>, w: nat)
    requires |owner| == |output| && output != []
    ensures var k := |output| - 1;
            Share(output, owner, w) ==
            Share(output[..k], owner[..k], w) + if owner[k] == w then multiset{output[k]} else multiset{}
  {
  }

  /** The last entry goes to its owner. */
  lemma LastShare(drawn: seq<multiset<nat>>, before: seq<multiset<nat>>, o: nat, x: nat)
    requires |before| == |drawn| && o < |drawn|
    requires forall w :: 0 <= w < |drawn| ==> drawn[w] == before[w] + (if o == w then multiset{x} else multiset{})
    ensures drawn == before[o := before[o] + multiset{x}]
  {
    var after := before[o := before[o] + multiset{x}];
    forall w | 0 <= w < |drawn|
      ensures drawn[w] == after[w]
    {
      if w != o {
        assert before[w] + multiset{} == before[w];
      }
    }
  }

  lemma {:induction false} NothingAbandoned(ws: seq<W>)
    requires MergeAll(ws).abandoned == 0
    ensures forall i :: 0 <= i < |ws| ==> ws[i].shared.counters.abandoned == 0
  {
    if ws != [] {
      NothingAbandoned(ws[..|ws| - 1]);
    }
  }

  /** A worker that abandoned nothing finished what it drew, one entry for each of its requests. */
  predicate Clear(w: W, part: seq<Limit>)
  {
    w.shared.finished == w.shared.drawn && |w.shared.drawn| == w.shared.counters.completed == PartTotal(part)
  }

  lemma ReportIsClear(w: W, part: seq<Limit>)
    requires RunReport(w, part) && AllRequestLimits(part) && w.shared.counters.abandoned == 0
    ensures Clear(w, part)
  {
  }

  lemma {:induction false} FinishedIsDrawn(ws: seq<W>, parts: seq<seq<Limit>>, drawn: seq<multiset<nat>>, x: nat)
    requires |ws| == |parts| == |drawn| && forall i :: 0 <= i < |ws| ==> Clear(ws[i], parts[i]) && drawn[i] == ws[i].shared.drawn
    ensures Sum(ws, FinishedOf(x)) == Sum(drawn, CountIn(x))
    ensures MergeAll(ws).completed == Sum(parts, PartTotal) == Sum(drawn, SizeOf)
  {
    if ws != [] {
      var k := |ws| - 1;
      FinishedIsDrawn(ws[..k], parts[..k], drawn[..k], x);
      assert ws == ws[..k] + [ws[k]] && parts == parts[..k] + [parts[k]] && drawn == drawn[..k] + [drawn[k]];
      SumAppend(ws[..k], ws[k], FinishedOf(x));
      SumAppend(drawn[..k], drawn[k], CountIn(x));
      SumAppend(drawn[..k], drawn[k], SizeOf);
      SumAppend(parts[..k], parts[k], PartTotal);
    }
  }

  /** The system at the end: every worker reports. */
  lemma EndOfSharing(sys: System, start: Order, n: nat, parts: seq<seq<Limit>>)
    requires WellFormed(start, n) && Sharing(sys, start, n) && AllFinished(sys) && |parts| == |sys.members|
    requires forall i :: 0 <= i < |parts| ==> sys.members[i].limits == parts[i]
    ensures forall i :: 0 <= i < |parts| ==> RunReport(Finals(sys)[i], parts[i]) && AllRequestLimits(parts[i])
  {
    forall i | 0 <= i < |parts| ensures RunReport(Finals(sys)[i], parts[i]) && AllRequestLimits(parts[i]) {
      assert Healthy(sys.members[i]);
      EndOfRun(sys.members[i].w, parts[i]);
    }
  }

  lemma AllClear(sys: System, start: Order, n: nat, parts: seq<seq<Limit>>)
    requires WellFormed(start, n) && Sharing(sys, start, n) && AllFinished(sys) && |parts| == |sys.members|
    requires forall i :: 0 <= i < |parts| ==> sys.members[i].limits == parts[i]
    requires MergeAll(Finals(sys)).abandoned == 0
    ensures forall i :: 0 <= i < |parts| ==> Clear(Finals(sys)[i], parts[i])
  {
    var ws := Finals(sys);
    EndOfSharing(sys, start, n, parts);
    NothingAbandoned(ws);
    forall i | 0 <= i < |parts| ensures Clear(ws[i], parts[i]) { ReportIsClear(ws[i], parts[i]); }
  }

  /** With nothing abandoned, the workers together finished exactly what the sequence served. */
  lemma ServedIsFinished(sys: System, parts: seq<seq<Limit>>, x: nat)
    requires InShares(sys.members, sys.output, sys.owner) && |parts| == |sys.members|
    requires forall i :: 0 <= i < |parts| ==> Clear(Finals(sys)[i], parts[i])
    ensures |sys.output| == MergeAll(Finals(sys)).completed == Sum(parts, PartTotal)
    ensures Sum(Finals(sys), FinishedOf(x)) == multiset(sys.output)[x]
  {
    var ws := Finals(sys);
    var drawn := seq(|ws|, i requires 0 <= i < |ws| => ws[i].shared.drawn);
    SharesAddUp(sys.output, sys.owner, drawn, x);
    FinishedIsDrawn(ws, parts, drawn, x);
  }

  /** How a run's requests are dealt to its workers. */
  function PartsOf(connections: nat, threads: nat, requests: nat): seq<seq<Limit>>
    requires 0 < connections && 0 < threads && 0 < requests
  {
    Deal(ConnectionLimits(connections, requests), Min(threads, Min(connections, requests)))
  }

  lemma PartsAreSound(connections: nat, threads: nat, requests: nat)
    requires 0 < connections && 0 < threads && 0 < requests
    ensures var parts := PartsOf(connections, threads, requests);
            && Sum(parts, PartTotal) == requests && Sum(parts, PartSize) == Min(connections, requests)
            && forall w :: 0 <= w < |parts| ==> Servable(parts[w]) && AllRequestLimits(parts[w])
  {
    LimitsSplitEvenly(connections, requests);
    var limits := ConnectionLimits(connections, requests);
    DealKeepsAll(limits, Min(threads, |limits|));
    PartsAreServable(PartsOf(connections, threads, requests), limits);
  }

  /** A run that ended: its workers, taking turns in some order, all finished. */
  ghost predicate Ran(g: Grammar, timeout: nat, addresses: nat, connections: nat, threads: nat, requests: nat,
                      start: Order, n: nat, turns: seq<Turn>, sys: System)
    requires 0 < addresses && 0 < connections && 0 < threads && 0 < requests && WellFormed(start, n)
  {
    var parts := PartsOf(connections, threads, requests);
    PartsAreSound(connections, threads, requests);
    BeginningIsSharing(parts, timeout, start, n);
    TurnsOn(g, addresses, n, Beginning(parts, timeout, start), turns) == Ok(sys) && AllFinished(sys)
  }

  lemma RanIsSharing(g: Grammar, timeout: nat, addresses: nat, connections: nat, threads: nat, requests: nat,
                     start: Order, n: nat, turns: seq<Turn>, sys: System)
    requires 0 < addresses && 0 < connections && 0 < threads && 0 < requests && WellFormed(start, n)
    requires Ran(g, timeout, addresses, connections, threads, requests, start, n, turns, sys)
    ensures var parts := PartsOf(connections, threads, requests);
            && Sharing(sys, start, n) && |sys.members| == |parts|
            && forall i :: 0 <= i < |parts| ==> sys.members[i].limits == parts[i]
  {
    var parts := PartsOf(connections, threads, requests);
    PartsAreSound(connections, threads, requests);
    BeginningIsSharing(parts, timeout, start, n);
    TurnsKeepSharing(g, addresses, n, Beginning(parts, timeout, start), start, turns);
  }

  /** Conservation under every interleaving: completed plus abandoned is exactly the requested count. */
  lemma InterleavedConservation(g: Grammar, timeout: nat, addresses: nat, connections: nat, threads: nat, requests: nat,
                                start: Order, n: nat, turns: seq<Turn>, sys: System)
    requires 0 < addresses && 0 < connections && 0 < threads && 0 < requests && WellFormed(start, n)
    requires Ran(g, timeout, addresses, connections, threads, requests, start, n, turns, sys)
    ensures Conserved(MergeAll(Finals(sys)), requests, Min(connections, requests), Sum(Finals(sys), LostOf))
  {
    var parts := PartsOf(connections, threads, requests);
    RanIsSharing(g, timeout, addresses, connections, threads, requests, start, n, turns, sys);
    PartsAreSound(connections, threads, requests);
    EndOfSharing(sys, start, n, parts);
    forall i | 0 <= i < |parts| ensures ReportedFor(Finals(sys)[i], parts[i]) {
      ReportIsConserved(Finals(sys)[i], parts[i]);
    }
    ReportsAddUp(Finals(sys), parts);
  }

  /**
   * Replay-round exactness: with `times` rounds of `n` entries requested, in sequential or shuffled order, and nothing
   * abandoned in the merged summary, every entry is completed exactly `times` times, in any interleaving of the workers.
   */
  lemma ReplayRoundsExact(g: Grammar, timeout: nat, addresses: nat, connections: nat, threads: nat, shuffle: bool, n: nat,
                          words: seq<nat>, times: nat, turns: seq<Turn>, sys: System, x: nat)
    requires 0 < addresses && 0 < connections && 0 < threads && 0 < times && x < n < TWO64 && 0 < times * n
    requires Begun(shuffle, n, words).Some?
    requires Ran(g, timeout, addresses, connections, threads, times * n, Begun(shuffle, n, words).value, n, turns, sys)
    requires MergeAll(Finals(sys)).abandoned == 0
    ensures Sum(Finals(sys), FinishedOf(x)) == times
    ensures MergeAll(Finals(sys)).completed == times * n
  {
    var start := Begun(shuffle, n, words).value;
    var parts := PartsOf(connections, threads, times * n);
    RanIsSharing(g, timeout, addresses, connections, threads, times * n, start, n, turns, sys);
    PartsAreSound(connections, threads, times * n);
    AllClear(sys, start, n, parts);
    ServedIsFinished(sys, parts, x);
    DrawsAreExact(shuffle, n, words, times, x);
  }
}
