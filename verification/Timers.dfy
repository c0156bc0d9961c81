/** When timers fire, in terms of the clock and of what each connection waits for (src/engine/mod.rs, src/engine/connection.rs). */
module Timers {
  import opened Prelude
  import opened Decoder
  import opened Connections
  import opened WorkerSpec
  import opened WorkerSteps
  import opened WorkerRules

  /** A timer never fires early: its connection is due by then. */
  lemma DeadlineHeadIsDue(w: W)
    requires Inv(w) && w.shared.deadlines != [] && w.shared.deadlines[0].at <= w.shared.clock
    requires w.shared.deadlines[0].token < |w.conns| && !Stale(w.shared.deadlines[0], w.conns)
    ensures var c := w.conns[w.shared.deadlines[0].token];
            match Expire(c, w.shared.clock)
            case Ok((_, RequestTimeout)) => c.started.Some? && c.started.value + w.shared.timeout <= w.shared.clock
            case Ok((_, ConnectionTimeout)) => c.started.None? && c.connectedAt + w.shared.timeout <= w.shared.clock
            case Ok((_, Stopped)) => c.started.None? && c.limit.Deadline? && c.limit.at <= w.shared.clock
            case Err(_) => false
  {
    LiveEntryIsDue(w, w.shared.deadlines[0]);
    LiveIsUsable(w, w.shared.deadlines[0].token);
  }

  /** A slot never fires early either. */
  lemma SlotHeadIsDue(w: W)
    requires Inv(w) && w.shared.pacing != [] && w.shared.pacing[0].at <= w.shared.clock
    requires w.shared.pacing[0].token < |w.conns| && !Stale(w.shared.pacing[0], w.conns)
    ensures var c := w.conns[w.shared.pacing[0].token];
            && c.started.None? && c.request.notBefore.Some?
            && (c.request.notBefore.value <= w.shared.clock || c.limit.Passed(w.shared.clock))
  {
    LiveEntryIsDue(w, w.shared.pacing[0]);
    LiveIsUsable(w, w.shared.pacing[0].token);
  }

  /** No unfinished connection that waits for a deadline was due by then. */
  ghost predicate DeadlinesMet(w: W, due: int)
  {
    forall t :: 0 <= t < |w.conns| ==> DeadlineMet(w.conns[t], w.shared, t, due)
  }

  predicate DeadlineMet(c: Conn, s: Shared, token: nat, due: int)
  {
    && (!c.done && c.started.Some? ==> due < c.started.value + s.timeout)
    && (!c.done && c.started.None? && !c.awaitingPace && !HandedOver(c, s, token) ==>
          due < c.connectedAt + s.timeout && !c.limit.Passed(due))
  }

  predicate SlotMet(c: Conn, s: Shared, token: nat, due: int)
  {
    !c.done && c.awaitingPace && !HandedOver(c, s, token) ==>
      c.request.notBefore.Some? && due < c.request.notBefore.value && !c.limit.Passed(due)
  }

  ghost predicate SlotsMet(w: W, due: int)
  {
    forall t :: 0 <= t < |w.conns| ==> SlotMet(w.conns[t], w.shared, t, due)
  }

  lemma LaterThanHead(q: seq<Entry>, e: Entry)
    requires Sorted(q) && e in q
    ensures q[0].at <= e.at
  {
    var i :| 0 <= i < |q| && q[i] == e;
    if 0 < i { assert Before(q[0], q[i]); }
  }

  predicate Late(q: seq<Entry>, due: int) { q != [] ==> due < q[0].at }

  lemma LateDeadline(c: Conn, s: Shared, token: nat, due: int)
    requires Core(c, s, token) && Covered(c, s, token) && Late(s.deadlines, due)
    ensures DeadlineMet(c, s, token, due)
  {
    if !c.done && !HandedOver(c, s, token) && !c.awaitingPace {
      var e := Entry(NextDeadline(c, s.timeout).value, token, c.generation);
      MatchingSound(s.deadlines, token, c.generation, e);
      LaterThanHead(s.deadlines, e);
    }
  }

  lemma LateSlot(c: Conn, s: Shared, token: nat, due: int)
    requires Core(c, s, token) && Covered(c, s, token) && Late(s.pacing, due)
    ensures SlotMet(c, s, token, due)
  {
    if !c.done && !HandedOver(c, s, token) && c.awaitingPace {
      var e := Entry(PacingDeadline(c).value, token, c.generation);
      MatchingSound(s.pacing, token, c.generation, e);
      LaterThanHead(s.pacing, e);
    }
  }

  /** After the deadlines due by some instant have fired, no request still running has been running for too long. */
  lemma {:induction false} DeadlinesAreMet(w: W, due: int, firings: seq<Firing>)
    requires Inv(w) && due <= w.shared.clock
    requires DeadlinesOn(w, due, firings).Ok? && DeadlinesOn(w, due, firings).value.1
    ensures DeadlinesMet(DeadlinesOn(w, due, firings).value.0, due)
    decreases |firings|
  {
    if w.shared.deadlines == [] || due < w.shared.deadlines[0].at {
      forall t | 0 <= t < |w.conns| ensures DeadlineMet(w.conns[t], w.shared, t, due) {
        assert Core(w.conns[t], w.shared, t) && Covered(w.conns[t], w.shared, t);
        LateDeadline(w.conns[t], w.shared, t, due);
      }
    } else {
      DeadlinesAreMet(DeadlineOn(w, firings[0]).value, due, firings[1..]);
    }
  }

  /** And after the slots have fired, no connection waits for one that has come. */
  lemma {:induction false} SlotsAreMet(w: W, due: int, firings: seq<Firing>)
    requires Inv(w) && due <= w.shared.clock && SlotsOn(w, due, firings).Ok? && SlotsOn(w, due, firings).value.1
    ensures SlotsMet(SlotsOn(w, due, firings).value.0, due)
    decreases |firings|
  {
    if w.shared.pacing == [] || due < w.shared.pacing[0].at {
      forall t | 0 <= t < |w.conns| ensures SlotMet(w.conns[t], w.shared, t, due) {
        assert Core(w.conns[t], w.shared, t) && Covered(w.conns[t], w.shared, t);
        LateSlot(w.conns[t], w.shared, t, due);
      }
    } else {
      SlotsAreMet(SlotOn(w, firings[0]).value, due, firings[1..]);
    }
  }

  /** Slots firing leave no request running for too long either. */
  lemma SlotKeepsDeadlines(w: W, due: int, firing: Firing)
    requires Inv(w) && w.shared.pacing != [] && w.shared.pacing[0].at <= Max(w.shared.clock, firing.now)
    requires DeadlinesMet(w, due) && SlotOn(w, firing).Ok?
    ensures DeadlinesMet(SlotOn(w, firing).value, due)
  {
    var w1 := At(w, firing.now);
    var e := w1.shared.pacing[0];
    assert e in w1.shared.pacing;
    if !Stale(e, w1.conns) {
      var c := w1.conns[e.token];
      LiveIsUsable(w1, e.token);
      LiveEntryIsDue(w1, e);
      var r := SlotRule(c, PopPacing(w1.shared), e.token, firing.connects);
      SlotLeaves(c, PopPacing(w1.shared), e.token, firing.connects, due);
      var w' := SlotOn(w, firing).value;
      forall t | 0 <= t < |w'.conns| ensures DeadlineMet(w'.conns[t], w'.shared, t, due) {
        if t != e.token { assert DeadlineMet(w.conns[t], w.shared, t, due); }
      }
    } else {
      var w' := SlotOn(w, firing).value;
      forall t | 0 <= t < |w'.conns| ensures DeadlineMet(w'.conns[t], w'.shared, t, due) {
        assert DeadlineMet(w.conns[t], w.shared, t, due);
      }
    }
  }

  lemma SlotLeaves(c: Conn, s: Shared, token: nat, connects: seq<set<nat>>, due: int)
    requires c.started.None?
    ensures match SlotRule(c, s, token, connects)
            case Err(_) => true
            case Ok((c', s')) => DeadlineMet(c', s', token, due) && s'.timeout == s.timeout && s.handed <= s'.handed
  {
  }

  lemma {:induction false} SlotsKeepDeadlines(w: W, due: int, upTo: int, firings: seq<Firing>)
    requires Inv(w) && upTo <= w.shared.clock && DeadlinesMet(w, due) && SlotsOn(w, upTo, firings).Ok?
    ensures DeadlinesMet(SlotsOn(w, upTo, firings).value.0, due)
    decreases |firings|
  {
    if w.shared.pacing != [] && w.shared.pacing[0].at <= upTo && firings != [] {
      SlotKeepsDeadlines(w, due, firings[0]);
      SlotsKeepDeadlines(SlotOn(w, firings[0]).value, due, upTo, firings[1..]);
    }
  }

  /** After a whole turn of the loop nothing that was due by its timer phase is left waiting. */
  lemma RoundMeetsTimers(g: Grammar, w: W, round: Round)
    requires Inv(w) && RoundOn(g, w, round).Ok? && RoundOn(g, w, round).value.1
    ensures DeadlinesMet(RoundOn(g, w, round).value.0, round.expiryNow)
    ensures SlotsMet(RoundOn(g, w, round).value.0, round.slotNow)
  {
    var w0 := EventsOn(g, CleanSlots(CleanDeadlines(w)), round.events).value;
    TimersAreMet(w0, round);
  }

  lemma TimersAreMet(w: W, round: Round)
    requires Inv(w) && TimersOn(w, round).Ok? && TimersOn(w, round).value.1
    ensures DeadlinesMet(TimersOn(w, round).value.0, round.expiryNow)
    ensures SlotsMet(TimersOn(w, round).value.0, round.slotNow)
  {
    var w1 := At(w, round.expiryNow);
    DeadlinesAreMet(w1, w1.shared.clock, round.expiries);
    var w2 := DeadlinesOn(w1, w1.shared.clock, round.expiries).value.0;
    MetEarlier(w2, w1.shared.clock, round.expiryNow);
    var w3 := At(w2, round.slotNow);
    ClockKeepsMet(w2, w3, round.expiryNow);
    SlotsKeepDeadlines(w3, round.expiryNow, w3.shared.clock, round.slots);
    SlotsAreMet(w3, w3.shared.clock, round.slots);
    SlotsMetEarlier(SlotsOn(w3, w3.shared.clock, round.slots).value.0, w3.shared.clock, round.slotNow);
  }

  lemma MetEarlier(w: W, due: int, earlier: int)
    requires earlier <= due && DeadlinesMet(w, due)
    ensures DeadlinesMet(w, earlier)
  {
    forall t | 0 <= t < |w.conns| ensures DeadlineMet(w.conns[t], w.shared, t, earlier) {
      assert DeadlineMet(w.conns[t], w.shared, t, due);
    }
  }

  lemma SlotsMetEarlier(w: W, due: int, earlier: int)
    requires earlier <= due && SlotsMet(w, due)
    ensures SlotsMet(w, earlier)
  {
    forall t | 0 <= t < |w.conns| ensures SlotMet(w.conns[t], w.shared, t, earlier) {
      assert SlotMet(w.conns[t], w.shared, t, due);
    }
  }

  lemma ClockKeepsMet(w: W, w': W, due: int)
    requires DeadlinesMet(w, due) && w'.conns == w.conns && w'.shared == w.shared.(clock := w'.shared.clock)
    ensures DeadlinesMet(w', due)
  {
    forall t | 0 <= t < |w.conns| ensures DeadlineMet(w'.conns[t], w'.shared, t, due) {
      assert DeadlineMet(w.conns[t], w.shared, t, due);
    }
  }
}
