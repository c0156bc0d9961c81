/** Why a request-limited connection cannot fail for ever: every handled failure brings it closer to its end (src/engine/mod.rs). */
module WorkerProgress {
  import opened Prelude
  import opened Decoder
  import opened Connections
  import opened WorkerSpec
  import opened WorkerSteps
  import opened WorkerRules

  // ----- the measure -----

  function AttemptsLeft(c: Conn): int { FIXED_REQUEST_RECOVERY_ATTEMPTS - c.recoveryAttempts }

  /** A request can be deferred to its slot at most once. */
  function DeferralsLeft(c: Conn, now: int): int { 1 - DeferSpent(c, now) }

  /** Fewer requests to come; or as many, and fewer attempts left for the current one; or as many, and no deferral left. */
  predicate Closer(c: Conn, c': Conn, now: int)
  {
    var more, more' := LimitOf(c) - c.completed, LimitOf(c') - c'.completed;
    || more' < more
    || (more' == more && AttemptsLeft(c') < AttemptsLeft(c))
    || (more' == more && AttemptsLeft(c') == AttemptsLeft(c) && DeferralsLeft(c', now) < DeferralsLeft(c, now))
  }

  predicate NoFurther(c: Conn, c': Conn, now: int)
  {
    || Closer(c, c', now)
    || (LimitOf(c') - c'.completed == LimitOf(c) - c.completed && AttemptsLeft(c') == AttemptsLeft(c)
        && DeferralsLeft(c', now) == DeferralsLeft(c, now))
  }

  /** The measure is a triple of natural numbers, so there is no endless descent. */
  lemma MeasureIsNatural(c: Conn, s: Shared, token: nat)
    requires Core(c, s, token) && c.limit.Requests?
    ensures 0 <= LimitOf(c) - c.completed && 0 <= AttemptsLeft(c) <= 3 && 0 <= DeferralsLeft(c, s.clock) <= 1
  {
  }

  /** A failure is counted, and ends the connection or brings it closer to its end. */
  ghost predicate Paid(c: Conn, s: Shared, r: After)
  {
    match r
    case Err(_) => false
    case Ok((c', s')) => Errors(s'.counters) == Errors(s.counters) + 1 && (c'.done || Closer(c, c', s.clock))
  }

  /** A failure is paid for, and nothing else moves the connection away from its end. */
  ghost predicate Advances(c: Conn, s: Shared, c': Conn, s': Shared)
  {
    || (Errors(s'.counters) == Errors(s.counters) && (c'.done || NoFurther(c, c', s.clock)))
    || (Errors(s'.counters) == Errors(s.counters) + 1 && (c'.done || Closer(c, c', s.clock)))
  }

  // ----- every rule -----

  lemma RecoveryIsPaid(c: Conn, s: Shared, token: nat, kind: ErrorKind, connects: seq<set<nat>>)
    requires Core(c, s, token) && !c.done && !c.reconnectAtPace && c.started.Some? && c.limit.Requests?
    ensures Paid(c, s, RecoverRule(c, s, token, kind, connects))
  {
  }

  lemma RetryIsPaid(c: Conn, s: Shared, token: nat, connects: seq<set<nat>>)
    requires Core(c, s, token) && !c.done && !c.reconnectAtPace && c.limit.Requests?
    ensures Paid(c, s, RetryRule(c, s, token, connects))
  {
  }

  lemma DeferralIsPaid(c: Conn, s: Shared, token: nat, connects: seq<set<nat>>)
    requires Core(c, s, token) && !c.done && !c.reconnectAtPace && c.limit.Requests?
    ensures Paid(c, s, DeferOrRetryRule(c, s, token, connects))
  {
    RetryIsPaid(c, s, token, connects);
  }

  lemma WritingAdvances(c: Conn, s: Shared, token: nat, ev: Event)
    requires Core(c, s, token) && !c.done && !c.reconnectAtPace && c.limit.Requests?
    ensures match WritableRule(c, s, token, ev)
            case Err(_) => false
            case Ok((c', s', goOn)) => Advances(c, s, c', s') && (goOn ==> s'.counters == s.counters && s'.clock == s.clock && NoFurther(c, c', s.clock))
  {
    if ev.pendingError { DeferralIsPaid(c, s, token, ev.connects); } else { WriteAdvances(c, s, token, ev); }
  }

  lemma WriteAdvances(c: Conn, s: Shared, token: nat, ev: Event)
    requires Core(c, s, token) && !c.done && !c.reconnectAtPace && c.limit.Requests?
    ensures match WriteRule(c, s, token, ev)
            case Err(_) => false
            case Ok((c', s', goOn)) => Advances(c, s, c', s') && (goOn ==> s'.counters == s.counters && s'.clock == s.clock && NoFurther(c, c', s.clock))
  {
    WriteKeepsCore(c, s, token, ev.writes);
    var (c1, ok) := WriteRequest(c, s.clock, ev.writes);
    if !ok {
      RecoveryIsPaid(c1, s, token, WriteError, ev.connects);
      StartedIsNoFurther(c, c1, s.clock);
    }
  }

  /** A write that fails has started its request, which leaves no deferral. */
  lemma StartedIsNoFurther(c: Conn, c1: Conn, now: int)
    requires c1.completed == c.completed && c1.limit == c.limit && c1.recoveryAttempts == c.recoveryAttempts && c1.started.Some?
    ensures NoFurther(c, c1, now) && DeferralsLeft(c1, now) == 0
  {
  }

  lemma FinishingAdvances(c: Conn, s: Shared, token: nat, status: nat, close: bool, ev: Event)
    requires c.limit.Requests?
    ensures var r := FinishRule(c, s, token, status, close, ev); r.Ok? ==> Advances(c, s, r.value.0, r.value.1)
  {
  }

  lemma UnansweredAdvances(c: Conn, s: Shared, token: nat, response: ReadResult, ev: Event)
    requires Core(c, s, token) && !c.done && !c.reconnectAtPace && c.limit.Requests?
    ensures var r := UnansweredRule(c, s, token, response, ev); r.Ok? ==> Advances(c, s, r.value.0, r.value.1)
  {
    DeferralIsPaid(c, s, token, ev.connects);
    if c.started.Some? { RecoveryIsPaid(c, s, token, ReadError, ev.connects); }
  }

  /** A step that counts no failure and leaves the measure where it was may come first. */
  lemma AdvancesAfter(c: Conn, s: Shared, c1: Conn, s1: Shared, c2: Conn, s2: Shared)
    requires Errors(s1.counters) == Errors(s.counters) && s1.clock == s.clock && NoFurther(c, c1, s.clock)
    requires Advances(c1, s1, c2, s2)
    ensures Advances(c, s, c2, s2)
  {
  }

  lemma ReadingAdvances(g: Grammar, c: Conn, s: Shared, token: nat, ev: Event)
    requires Core(c, s, token) && !c.done && !c.reconnectAtPace && c.limit.Requests?
    ensures var r := ReadableRule(g, c, s, token, ev); r.Ok? ==> Advances(c, s, r.value.0, r.value.1)
  {
    var (c1, response) := ReadResponse(g, c, ev.inputs);
    var r := ReadableRule(g, c, s, token, ev);
    if response.Completed? {
      var s1 := CountRead(s, c1.pendingRead, response.bodyLength);
      FinishingAdvances(c1.(pendingRead := 0), s1, token, response.status, response.close, ev);
      if r.Ok? { AdvancesAfter(c, s, c1.(pendingRead := 0), s1, r.value.0, r.value.1); }
    } else if !response.Malformed? {
      var s1 := CountRead(s, c1.pendingRead, 0);
      ReadIsStep(g, c, s, token, ev.inputs);
      UnansweredAdvances(c1.(pendingRead := 0), s1, token, response, ev);
      if r.Ok? { AdvancesAfter(c, s, c1.(pendingRead := 0), s1, r.value.0, r.value.1); }
    }
  }

  lemma ErrorIsPaid(c: Conn, s: Shared, token: nat, ev: Event)
    requires Core(c, s, token) && !c.done && !c.reconnectAtPace && c.limit.Requests?
    ensures Paid(c, s, ErrorRule(c, s, token, ev))
  {
    if c.started.Some? {
      RecoveryIsPaid(c, s, token, if c.writeOffset == c.request.length then ReadError else WriteError, ev.connects);
    } else {
      DeferralIsPaid(c, s, token, ev.connects);
    }
  }

  lemma WritingThenReadingAdvances(g: Grammar, c: Conn, s: Shared, token: nat, ev: Event)
    requires Core(c, s, token) && Covered(c, s, token) && !c.done && !c.reconnectAtPace && c.limit.Requests?
    requires var r := WritableRule(c, s, token, ev); r.Ok? && r.value.2
    ensures var (c1, s1, _) := WritableRule(c, s, token, ev).value;
            var r := ReadableRule(g, c1, s1, token, ev);
            r.Ok? ==> Advances(c, s, r.value.0, r.value.1)
  {
    WritingAdvances(c, s, token, ev);
    WritableRuleIsStep(c, s, token, ev);
    var (c1, s1, _) := WritableRule(c, s, token, ev).value;
    ReadingAdvances(g, c1, s1, token, ev);
    var r := ReadableRule(g, c1, s1, token, ev);
    if r.Ok? { AdvancesAfter(c, s, c1, s1, r.value.0, r.value.1); }
  }

  /** Every event of a request-limited connection: at most one failure, and that one is paid for. */
  lemma EventAdvances(g: Grammar, c: Conn, s: Shared, token: nat, ev: Event)
    requires Core(c, s, token) && Covered(c, s, token) && !c.done && !c.reconnectAtPace && c.limit.Requests?
    ensures var r := EventRule(g, c, s, token, ev); r.Ok? ==> Advances(c, s, r.value.0, r.value.1)
  {
    if ev.error && ev.socketError {
      ErrorIsPaid(c, s, token, ev);
    } else if ev.writable {
      WritingAdvances(c, s, token, ev);
      var r := WritableRule(c, s, token, ev);
      if r.Ok? && r.value.2 && ev.readable { WritingThenReadingAdvances(g, c, s, token, ev); }
    } else if ev.readable {
      ReadingAdvances(g, c, s, token, ev);
    }
  }

  /** Every live due deadline of a request-limited connection is a failure that is paid for. */
  lemma ExpiryIsPaid(c: Conn, s: Shared, token: nat, connects: seq<set<nat>>)
    requires Core(c, s, token) && Covered(c, s, token) && !c.done && c.limit.Requests?
    requires s.deadlines != [] && IsFor(s.deadlines[0], token, c.generation) && s.deadlines[0].at <= s.clock
    ensures Paid(c, PopDeadline(s), ExpiryRule(c, PopDeadline(s), token, connects))
  {
    DeadlineFires(c, s, token);
    RetryIsPaid(c, PopDeadline(s), token, connects);
    if c.started.Some? { RecoveryIsPaid(c, PopDeadline(s), token, TimeoutError, connects); }
  }

  /** A live due slot of a request-limited connection counts no failure. */
  lemma SlotAdvances(c: Conn, s: Shared, token: nat, connects: seq<set<nat>>)
    requires Core(c, s, token) && Covered(c, s, token) && !c.done && c.limit.Requests?
    requires s.pacing != [] && IsFor(s.pacing[0], token, c.generation) && s.pacing[0].at <= s.clock
    ensures var r := SlotRule(c, PopPacing(s), token, connects); r.Ok? ==> Advances(c, s, r.value.0, r.value.1)
  {
    MatchingIn(s.pacing, s.pacing[0]);
  }

  // ----- over whole runs -----

  /** The measure as one number: at most eight for each request to come and eight for an unfinished connection. */
  function RankOf(now: int): Conn -> int
  {
    (c: Conn) => if c.done then 0 else 1 + 8 * (LimitOf(c) - c.completed) + 2 * AttemptsLeft(c) + DeferralsLeft(c, now)
  }

  function RankCap(c: Conn): int { 8 * RemainingOf(c) + 8 * UnfinishedOf(c) }

  /** The failures so far and those that may still come. */
  function Potential(w: W): int
  {
    Errors(w.shared.counters) + Sum(w.conns, RankOf(w.shared.clock))
  }

  /** What a worker may become: the same limits, and no more failures to expect in all. */
  ghost predicate Settles(w: W, w': W)
  {
    AllFixed(w'.conns) && Potential(w') <= Potential(w)
  }

  lemma RankFalls(c: Conn, s: Shared, c': Conn, s': Shared, token: nat)
    requires Core(c, s, token) && Core(c', s', token) && s'.clock == s.clock
    requires c.limit.Requests? && c'.limit.Requests? && !c.done && Advances(c, s, c', s')
    ensures Errors(s'.counters) + RankOf(s'.clock)(c') <= Errors(s.counters) + RankOf(s.clock)(c)
  {
    MeasureIsNatural(c, s, token);
    MeasureIsNatural(c', s', token);
  }

  /** A rule for one connection. */
  lemma RuleSettles(w: W, token: nat, s: Shared, r: After)
    requires Inv(w) && AllFixed(w.conns) && token < |w.conns| && !w.conns[token].done && r.Ok?
    requires s.clock == w.shared.clock && s.counters == w.shared.counters && Core(w.conns[token], s, token)
    requires Advances(w.conns[token], s, r.value.0, r.value.1)
    requires Step(w.conns[token], w.shared, r.value.0, r.value.1, token) && Core(r.value.0, r.value.1, token)
    ensures Settles(w, w.(conns := w.conns[token := r.value.0], shared := r.value.1))
  {
    var (c', s') := r.value;
    assert w.conns[token] in w.conns;
    RankFalls(w.conns[token], s, c', s', token);
    SumUpdate(w.conns, token, c', RankOf(s.clock));
  }

  /** Time passing: a slot that has come cannot be waited for again. */
  lemma WaitingSettles(w: W, now: int)
    requires Inv(w) && AllFixed(w.conns)
    ensures Settles(w, At(w, now))
  {
    SumMonotone(w.conns, RankOf(At(w, now).shared.clock), RankOf(w.shared.clock));
  }

  lemma EventSettles(g: Grammar, w: W, ev: Event)
    requires Inv(w) && AllFixed(w.conns) && EventOn(g, w, ev).Ok?
    ensures Settles(w, EventOn(g, w, ev).value)
  {
    var w1 := At(w, ev.now);
    WaitingSettles(w, ev.now);
    if ev.token < |w1.conns| && !w1.conns[ev.token].done && !w1.conns[ev.token].interest.Unregistered? {
      var c := w1.conns[ev.token];
      LiveIsUsable(w1, ev.token);
      assert c in w1.conns;
      EventRuleIsStep(g, c, w1.shared, ev.token, ev);
      EventAdvances(g, c, w1.shared, ev.token, ev);
      RuleSettles(w1, ev.token, w1.shared, EventRule(g, c, w1.shared, ev.token, ev));
    }
  }

  lemma DeadlineSettles(w: W, firing: Firing)
    requires Inv(w) && AllFixed(w.conns) && w.shared.deadlines != []
    requires w.shared.deadlines[0].at <= Max(w.shared.clock, firing.now) && DeadlineOn(w, firing).Ok?
    ensures Settles(w, DeadlineOn(w, firing).value)
  {
    var w1 := At(w, firing.now);
    var e := w1.shared.deadlines[0];
    WaitingSettles(w, firing.now);
    assert e in w1.shared.deadlines;
    if !Stale(e, w1.conns) {
      var c := w1.conns[e.token];
      LiveIsUsable(w1, e.token);
      assert c in w1.conns;
      ExpiryRuleIsStep(c, w1.shared, e.token, firing.connects);
      ExpiryIsPaid(c, w1.shared, e.token, firing.connects);
      RuleSettles(w1, e.token, w1.shared, ExpiryRule(c, PopDeadline(w1.shared), e.token, firing.connects));
    }
  }

  lemma SlotSettles(w: W, firing: Firing)
    requires Inv(w) && AllFixed(w.conns) && w.shared.pacing != []
    requires w.shared.pacing[0].at <= Max(w.shared.clock, firing.now) && SlotOn(w, firing).Ok?
    ensures Settles(w, SlotOn(w, firing).value)
  {
    var w1 := At(w, firing.now);
    var e := w1.shared.pacing[0];
    WaitingSettles(w, firing.now);
    assert e in w1.shared.pacing;
    if !Stale(e, w1.conns) {
      var c := w1.conns[e.token];
      LiveIsUsable(w1, e.token);
      assert c in w1.conns;
      SlotRuleIsStep(c, w1.shared, e.token, firing.connects);
      SlotAdvances(c, w1.shared, e.token, firing.connects);
      RuleSettles(w1, e.token, w1.shared, SlotRule(c, PopPacing(w1.shared), e.token, firing.connects));
    }
  }

  lemma {:induction false} EventsSettle(g: Grammar, w: W, events: seq<Event>)
    requires Inv(w) && AllFixed(w.conns) && EventsOn(g, w, events).Ok?
    ensures Settles(w, EventsOn(g, w, events).value)
    decreases |events|
  {
    if events != [] {
      EventSettles(g, w, events[0]);
      EventsSettle(g, EventOn(g, w, events[0]).value, events[1..]);
    }
  }

  lemma {:induction false} DeadlinesSettle(w: W, due: int, firings: seq<Firing>)
    requires Inv(w) && AllFixed(w.conns) && due <= w.shared.clock && DeadlinesOn(w, due, firings).Ok?
    ensures Settles(w, DeadlinesOn(w, due, firings).value.0)
    decreases |firings|
  {
    if w.shared.deadlines != [] && w.shared.deadlines[0].at <= due && firings != [] {
      DeadlineSettles(w, firings[0]);
      DeadlinesSettle(DeadlineOn(w, firings[0]).value, due, firings[1..]);
    }
  }

  lemma {:induction false} SlotsSettle(w: W, due: int, firings: seq<Firing>)
    requires Inv(w) && AllFixed(w.conns) && due <= w.shared.clock && SlotsOn(w, due, firings).Ok?
    ensures Settles(w, SlotsOn(w, due, firings).value.0)
    decreases |firings|
  {
    if w.shared.pacing != [] && w.shared.pacing[0].at <= due && firings != [] {
      SlotSettles(w, firings[0]);
      SlotsSettle(SlotOn(w, firings[0]).value, due, firings[1..]);
    }
  }

  lemma TimersSettle(w: W, round: Round)
    requires Inv(w) && AllFixed(w.conns) && TimersOn(w, round).Ok?
    ensures Settles(w, TimersOn(w, round).value.0)
  {
    var w1 := At(w, round.expiryNow);
    WaitingSettles(w, round.expiryNow);
    DeadlinesSettle(w1, w1.shared.clock, round.expiries);
    var (w2, fired) := DeadlinesOn(w1, w1.shared.clock, round.expiries).value;
    if fired {
      WaitingSettles(w2, round.slotNow);
      SlotsSettle(At(w2, round.slotNow), At(w2, round.slotNow).shared.clock, round.slots);
    }
  }

  /**
   * From any reachable state on, however long the script, the failures that are still to come are at most eight for
   * each request to come and eight for each unfinished connection.
   */
  lemma {:induction false} FailuresToCome(g: Grammar, w: W, rounds: seq<Round>)
    requires Inv(w) && AllFixed(w.conns) && RoundsOn(g, w, rounds).Ok?
    ensures var w' := RoundsOn(g, w, rounds).value.0;
            && Settles(w, w')
            && Errors(w'.shared.counters) <=
               Errors(w.shared.counters) + 8 * Sum(w.conns, RemainingOf) + 8 * w.shared.active
    decreases |rounds|
  {
    if w.shared.active != 0 && rounds != [] {
      var w1 := CleanSlots(CleanDeadlines(w));
      EventsSettle(g, w1, rounds[0].events);
      TimersSettle(EventsOn(g, w1, rounds[0].events).value, rounds[0]);
      var (w2, turned) := RoundOn(g, w, rounds[0]).value;
      if turned { FailuresToCome(g, w2, rounds[1..]); }
    }
    RanksAreFew(w);
    RanksAreFew(RoundsOn(g, w, rounds).value.0);
  }

  lemma RanksAreFew(w: W)
    requires Inv(w) && AllFixed(w.conns)
    ensures 0 <= Sum(w.conns, RankOf(w.shared.clock)) <= 8 * Sum(w.conns, RemainingOf) + 8 * w.shared.active
  {
    forall c | c in w.conns ensures 0 <= RankOf(w.shared.clock)(c) <= RankCap(c) {
      var t :| 0 <= t < |w.conns| && w.conns[t] == c;
      assert Core(w.conns[t], w.shared, t);
      MeasureIsNatural(c, w.shared, t);
    }
    SumNonNegative(w.conns, RankOf(w.shared.clock));
    SumMonotone(w.conns, RankOf(w.shared.clock), RankCap);
    RankCaps(w.conns);
  }

  lemma {:induction false} RankCaps(conns: seq<Conn>)
    ensures Sum(conns, RankCap) == 8 * Sum(conns, RemainingOf) + 8 * Sum(conns, UnfinishedOf)
  {
    if conns != [] { RankCaps(conns[1..]); }
  }
}
