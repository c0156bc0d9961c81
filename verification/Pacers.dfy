/** The slot schedulers for fixed rates, log timestamps and timed stages, with instants and intervals in nanoseconds (src/pacer.rs). */
module Pacers {
  import opened Prelude
  import opened Arithmetic

  // ----- rounding up -----

  /** The number of intervals needed to cover a length. */
  function Ceil(a: nat, n: nat): nat
    requires 0 < n
  {
    (a + n - 1) / n
  }

  lemma CeilStep(a: nat, n: nat)
    requires 0 < n
    ensures Ceil(a + n, n) == Ceil(a, n) + 1
  {
    var q, r := Divide(a + n - 1, n);
    MulNext(q, n);
    Quotient(a + n - 1, n, q, r);
    Quotient(a + n + n - 1, n, q + 1, r);
  }

  lemma CeilSmall(a: nat, n: nat)
    requires 0 < a <= n
    ensures Ceil(a, n) == 1
  {
    Quotient(a + n - 1, n, 1, a - 1);
  }

  lemma {:induction false} CeilMonotone(a: nat, b: nat, n: nat)
    requires 0 < n && a <= b
    ensures Ceil(a, n) <= Ceil(b, n)
    decreases b
  {
    if n < b {
      CeilStep(b - n, n);
      if n < a {
        CeilStep(a - n, n);
        CeilMonotone(a - n, b - n, n);
      } else if 0 < a {
        CeilSmall(a, n);
      } else {
        Quotient(n - 1, n, 0, n - 1);
      }
    } else {
      if 0 < b { CeilSmall(b, n); }
      if 0 < a { CeilSmall(a, n); } else { Quotient(n - 1, n, 0, n - 1); }
    }
  }

  // ----- a fixed rate -----

  function FixedSlots(next: int, interval: nat, nows: seq<int>): (slots: seq<int>)
    ensures |slots| == |nows|
    decreases |nows|
  {
    if nows == [] then []
    else
      var slot := Max(next, nows[0]);
      [slot] + FixedSlots(slot + interval, interval, nows[1..])
  }

  /** The latest demand on slot `k`: `k` intervals after the start, or `k - j` intervals after the j-th call. */
  function Demand(next: int, interval: nat, nows: seq<int>, k: nat): int
    requires k < |nows|
  {
    if k == 0 then Max(next, nows[0]) else Max(Demand(next, interval, nows, k - 1) + interval, nows[k])
  }

  /** Each slot is the earliest instant that is not before its call and at least an interval after the previous slot. */
  lemma {:induction false} FixedSlotAt(next: int, interval: nat, nows: seq<int>, k: nat)
    requires k < |nows|
    ensures var slots := FixedSlots(next, interval, nows);
            && slots[0] == Max(next, nows[0])
            && (0 < k ==> slots[k] == Max(slots[k - 1] + interval, nows[k]))
    decreases k
  {
    if 0 < k {
      var slot := Max(next, nows[0]);
      FixedSlotAt(slot + interval, interval, nows[1..], k - 1);
    }
  }

  /** Slot `k` lies `k` intervals after the start or `k - j` intervals after some call `j`, and after none of them later. */
  lemma {:induction false} FixedSlotIsLeast(next: int, interval: nat, nows: seq<int>, k: nat)
    requires k < |nows|
    ensures var slot := FixedSlots(next, interval, nows)[k];
            && next + k * interval <= slot
            && (forall j: nat :: j <= k ==> nows[j] + (k - j) * interval <= slot)
            && (slot == next + k * interval || exists j: nat :: j <= k && slot == nows[j] + (k - j) * interval)
    decreases k
  {
    FixedSlotAt(next, interval, nows, k);
    if 0 < k {
      FixedSlotIsLeast(next, interval, nows, k - 1);
      var slots := FixedSlots(next, interval, nows);
      MulNext(k - 1, interval);
      forall j: nat | j <= k ensures nows[j] + (k - j) * interval <= slots[k] {
        if j < k { MulNext(k - 1 - j, interval); }
      }
      if slots[k] == nows[k] {
        assert slots[k] == nows[k] + (k - k) * interval;
      } else if slots[k - 1] != next + (k - 1) * interval {
        var j: nat :| j <= k - 1 && slots[k - 1] == nows[j] + (k - 1 - j) * interval;
        MulNext(k - 1 - j, interval);
        assert slots[k] == nows[j] + (k - j) * interval;
      }
    }
  }

  function FixedDue(next: int, interval: nat, nows: seq<int>): int
    decreases |nows|
  {
    if nows == [] then next else FixedDue(Max(next, nows[0]) + interval, interval, nows[1..])
  }

  lemma {:induction false} FixedAppend(next: int, interval: nat, nows: seq<int>, now: int)
    ensures var slot := Max(FixedDue(next, interval, nows), now);
            && FixedSlots(next, interval, nows + [now]) == FixedSlots(next, interval, nows) + [slot]
            && FixedDue(next, interval, nows + [now]) == slot + interval
    decreases |nows|
  {
    if nows != [] {
      assert (nows + [now])[1..] == nows[1..] + [now];
      FixedAppend(Max(next, nows[0]) + interval, interval, nows[1..], now);
    }
  }

  class Pacer {
    const interval: nat
    ghost const started: int
    var next: int
    /** The instants of all calls, and the slots they were given. */
    ghost var calls: seq<int>
    ghost var slots: seq<int>

    ghost predicate Valid()
      reads this
    {
      next == FixedDue(started, interval, calls) && slots == FixedSlots(started, interval, calls)
    }

    constructor (interval: nat, started: int)
      ensures Valid() && this.interval == interval && this.started == started && calls == []
    {
      this.interval, this.started := interval, started;
      next, calls, slots := started, [], [];
    }

    method Reserve(now: int) returns (scheduled: int)
      requires Valid()
      modifies this
      ensures Valid() && calls == old(calls) + [now] && slots == old(slots) + [scheduled]
    {
      FixedAppend(started, interval, calls, now);
      scheduled := Max(next, now);
      next := scheduled + interval;
      calls, slots := calls + [now], slots + [scheduled];
    }
  }

  // ----- timed stages -----

  /** A stage as configured. */
  datatype Stage = Stage(duration: nat, interval: nat)

  /** A stage as the pacer keeps it: where it ends after the start, and its interval. */
  datatype Until = Until(boundary: nat, interval: nat)

  function Start(stages: seq<Until>, k: nat): nat
    requires k <= |stages|
  {
    if k == 0 then 0 else stages[k - 1].boundary
  }

  /** Boundaries are the sums of the durations so far. */
  function BoundariesFrom(stages: seq<Stage>, base: nat): (r: seq<Until>)
    ensures |r| == |stages|
  {
    if stages == [] then []
    else
      var boundary := base + stages[0].duration;
      [Until(boundary, stages[0].interval)] + BoundariesFrom(stages[1..], boundary)
  }

  function Boundaries(stages: seq<Stage>): (r: seq<Until>)
    ensures |r| == |stages|
  {
    BoundariesFrom(stages, 0)
  }

  lemma {:induction false} BoundaryAt(stages: seq<Stage>, base: nat, k: nat)
    requires k < |stages|
    ensures var r := BoundariesFrom(stages, base);
            && r[k].boundary == (if k == 0 then base else r[k - 1].boundary) + stages[k].duration
            && r[k].interval == stages[k].interval
  {
    if 0 < k { BoundaryAt(stages[1..], base + stages[0].duration, k - 1); }
  }

  ghost predicate Rising(stages: seq<Until>)
  {
    && stages != []
    && (forall k :: 0 <= k < |stages| ==> 0 < stages[k].interval)
    && (forall j, k :: 0 <= j < k < |stages| ==> stages[j].boundary <= stages[k].boundary)
  }

  lemma {:induction false} BoundaryAhead(stages: seq<Stage>, base: nat, k: nat)
    requires k < |stages| && forall i :: 0 <= i < |stages| ==> 0 < stages[i].interval
    ensures base <= BoundariesFrom(stages, base)[k].boundary && 0 < BoundariesFrom(stages, base)[k].interval
  {
    if 0 < k { BoundaryAhead(stages[1..], base + stages[0].duration, k - 1); }
  }

  lemma {:induction false} BoundariesRise(stages: seq<Stage>, base: nat, j: nat, k: nat)
    requires j < k < |stages| && forall i :: 0 <= i < |stages| ==> 0 < stages[i].interval
    ensures BoundariesFrom(stages, base)[j].boundary <= BoundariesFrom(stages, base)[k].boundary
  {
    var base' := base + stages[0].duration;
    if j == 0 { BoundaryAhead(stages[1..], base', k - 1); } else { BoundariesRise(stages[1..], base', j - 1, k - 1); }
  }

  /** The stage in force: the first whose boundary is still ahead. */
  function StageAt(stages: seq<Until>, elapsed: int): (k: Option<nat>)
    ensures k.Some? ==> k.value < |stages| && elapsed < stages[k.value].boundary &&
                        forall j :: 0 <= j < k.value ==> stages[j].boundary <= elapsed
    ensures k.None? ==> forall j :: 0 <= j < |stages| ==> stages[j].boundary <= elapsed
  {
    if stages == [] then None
    else if elapsed < stages[0].boundary then Some(0)
    else match StageAt(stages[1..], elapsed)
      case None => None
      case Some(k) => Some(k + 1)
  }

  /** The slot after `slot`: one interval later, but not past the boundary of the stage in force. */
  function After(stages: seq<Until>, started: int, slot: int): int
    requires stages != []
  {
    match StageAt(stages, Max(0, slot - started))
    case None => slot + stages[|stages| - 1].interval
    case Some(k) => Min(slot + stages[k].interval, started + stages[k].boundary)
  }

  function SlotsFrom(stages: seq<Until>, started: int, next: int, nows: seq<int>): (slots: seq<int>)
    requires stages != []
    ensures |slots| == |nows|
    decreases |nows|
  {
    if nows == [] then []
    else
      var slot := Max(next, nows[0]);
      [slot] + SlotsFrom(stages, started, After(stages, started, slot), nows[1..])
  }

  /** The slots of all calls: the first call starts the stages. */
  function StageSlots(stages: seq<Until>, nows: seq<int>): seq<int>
    requires stages != []
  {
    if nows == [] then [] else SlotsFrom(stages, nows[0], nows[0], nows)
  }

  lemma AfterIsLater(stages: seq<Until>, started: int, slot: int)
    requires Rising(stages) && started <= slot
    ensures slot < After(stages, started, slot)
  {
  }

  lemma {:induction false} SlotsIncrease(stages: seq<Until>, started: int, next: int, nows: seq<int>)
    requires Rising(stages) && started <= next
    ensures var slots := SlotsFrom(stages, started, next, nows);
            && (forall j :: 0 <= j < |slots| ==> next <= slots[j] && nows[j] <= slots[j])
            && (forall i, j :: 0 <= i < j < |slots| ==> slots[i] < slots[j])
    decreases |nows|
  {
    if nows != [] {
      var slot := Max(next, nows[0]);
      AfterIsLater(stages, started, slot);
      SlotsIncrease(stages, started, After(stages, started, slot), nows[1..]);
    }
  }

  /**
   * A call gets the slot that is next, or its own instant if that has passed; and the slot after that is one interval of
   * the stage in force later, but no later than the end of that stage.
   */
  lemma NextSlot(stages: seq<Until>, started: int, next: int, nows: seq<int>)
    requires Rising(stages) && started <= next && 2 <= |nows| && stages != []
    ensures var slots := SlotsFrom(stages, started, next, nows);
            && slots[0] == (if nows[0] <= next then next else nows[0])
            && (forall k :: 0 <= k < |stages| && InForce(stages, k, slots[0] - started) ==>
                  var following := if slots[0] + stages[k].interval <= started + stages[k].boundary
                                   then slots[0] + stages[k].interval else started + stages[k].boundary;
                  slots[1] == if nows[1] <= following then following else nows[1])
            && ((forall k :: 0 <= k < |stages| ==> stages[k].boundary <= slots[0] - started) ==>
                  var following := slots[0] + stages[|stages| - 1].interval;
                  slots[1] == if nows[1] <= following then following else nows[1])
  {
    var slot := Max(next, nows[0]);
    assert SlotsFrom(stages, started, next, nows)[1..] == SlotsFrom(stages, started, After(stages, started, slot), nows[1..]);
  }

  /** The stage that an instant falls into: its end is still ahead, and those of the stages before are not. */
  predicate InForce(stages: seq<Until>, k: nat, elapsed: int)
    requires k < |stages|
  {
    elapsed < stages[k].boundary && forall j :: 0 <= j < k ==> stages[j].boundary <= elapsed
  }

  /** The number of slots in a window. */
  function CountIn(slots: seq<int>, lo: int, hi: int): nat
  {
    if slots == [] then 0 else (if lo <= slots[0] < hi then 1 else 0) + CountIn(slots[1..], lo, hi)
  }

  lemma {:induction false} NoneIn(slots: seq<int>, lo: int, hi: int)
    requires forall j :: 0 <= j < |slots| ==> hi <= slots[j]
    ensures CountIn(slots, lo, hi) == 0
  {
    if slots != [] { NoneIn(slots[1..], lo, hi); }
  }

  /** What is left of a stage when the next slot is due. */
  function Left(lo: int, hi: int, next: int): nat
  {
    Max(0, hi - Max(next, lo))
  }

  lemma StageInForce(stages: seq<Until>, k: nat, elapsed: nat)
    requires Rising(stages) && k < |stages| && Start(stages, k) <= elapsed < stages[k].boundary
    ensures StageAt(stages, elapsed) == Some(k)
  {
  }

  lemma AfterInside(stages: seq<Until>, started: int, k: nat, slot: int)
    requires Rising(stages) && k < |stages| && started + Start(stages, k) <= slot < started + stages[k].boundary
    ensures After(stages, started, slot) == Min(slot + stages[k].interval, started + stages[k].boundary)
  {
    assert 0 <= Start(stages, k);
    StageInForce(stages, k, slot - started);
  }

  lemma CountNext(slot: int, rest: seq<int>, lo: int, hi: int)
    ensures CountIn([slot] + rest, lo, hi) == (if lo <= slot < hi then 1 else 0) + CountIn(rest, lo, hi)
  {
    assert ([slot] + rest)[1..] == rest;
  }

  /** One more slot uses up an interval of the stage, or the stage is over. */
  lemma RoomForSlot(lo: int, hi: int, n: nat, next: int, slot: int, after: int, rest: nat)
    requires 0 < n && next <= slot < after && rest <= Ceil(Left(lo, hi, after), n)
    requires hi <= after ==> rest == 0
    requires lo <= slot < hi ==> after == Min(slot + n, hi)
    ensures (if lo <= slot < hi then 1 else 0) + rest <= Ceil(Left(lo, hi, next), n)
  {
    CeilMonotone(Left(lo, hi, after), Left(lo, hi, next), n);
    if lo <= slot < hi {
      CeilMonotone(hi - slot, Left(lo, hi, next), n);
      if hi <= slot + n { CeilSmall(hi - slot, n); } else { CeilStep(hi - slot - n, n); }
    }
  }

  /** However late the calls come, a stage never gets more slots than its remaining length has room for. */
  lemma {:induction false} SlotsFitStage(stages: seq<Until>, started: int, next: int, nows: seq<int>, k: nat)
    requires Rising(stages) && started <= next && k < |stages|
    ensures var lo, hi := started + Start(stages, k), started + stages[k].boundary;
            CountIn(SlotsFrom(stages, started, next, nows), lo, hi) <= Ceil(Left(lo, hi, next), stages[k].interval)
    decreases |nows|
  {
    if nows != [] {
      var lo, hi := started + Start(stages, k), started + stages[k].boundary;
      var slot := Max(next, nows[0]);
      var after := After(stages, started, slot);
      var rest := SlotsFrom(stages, started, after, nows[1..]);
      AfterIsLater(stages, started, slot);
      SlotsFitStage(stages, started, after, nows[1..], k);
      SlotsIncrease(stages, started, after, nows[1..]);
      if hi <= after { NoneIn(rest, lo, hi); }
      if lo <= slot < hi { AfterInside(stages, started, k, slot); }
      RoomForSlot(lo, hi, stages[k].interval, next, slot, after, CountIn(rest, lo, hi));
      CountNext(slot, rest, lo, hi);
    }
  }

  lemma BoundariesOf(configured: seq<Stage>, k: nat)
    requires k < |configured| && forall s :: 0 <= s < |configured| ==> 0 < configured[s].interval
    ensures var stages := Boundaries(configured);
            && Rising(stages)
            && stages[k] == Until(Start(stages, k) + configured[k].duration, configured[k].interval)
  {
    var stages := Boundaries(configured);
    forall i | 0 <= i < |stages| ensures 0 < stages[i].interval { BoundaryAhead(configured, 0, i); }
    forall i, j | 0 <= i < j < |stages| ensures stages[i].boundary <= stages[j].boundary {
      BoundariesRise(configured, 0, i, j);
    }
    BoundaryAt(configured, 0, k);
  }

  /** For any call times, slots strictly increase and a stage of duration d and interval i gets at most ceil(d / i) slots. */
  lemma StageSchedule(configured: seq<Stage>, nows: seq<int>, k: nat)
    requires nows != [] && k < |configured| && forall s :: 0 <= s < |configured| ==> 0 < configured[s].interval
    ensures var stages := Boundaries(configured);
            var slots := StageSlots(stages, nows);
            var lo := nows[0] + Start(stages, k);
            && (forall i, j :: 0 <= i < j < |slots| ==> slots[i] < slots[j])
            && (forall j :: 0 <= j < |slots| ==> nows[j] <= slots[j])
            && CountIn(slots, lo, lo + configured[k].duration) <= Ceil(configured[k].duration, configured[k].interval)
  {
    var stages := Boundaries(configured);
    BoundariesOf(configured, k);
    SlotsIncrease(stages, nows[0], nows[0], nows);
    SlotsFitStage(stages, nows[0], nows[0], nows, k);
  }

  // ----- stages when every call is early -----

  /** Every call comes no later than the slot that is due. */
  predicate Early(stages: seq<Until>, started: int, next: int, nows: seq<int>)
    requires stages != []
    decreases |nows|
  {
    nows == [] || (nows[0] <= next && Early(stages, started, After(stages, started, next), nows[1..]))
  }

  /** Evenly spaced instants from `lo` until `hi`. */
  function Ticks(lo: int, hi: int, interval: nat): seq<int>
    requires 0 < interval
    decreases Max(0, hi - lo)
  {
    if hi <= lo then [] else [lo] + Ticks(lo + interval, hi, interval)
  }

  function Steady(from: int, interval: nat, n: nat): (r: seq<int>)
    ensures |r| == n
    decreases n
  {
    if n == 0 then [] else [from] + Steady(from + interval, interval, n - 1)
  }

  /** The planned slots from `next` in stage `k` on: the ticks of each stage, then the last rate for ever. */
  function Plan(stages: seq<Until>, started: int, k: nat, next: int, extra: nat): seq<int>
    requires Rising(stages) && k <= |stages|
    decreases |stages| - k
  {
    if k == |stages| then Steady(next, stages[k - 1].interval, extra)
    else
      var hi := started + stages[k].boundary;
      Ticks(next, hi, stages[k].interval) + Plan(stages, started, k + 1, hi, extra)
  }

  lemma TicksCut(lo: int, hi: int, interval: nat)
    requires 0 < interval && lo < hi
    ensures Ticks(lo, hi, interval) == [lo] + Ticks(Min(lo + interval, hi), hi, interval)
  {
  }

  lemma PlanNext(stages: seq<Until>, started: int, k: nat, next: int, extra: nat)
    requires Rising(stages) && k < |stages| && next < started + stages[k].boundary
    ensures Plan(stages, started, k, next, extra) ==
            [next] + Plan(stages, started, k, Min(next + stages[k].interval, started + stages[k].boundary), extra)
  {
    var hi := started + stages[k].boundary;
    var cut := Min(next + stages[k].interval, hi);
    TicksCut(next, hi, stages[k].interval);
    var rest := Plan(stages, started, k + 1, hi, extra);
    assert Plan(stages, started, k, cut, extra) == Ticks(cut, hi, stages[k].interval) + rest;
    assert Plan(stages, started, k, next, extra) == Ticks(next, hi, stages[k].interval) + rest;
  }

  lemma PlanSkip(stages: seq<Until>, started: int, k: nat, extra: nat)
    requires Rising(stages) && k < |stages|
    ensures var hi := started + stages[k].boundary;
            Plan(stages, started, k, hi, extra) == Plan(stages, started, k + 1, hi, extra)
  {
    var hi := started + stages[k].boundary;
    assert Ticks(hi, hi, stages[k].interval) == [];
  }

  lemma AfterEnd(stages: seq<Until>, started: int, slot: int)
    requires Rising(stages) && started + Start(stages, |stages|) <= slot
    ensures After(stages, started, slot) == slot + stages[|stages| - 1].interval
  {
  }

  lemma PrefixStep(slot: int, a: seq<int>, b: seq<int>, c: seq<int>)
    requires a <= b && b <= c
    ensures [slot] + a <= [slot] + c
  {
  }

  /** A slot that is due in the plan is followed by the rest of the plan. */
  lemma PlanAfter(stages: seq<Until>, started: int, k: nat, next: int, extra: nat)
    requires Rising(stages) && k <= |stages| && started + Start(stages, k) <= next
    requires k < |stages| ==> next < started + stages[k].boundary
    ensures [next] + Plan(stages, started, k, After(stages, started, next), extra) <=
            Plan(stages, started, k, next, extra + 1)
  {
    if k == |stages| { AfterEnd(stages, started, next); } else { PlanAfterStage(stages, started, k, next, extra); }
  }

  lemma PlanAfterStage(stages: seq<Until>, started: int, k: nat, next: int, extra: nat)
    requires Rising(stages) && k < |stages| && started + Start(stages, k) <= next < started + stages[k].boundary
    ensures [next] + Plan(stages, started, k, After(stages, started, next), extra) <=
            Plan(stages, started, k, next, extra + 1)
  {
    var after := After(stages, started, next);
    StageInForce(stages, k, next - started);
    PlanNext(stages, started, k, next, extra + 1);
    PlanGrows(stages, started, k, after, extra);
    PrefixStep(next, Plan(stages, started, k, after, extra), Plan(stages, started, k, after, extra),
               Plan(stages, started, k, after, extra + 1));
  }

  lemma PrefixChain(slot: int, a: seq<int>, b: seq<int>, whole: seq<int>)
    requires a <= b && [slot] + b <= whole
    ensures [slot] + a <= whole
  {
  }

  lemma EarlySlot(stages: seq<Until>, started: int, next: int, nows: seq<int>)
    requires stages != [] && nows != [] && nows[0] <= next
    ensures SlotsFrom(stages, started, next, nows) ==
            [next] + SlotsFrom(stages, started, After(stages, started, next), nows[1..])
  {
  }

  /** Early calls get exactly the planned slots. */
  lemma {:induction false} EarlyIsPlanned(stages: seq<Until>, started: int, k: nat, next: int, nows: seq<int>)
    requires Rising(stages) && k <= |stages| && started + Start(stages, k) <= next
    requires k < |stages| ==> next <= started + stages[k].boundary
    requires Early(stages, started, next, nows)
    ensures SlotsFrom(stages, started, next, nows) <= Plan(stages, started, k, next, |nows|)
    decreases |nows|, |stages| - k, 1
  {
    if nows != [] {
      if k < |stages| && next == started + stages[k].boundary {
        EarlyIsPlanned(stages, started, k + 1, next, nows);
        PlanSkip(stages, started, k, |nows|);
      } else {
        EarlyInside(stages, started, k, next, nows);
      }
    }
  }

  lemma {:induction false} EarlyInside(stages: seq<Until>, started: int, k: nat, next: int, nows: seq<int>)
    requires Rising(stages) && k <= |stages| && started + Start(stages, k) <= next
    requires k < |stages| ==> next < started + stages[k].boundary
    requires nows != [] && nows[0] <= next && Early(stages, started, After(stages, started, next), nows[1..])
    ensures SlotsFrom(stages, started, next, nows) <= Plan(stages, started, k, next, |nows|)
    decreases |nows|, |stages| - k, 0
  {
    var after := After(stages, started, next);
    AfterStays(stages, started, k, next);
    EarlyIsPlanned(stages, started, k, after, nows[1..]);
    PlanAfter(stages, started, k, next, |nows| - 1);
    PrefixChain(next, SlotsFrom(stages, started, after, nows[1..]), Plan(stages, started, k, after, |nows| - 1),
                Plan(stages, started, k, next, |nows|));
    EarlySlot(stages, started, next, nows);
  }

  lemma AfterStays(stages: seq<Until>, started: int, k: nat, next: int)
    requires Rising(stages) && k <= |stages| && started + Start(stages, k) <= next
    requires k < |stages| ==> next < started + stages[k].boundary
    ensures started + Start(stages, k) <= After(stages, started, next)
    ensures k < |stages| ==> After(stages, started, next) <= started + stages[k].boundary
  {
    if k < |stages| { StageInForce(stages, k, next - started); } else { AfterEnd(stages, started, next); }
  }

  lemma {:induction false} SteadyGrows(from: int, interval: nat, n: nat)
    ensures Steady(from, interval, n) <= Steady(from, interval, n + 1)
    decreases n
  {
    if 0 < n { SteadyGrows(from + interval, interval, n - 1); }
  }

  lemma {:induction false} PlanGrows(stages: seq<Until>, started: int, k: nat, next: int, extra: nat)
    requires Rising(stages) && k <= |stages|
    ensures Plan(stages, started, k, next, extra) <= Plan(stages, started, k, next, extra + 1)
    decreases |stages| - k
  {
    if k == |stages| {
      SteadyGrows(next, stages[k - 1].interval, extra);
    } else {
      PlanGrows(stages, started, k + 1, started + stages[k].boundary, extra);
    }
  }

  lemma {:induction false} TickAt(lo: int, hi: int, interval: nat)
    requires 0 < interval
    ensures |Ticks(lo, hi, interval)| == Ceil(Max(0, hi - lo), interval)
    ensures forall m :: 0 <= m < |Ticks(lo, hi, interval)| ==> Ticks(lo, hi, interval)[m] == lo + m * interval
    decreases Max(0, hi - lo)
  {
    if lo < hi {
      TickAt(lo + interval, hi, interval);
      if lo + interval <= hi { CeilStep(hi - lo - interval, interval); } else { CeilSmall(hi - lo, interval); }
      if lo + interval == hi { Quotient(interval - 1, interval, 0, interval - 1); }
      if hi < lo + interval { Quotient(interval - 1, interval, 0, interval - 1); }
      forall m | 0 < m < |Ticks(lo, hi, interval)| ensures Ticks(lo, hi, interval)[m] == lo + m * interval {
        MulNext(m - 1, interval);
      }
    } else {
      Quotient(interval - 1, interval, 0, interval - 1);
    }
  }

  /** The number of slots planned before stage `k`. */
  function SlotsBefore(configured: seq<Stage>, k: nat): nat
    requires k <= |configured| && forall s :: 0 <= s < |configured| ==> 0 < configured[s].interval
  {
    if k == 0 then 0
    else SlotsBefore(configured, k - 1) + Ceil(configured[k - 1].duration, configured[k - 1].interval)
  }

  /** The plan up to stage `k` has the promised number of slots, and what follows is the plan of the later stages. */
  lemma {:induction false} PlanSplits(configured: seq<Stage>, started: int, k: nat, extra: nat)
    requires configured != [] && k <= |configured| && forall s :: 0 <= s < |configured| ==> 0 < configured[s].interval
    requires Rising(Boundaries(configured))
    ensures var stages := Boundaries(configured);
            var plan := Plan(stages, started, 0, started, extra);
            && SlotsBefore(configured, k) <= |plan|
            && plan[SlotsBefore(configured, k)..] == Plan(stages, started, k, started + Start(stages, k), extra)
  {
    if 0 < k {
      PlanSplits(configured, started, k - 1, extra);
      BoundariesOf(configured, k - 1);
      var stages := Boundaries(configured);
      TickAt(started + Start(stages, k - 1), started + stages[k - 1].boundary, stages[k - 1].interval);
      DropMore(Plan(stages, started, 0, started, extra), SlotsBefore(configured, k - 1),
               Ticks(started + Start(stages, k - 1), started + stages[k - 1].boundary, stages[k - 1].interval),
               Plan(stages, started, k, started + stages[k - 1].boundary, extra));
    }
  }

  lemma DropMore(all: seq<int>, n: nat, a: seq<int>, b: seq<int>)
    requires n <= |all| && all[n..] == a + b
    ensures n + |a| <= |all| && all[n + |a|..] == b
  {
    assert all[n + |a|..] == all[n..][|a|..];
  }

  lemma PlanStarts(stages: seq<Until>, started: int, k: nat, extra: nat)
    requires Rising(stages) && k < |stages|
    ensures var lo, hi := started + Start(stages, k), started + stages[k].boundary;
            Plan(stages, started, k, lo, extra) ==
            Ticks(lo, hi, stages[k].interval) + Plan(stages, started, k + 1, hi, extra)
  {
  }

  lemma {:induction false} PartOfPlan(slots: seq<int>, plan: seq<int>, n: nat, ticks: seq<int>, rest: seq<int>)
    requires slots <= plan && n <= |slots| && plan[n..] == ticks + rest
    ensures slots[n..Min(|slots|, n + |ticks|)] <= ticks
  {
    var m := Min(|slots|, n + |ticks|);
    assert slots[n..m] == plan[n..][..m - n];
  }

  /** What early calls get of a stage is a beginning of its ticks. */
  lemma {:induction false} EarlyPart(stages: seq<Until>, nows: seq<int>, k: nat, n: nat)
    requires Rising(stages) && nows != [] && k < |stages| && n <= |nows| && Early(stages, nows[0], nows[0], nows)
    requires var plan := Plan(stages, nows[0], 0, nows[0], |nows|);
             n <= |plan| && plan[n..] == Plan(stages, nows[0], k, nows[0] + Start(stages, k), |nows|)
    ensures var ticks := Ticks(nows[0] + Start(stages, k), nows[0] + stages[k].boundary, stages[k].interval);
            StageSlots(stages, nows)[n..Min(|nows|, n + |ticks|)] <= ticks
  {
    EarlyIsPlanned(stages, nows[0], 0, nows[0], nows);
    PlanStarts(stages, nows[0], k, |nows|);
    PartOfPlan(StageSlots(stages, nows), Plan(stages, nows[0], 0, nows[0], |nows|), n,
               Ticks(nows[0] + Start(stages, k), nows[0] + stages[k].boundary, stages[k].interval),
               Plan(stages, nows[0], k + 1, nows[0] + stages[k].boundary, |nows|));
  }

  /** The slots that early calls get of stage `k`, as far as the calls go. */
  function PartOf(configured: seq<Stage>, nows: seq<int>, k: nat): (part: seq<int>)
    requires k < |configured| && forall s :: 0 <= s < |configured| ==> 0 < configured[s].interval
    requires SlotsBefore(configured, k) <= |nows|
  {
    StageSlots(Boundaries(configured), nows)[SlotsBefore(configured, k)..Min(|nows|, SlotsBefore(configured, k + 1))]
  }

  /** The slots a stage plans when no call comes late. */
  function StageTicks(configured: seq<Stage>, start: int, k: nat): seq<int>
    requires k < |configured| && forall s :: 0 <= s < |configured| ==> 0 < configured[s].interval
  {
    var lo := start + Start(Boundaries(configured), k);
    Ticks(lo, lo + configured[k].duration, configured[k].interval)
  }

  lemma StageTicksCount(configured: seq<Stage>, start: int, k: nat)
    requires k < |configured| && forall s :: 0 <= s < |configured| ==> 0 < configured[s].interval
    ensures |StageTicks(configured, start, k)| == Ceil(configured[k].duration, configured[k].interval)
  {
    var lo := start + Start(Boundaries(configured), k);
    TickAt(lo, lo + configured[k].duration, configured[k].interval);
  }

  lemma StageTicksAre(configured: seq<Stage>, start: int, k: nat)
    requires k < |configured| && forall s :: 0 <= s < |configured| ==> 0 < configured[s].interval
    ensures var stages := Boundaries(configured);
            && Rising(stages)
            && StageTicks(configured, start, k) ==
               Ticks(start + Start(stages, k), start + stages[k].boundary, stages[k].interval)
  {
    BoundariesOf(configured, k);
  }

  lemma {:induction false} PartIsTicks(configured: seq<Stage>, nows: seq<int>, k: nat)
    requires nows != [] && k < |configured| && forall s :: 0 <= s < |configured| ==> 0 < configured[s].interval
    requires Early(Boundaries(configured), nows[0], nows[0], nows) && SlotsBefore(configured, k) <= |nows|
    ensures PartOf(configured, nows, k) <= StageTicks(configured, nows[0], k)
  {
    var stages := Boundaries(configured);
    StageTicksAre(configured, nows[0], k);
    PlanSplits(configured, nows[0], k, |nows|);
    StageTicksCount(configured, nows[0], k);
    var n, ticks := SlotsBefore(configured, k), StageTicks(configured, nows[0], k);
    EarlyPart(stages, nows, k, n);
    assert SlotsBefore(configured, k + 1) == n + |ticks|;
  }

  lemma CeilAbove(a: nat, n: nat, m: nat)
    requires 0 < n && m < Ceil(a, n)
    ensures m * n < a
  {
    var q, r := Divide(a + n - 1, n);
    Quotient(a + n - 1, n, q, r);
    MulMonotone(m + 1, q, n);
    MulNext(m, n);
  }

  lemma {:induction false} CountConcat(a: seq<int>, b: seq<int>, lo: int, hi: int)
    ensures CountIn(a + b, lo, hi) == CountIn(a, lo, hi) + CountIn(b, lo, hi)
  {
    if a == [] {
      assert a + b == b;
    } else {
      assert (a + b)[1..] == a[1..] + b;
      CountConcat(a[1..], b, lo, hi);
    }
  }

  lemma {:induction false} CountAll(s: seq<int>, lo: int, hi: int)
    requires forall i :: 0 <= i < |s| ==> lo <= s[i] < hi
    ensures CountIn(s, lo, hi) == |s|
  {
    if s != [] { CountAll(s[1..], lo, hi); }
  }

  lemma {:induction false} CountInside(s: seq<int>, a: nat, b: nat, lo: int, hi: int)
    requires a <= b <= |s| && forall i :: a <= i < b ==> lo <= s[i] < hi
    ensures b - a <= CountIn(s, lo, hi)
  {
    assert s == s[..a] + s[a..b] + s[b..];
    CountConcat(s[..a] + s[a..b], s[b..], lo, hi);
    CountConcat(s[..a], s[a..b], lo, hi);
    CountAll(s[a..b], lo, hi);
  }

  /** Slots that early calls get lie on the ticks of their stage, the first exactly on its boundary. */
  lemma {:induction false} EarlyStageSlots(configured: seq<Stage>, nows: seq<int>, k: nat)
    requires nows != [] && k < |configured| && forall s :: 0 <= s < |configured| ==> 0 < configured[s].interval
    requires Early(Boundaries(configured), nows[0], nows[0], nows) && SlotsBefore(configured, k) <= |nows|
    ensures var lo, part := nows[0] + Start(Boundaries(configured), k), PartOf(configured, nows, k);
            forall m :: 0 <= m < |part| ==>
              part[m] == lo + m * configured[k].interval && lo <= part[m] < lo + configured[k].duration
  {
    var lo, part := nows[0] + Start(Boundaries(configured), k), PartOf(configured, nows, k);
    var d, i := configured[k].duration, configured[k].interval;
    PartIsTicks(configured, nows, k);
    StageTicksCount(configured, nows[0], k);
    TickAt(lo, lo + d, i);
    forall m | 0 <= m < |part| ensures part[m] == lo + m * i && lo <= part[m] < lo + d {
      assert part[m] == Ticks(lo, lo + d, i)[m];
      CeilAbove(d, i, m);
      MulMonotone(0, m, i);
    }
  }

  /**
   * When every call is early, a stage of duration d and interval i gets exactly ceil(d / i) slots, the last stage
   * included, as soon as there are calls enough for it and the stages before it.
   */
  lemma {:induction false} EarlyStageSchedule(configured: seq<Stage>, nows: seq<int>, k: nat)
    requires nows != [] && k < |configured| && forall s :: 0 <= s < |configured| ==> 0 < configured[s].interval
    requires Early(Boundaries(configured), nows[0], nows[0], nows) && SlotsBefore(configured, k + 1) <= |nows|
    ensures var lo := nows[0] + Start(Boundaries(configured), k);
            CountIn(StageSlots(Boundaries(configured), nows), lo, lo + configured[k].duration) ==
            Ceil(configured[k].duration, configured[k].interval)
  {
    var lo, part := nows[0] + Start(Boundaries(configured), k), PartOf(configured, nows, k);
    var slots, a := StageSlots(Boundaries(configured), nows), SlotsBefore(configured, k);
    StageSchedule(configured, nows, k);
    EarlyStageSlots(configured, nows, k);
    forall i | a <= i < a + |part| ensures lo <= slots[i] < lo + configured[k].duration { assert slots[i] == part[i - a]; }
    CountInside(slots, a, a + |part|, lo, lo + configured[k].duration);
  }

  function Due(stages: seq<Until>, started: int, next: int, nows: seq<int>): int
    requires stages != []
    decreases |nows|
  {
    if nows == [] then next else Due(stages, started, After(stages, started, Max(next, nows[0])), nows[1..])
  }

  lemma {:induction false} SlotsAppend(stages: seq<Until>, started: int, next: int, nows: seq<int>, now: int)
    requires stages != []
    ensures var slot := Max(Due(stages, started, next, nows), now);
            && SlotsFrom(stages, started, next, nows + [now]) == SlotsFrom(stages, started, next, nows) + [slot]
            && Due(stages, started, next, nows + [now]) == After(stages, started, slot)
    decreases |nows|
  {
    if nows != [] {
      assert (nows + [now])[1..] == nows[1..] + [now];
      SlotsAppend(stages, started, After(stages, started, Max(next, nows[0])), nows[1..], now);
    }
  }

  lemma BoundariesNext(configured: seq<Stage>, k: nat, base: nat)
    requires k < |configured|
    ensures BoundariesFrom(configured[k..], base) ==
            [Until(base + configured[k].duration, configured[k].interval)] +
            BoundariesFrom(configured[k + 1..], base + configured[k].duration)
  {
    assert configured[k..][1..] == configured[k + 1..];
  }

  class StagePacer {
    const stages: seq<Until>
    var started: Option<int>
    var next: Option<int>
    /** The instants of all calls, and the slots they were given. */
    ghost var calls: seq<int>
    ghost var slots: seq<int>

    ghost predicate Valid()
      reads this
    {
      && stages != []
      && slots == StageSlots(stages, calls)
      && (calls == [] ==> started == None && next == None)
      && (calls != [] ==> started == Some(calls[0]) && next == Some(Due(stages, calls[0], calls[0], calls)))
    }

    constructor (configured: seq<Stage>)
      requires configured != []
      ensures Valid() && stages == Boundaries(configured) && calls == []
    {
      var boundary: nat, r: seq<Until> := 0, [];
      for k := 0 to |configured|
        invariant r + BoundariesFrom(configured[k..], boundary) == Boundaries(configured)
      {
        BoundariesNext(configured, k, boundary);
        boundary := boundary + configured[k].duration;
        r := r + [Until(boundary, configured[k].interval)];
      }
      assert r == Boundaries(configured);
      stages, started, next, calls, slots := r, None, None, [], [];
    }

    /** Every call gets the next slot of the stage schedule. */
    method Reserve(now: int) returns (scheduled: int)
      requires Valid()
      modifies this
      ensures Valid() && calls == old(calls) + [now] && slots == old(slots) + [scheduled]
    {
      ghost var first := if calls == [] then now else calls[0];
      SlotsAppend(stages, first, first, calls, now);
      if started.None? { started := Some(now); }
      scheduled := Max(if next.Some? then next.value else now, now);
      var following := Following(started.value, scheduled);
      next := Some(following);
      calls, slots := calls + [now], slots + [scheduled];
    }

    /** The slot after `scheduled`: at the rate of the first stage whose boundary is still ahead. */
    method Following(started: int, scheduled: int) returns (following: int)
      requires stages != []
      ensures following == After(stages, started, scheduled)
    {
      var elapsed := Max(0, scheduled - started);
      var found := StageAt(stages, elapsed);
      var interval, boundary := stages[|stages| - 1].interval, None;
      if found.Some? {
        interval, boundary := stages[found.value].interval, Some(started + stages[found.value].boundary);
      }
      var candidate := scheduled + interval;
      following := if boundary.Some? then Min(candidate, boundary.value) else candidate;
    }
  }

  // ----- log timestamps -----

  /** A gap in microseconds of the log, in nanoseconds at the given speed. */
  function Scale(gap: nat, speed: real): nat
    requires 0.0 < speed
  {
    var nanos := gap as real * 1000.0 / speed;
    assert 0.0 <= nanos;
    (nanos + 0.5).Floor
  }

  lemma ScaleZero(speed: real)
    requires 0.0 < speed
    ensures Scale(0, speed) == 0
  {
  }

  /** Some nanoseconds at a speed are some microseconds of the log, but for half a nanosecond at each rounding. */
  predicate Near(nanos: int, micros: int, speed: real, roundings: int)
  {
    -(roundings as real * speed / 2.0) <= nanos as real * speed - 1000.0 * micros as real <= roundings as real * speed / 2.0
  }

  lemma ScaleIsNear(gap: nat, speed: real)
    requires 0.0 < speed
    ensures Near(Scale(gap, speed), gap, speed, 1)
  {
    var nanos, d := gap as real * 1000.0 / speed, Scale(gap, speed) as real;
    assert nanos * speed == gap as real * 1000.0;
    assert -0.5 <= d - nanos <= 0.5;
    Times(d - nanos, speed);
    assert (d - nanos) * speed == d * speed - nanos * speed;
  }

  lemma Times(x: real, speed: real)
    requires -0.5 <= x <= 0.5 && 0.0 < speed
    ensures -(speed / 2.0) <= x * speed <= speed / 2.0
  {
  }

  lemma NearAdd(a: int, x: int, m: int, b: int, y: int, n: int, speed: real)
    requires 0.0 < speed && Near(a, x, speed, m) && Near(b, y, speed, n)
    ensures Near(a + b, x + y, speed, m + n)
  {
    assert (a + b) as real * speed == a as real * speed + b as real * speed;
    assert (m + n) as real * speed == m as real * speed + n as real * speed;
  }

  datatype TimestampState = TimestampState(previous: Option<int>, next: int)

  function ReserveAt(s: TimestampState, speed: real, stamp: int, now: int): TimestampState
    requires 0.0 < speed
  {
    var gap := if s.previous.Some? && s.previous.value <= stamp then stamp - s.previous.value else 0;
    TimestampState(Some(stamp), Max(s.next, now) + Scale(gap, speed))
  }

  /** The pacer after reserving for the first `k` calls, the j-th one with entry j mod n. */
  function Paced(log: seq<int>, speed: real, started: int, nows: seq<int>, k: nat): TimestampState
    requires 0.0 < speed && log != [] && k <= |nows|
  {
    if k == 0 then TimestampState(None, started)
    else ReserveAt(Paced(log, speed, started, nows, k - 1), speed, log[(k - 1) % |log|], nows[k - 1])
  }

  function TimestampSlot(log: seq<int>, speed: real, started: int, nows: seq<int>, k: nat): int
    requires 0.0 < speed && log != [] && k < |nows|
  {
    Paced(log, speed, started, nows, k + 1).next
  }

  ghost predicate NonDecreasing(log: seq<int>)
  {
    forall i, j :: 0 <= i < j < |log| ==> log[i] <= log[j]
  }

  /** A log is accepted for timestamp pacing when every entry has a timestamp and none is earlier than the one before. */
  method ValidateTimestamps(stamps: seq<Option<int>>) returns (valid: bool, ghost log: seq<int>)
    ensures valid <==> (forall i :: 0 <= i < |stamps| ==> stamps[i].Some?) &&
                       (forall i, j :: 0 <= i < j < |stamps| ==> stamps[i].value <= stamps[j].value)
    ensures valid ==> NonDecreasing(log) && |log| == |stamps| && forall i :: 0 <= i < |log| ==> stamps[i] == Some(log[i])
  {
    log := [];
    var previous: Option<int> := None;
    for k := 0 to |stamps|
      invariant |log| == k && forall i :: 0 <= i < k ==> stamps[i] == Some(log[i])
      invariant NonDecreasing(log) && previous == (if k == 0 then None else Some(log[k - 1]))
    {
      if stamps[k].None? { return false, []; }
      var timestamp := stamps[k].value;
      if previous.Some? && timestamp < previous.value { return false, []; }
      previous, log := Some(timestamp), log + [timestamp];
    }
    valid := true;
  }

  /** The log gap before position `k` of the endless replay: none at a wrap-around. */
  function Gap(log: seq<int>, k: nat): nat
    requires NonDecreasing(log) && log != []
  {
    var j := k % |log|;
    if j == 0 then 0 else log[j] - log[j - 1]
  }

  /**
   * Slots are never closer than the scaled log gap, exactly that far apart when the call is early,
   * and a wrap-around adds no gap.
   */
  lemma TimestampGaps(log: seq<int>, speed: real, started: int, nows: seq<int>, k: nat)
    requires 0.0 < speed && log != [] && NonDecreasing(log) && k + 1 < |nows|
    ensures var slot := TimestampSlot(log, speed, started, nows, k);
            var following := TimestampSlot(log, speed, started, nows, k + 1);
            var d := Scale(Gap(log, k + 1), speed);
            && Near(d, Gap(log, k + 1), speed, 1) && slot + d <= following
            && following == (if nows[k + 1] <= slot then slot else nows[k + 1]) + d
            && ((k + 1) % |log| == 0 ==> d == 0)
  {
    NextIndex(k, |log|);
    ScaleZero(speed);
    ScaleIsNear(Gap(log, k + 1), speed);
    assert Paced(log, speed, started, nows, k + 1).previous == Some(log[k % |log|]);
  }

  /** The scaled length of the log up to its entry `j`. */
  function Offset(log: seq<int>, speed: real, j: nat): nat
    requires 0.0 < speed && NonDecreasing(log) && j < |log|
  {
    if j == 0 then 0 else Offset(log, speed, j - 1) + Scale(log[j] - log[j - 1], speed)
  }

  /** The log time of the k-th call of an endless replay, with rounds back to back. */
  function LogTime(log: seq<int>, k: nat): int
    requires log != []
  {
    (k / |log|) * (log[|log| - 1] - log[0]) + log[k % |log|] - log[0]
  }

  /** How many gaps have been rounded by then. */
  function Roundings(n: nat, k: nat): int
    requires 0 < n
  {
    k - k / n
  }

  /** The log time moves on by the gap, and a wrap rounds nothing. */
  lemma LogTimeNext(log: seq<int>, k: nat)
    requires log != [] && NonDecreasing(log)
    ensures LogTime(log, k + 1) == LogTime(log, k) + Gap(log, k + 1)
    ensures Roundings(|log|, k + 1) == Roundings(|log|, k) + if (k + 1) % |log| == 0 then 0 else 1
  {
    var n := |log|;
    var q, r := Divide(k, n);
    Quotient(k, n, q, r);
    if r == n - 1 {
      MulNext(q, n);
      Quotient(k + 1, n, q + 1, 0);
      MulNext(q, log[n - 1] - log[0]);
    } else {
      Quotient(k + 1, n, q, r + 1);
    }
  }

  /**
   * When every call is early, the k-th slot is the log time of its call, at the speed of the replay, after the start: but
   * for half a nanosecond at each gap rounded so far.
   */
  lemma {:induction false} EarlyTimes(log: seq<int>, speed: real, started: int, nows: seq<int>, k: nat)
    requires 0.0 < speed && log != [] && NonDecreasing(log) && k < |nows|
    requires nows[0] <= started
    requires forall i: nat :: i + 1 < |nows| ==> nows[i + 1] <= TimestampSlot(log, speed, started, nows, i)
    ensures Near(TimestampSlot(log, speed, started, nows, k) - started, LogTime(log, k), speed, Roundings(|log|, k))
  {
    if k == 0 {
      ScaleZero(speed);
      Quotient(0, |log|, 0, 0);
      assert Paced(log, speed, started, nows, 0) == TimestampState(None, started);
    } else {
      EarlyTimes(log, speed, started, nows, k - 1);
      TimestampGaps(log, speed, started, nows, k - 1);
      NextTime(log, speed, TimestampSlot(log, speed, started, nows, k - 1) - started, k - 1);
    }
  }

  lemma NextTime(log: seq<int>, speed: real, before: int, k: nat)
    requires 0.0 < speed && log != [] && NonDecreasing(log) && Near(before, LogTime(log, k), speed, Roundings(|log|, k))
    ensures Near(before + Scale(Gap(log, k + 1), speed), LogTime(log, k + 1), speed, Roundings(|log|, k + 1))
  {
    LogTimeNext(log, k);
    ScaleZero(speed);
    ScaleIsNear(Gap(log, k + 1), speed);
    var one := if (k + 1) % |log| == 0 then 0 else 1;
    NearAdd(before, LogTime(log, k), Roundings(|log|, k), Scale(Gap(log, k + 1), speed), Gap(log, k + 1), one, speed);
  }

  /** When every call is early, every round repeats the log at the chosen speed, back to back. */
  lemma {:induction false} EarlyRounds(log: seq<int>, speed: real, started: int, nows: seq<int>, k: nat)
    requires 0.0 < speed && log != [] && NonDecreasing(log) && k < |nows|
    requires nows[0] <= started
    requires forall i: nat :: i + 1 < |nows| ==> nows[i + 1] <= TimestampSlot(log, speed, started, nows, i)
    ensures TimestampSlot(log, speed, started, nows, k) ==
            started + (k / |log|) * Offset(log, speed, |log| - 1) + Offset(log, speed, k % |log|)
  {
    var n := |log|;
    if k == 0 {
      ScaleZero(speed);
      Quotient(0, n, 0, 0);
      assert Paced(log, speed, started, nows, 0) == TimestampState(None, started);
    } else {
      EarlyRounds(log, speed, started, nows, k - 1);
      TimestampGaps(log, speed, started, nows, k - 1);
      NextIndex(k - 1, n);
      ScaleZero(speed);
      var q, r := Divide(k - 1, n);
      Quotient(k - 1, n, q, r);
      if r == n - 1 {
        MulNext(q, n);
        Quotient(k, n, q + 1, 0);
        MulNext(q, Offset(log, speed, n - 1));
      } else {
        Quotient(k, n, q, r + 1);
      }
    }
  }

  class TimestampPacer {
    const speed: real
    var state: TimestampState

    constructor (speed: real, started: int)
      ensures this.speed == speed && state == TimestampState(None, started)
    {
      this.speed := speed;
      state := TimestampState(None, started);
    }

    method Reserve(stamp: int, now: int) returns (scheduled: int)
      requires 0.0 < speed
      modifies this
      ensures state == ReserveAt(old(state), speed, stamp, now) && scheduled == state.next
    {
      var gap := 0;
      if state.previous.Some? && stamp >= state.previous.value {
        gap := stamp - state.previous.value;
      }
      var next := Max(state.next, now) + Scale(gap, speed);
      state := TimestampState(Some(stamp), next);
      scheduled := next;
    }
  }

  // ----- reserving under the cursor lock -----

  /** Where a worker is inside `next`: waiting for the lock, holding it, done choosing, or done reserving. */
  datatype Phase = Waiting | Holding | Chose(entry: nat) | Reserved

  datatype Reservation = Reservation(entry: nat, slot: int)

  datatype Allocator = Allocator(
    workers: seq<Phase>, lock: Option<nat>, cursor: nat, pacer: TimestampState,
    nows: seq<int>, reservations: seq<Reservation>)

  /** One worker's turn at a given instant. */
  datatype Turn = Turn(worker: nat, now: int)

  function Idle(workers: nat, started: int): Allocator
  {
    Allocator(seq(workers, _ => Waiting), None, 0, TimestampState(None, started), [], [])
  }

  function Take(a: Allocator, log: seq<int>, speed: real, t: Turn): Allocator
    requires 0.0 < speed && log != []
  {
    if |a.workers| <= t.worker then a
    else match a.workers[t.worker]
      case Waiting =>
        if a.lock.Some? then a else a.(lock := Some(t.worker), workers := a.workers[t.worker := Holding])
      case Holding =>
        a.(workers := a.workers[t.worker := Chose(a.cursor)], cursor := (a.cursor + 1) % |log|)
      case Chose(entry) =>
        var pacer := ReserveAt(a.pacer, speed, log[entry % |log|], t.now);
        a.(workers := a.workers[t.worker := Reserved], pacer := pacer, nows := a.nows + [t.now],
           reservations := a.reservations + [Reservation(entry, pacer.next)])
      case Reserved =>
        a.(lock := None, workers := a.workers[t.worker := Waiting])
  }

  function TakeAll(a: Allocator, log: seq<int>, speed: real, turns: seq<Turn>): Allocator
    requires 0.0 < speed && log != []
  {
    if turns == [] then a
    else Take(TakeAll(a, log, speed, turns[..|turns| - 1]), log, speed, turns[|turns| - 1])
  }

  /** Only the lock holder is past the lock, and the cursor has moved on exactly for its choice. */
  ghost predicate Locked(workers: seq<Phase>, lock: Option<nat>, cursor: nat, current: nat, following: nat)
  {
    && (forall w :: 0 <= w < |workers| ==> (workers[w] != Waiting <==> lock == Some(w)))
    && (forall w :: 0 <= w < |workers| && workers[w].Chose? ==> workers[w].entry == current && cursor == following)
    && ((forall w :: 0 <= w < |workers| ==> !workers[w].Chose?) ==> cursor == current)
  }

  /** The reservations so far are those of one sequential caller. */
  ghost predicate Sequential(a: Allocator, log: seq<int>, speed: real, started: int)
    requires 0.0 < speed && log != []
  {
    var k := |a.reservations|;
    && |a.nows| == k
    && a.pacer == Paced(log, speed, started, a.nows, k)
    && (forall i :: 0 <= i < k ==>
          a.reservations[i] == Reservation(i % |log|, TimestampSlot(log, speed, started, a.nows, i)))
  }

  ghost predicate Orderly(a: Allocator, log: seq<int>, speed: real, started: int)
    requires 0.0 < speed && log != []
  {
    var k := |a.reservations|;
    && Locked(a.workers, a.lock, a.cursor, k % |log|, (k + 1) % |log|)
    && Sequential(a, log, speed, started)
  }

  lemma {:induction false} PacedPrefix(log: seq<int>, speed: real, started: int, nows: seq<int>, more: seq<int>, k: nat)
    requires 0.0 < speed && log != [] && k <= |nows|
    ensures Paced(log, speed, started, nows + more, k) == Paced(log, speed, started, nows, k)
  {
    if 0 < k {
      PacedPrefix(log, speed, started, nows, more, k - 1);
      assert (nows + more)[k - 1] == nows[k - 1];
    }
  }

  lemma ReservationsExtend(log: seq<int>, speed: real, started: int, nows: seq<int>, reservations: seq<Reservation>, now: int)
    requires 0.0 < speed && log != [] && |nows| == |reservations|
    requires forall i :: 0 <= i < |nows| ==>
               reservations[i] == Reservation(i % |log|, TimestampSlot(log, speed, started, nows, i))
    ensures var k := |nows|;
            var pacer := ReserveAt(Paced(log, speed, started, nows, k), speed, log[k % |log|], now);
            var next := reservations + [Reservation(k % |log|, pacer.next)];
            && pacer == Paced(log, speed, started, nows + [now], k + 1)
            && forall i :: 0 <= i < |next| ==>
                 next[i] == Reservation(i % |log|, TimestampSlot(log, speed, started, nows + [now], i))
  {
    var k := |nows|;
    PacedPrefix(log, speed, started, nows, [now], k);
    forall i | 0 <= i < k
      ensures TimestampSlot(log, speed, started, nows + [now], i) == TimestampSlot(log, speed, started, nows, i)
    {
      PacedPrefix(log, speed, started, nows, [now], i + 1);
    }
  }

  lemma ReserveIsSequential(a: Allocator, log: seq<int>, speed: real, started: int, t: Turn)
    requires 0.0 < speed && log != [] && Sequential(a, log, speed, started)
    requires t.worker < |a.workers| && a.workers[t.worker] == Chose(|a.reservations| % |log|)
    ensures Sequential(Take(a, log, speed, t), log, speed, started)
    ensures |Take(a, log, speed, t).reservations| == |a.reservations| + 1
  {
    ReservationsExtend(log, speed, started, a.nows, a.reservations, t.now);
    ModTwice(|a.reservations|, |log|);
  }

  lemma ModTwice(k: nat, n: nat)
    requires 0 < n
    ensures (k % n) % n == k % n && (k % n + 1) % n == (k + 1) % n
  {
    var q, r := Divide(k, n);
    Quotient(k, n, q, r);
    Quotient(r, n, 0, r);
    NextAt(k, n, q, r);
    NextAt(r, n, 0, r);
  }

  /** One turn at the lock: taking it, choosing, reserving, or giving it back. */
  lemma TurnKeepsLock(workers: seq<Phase>, lock: Option<nat>, cursor: nat, current: nat, following: nat, w: nat, next: nat)
    requires Locked(workers, lock, cursor, current, following) && w < |workers|
    ensures workers[w].Waiting? && lock.None? ==>
              Locked(workers[w := Holding], Some(w), cursor, current, following)
    ensures workers[w].Holding? ==>
              cursor == current && Locked(workers[w := Chose(cursor)], lock, following, current, following)
    ensures workers[w].Chose? ==>
              workers[w].entry == current && Locked(workers[w := Reserved], lock, cursor, following, next)
    ensures workers[w].Reserved? ==>
              Locked(workers[w := Waiting], None, cursor, current, following)
  {
  }

  lemma TakeKeepsOrder(a: Allocator, log: seq<int>, speed: real, started: int, t: Turn)
    requires 0.0 < speed && log != [] && Orderly(a, log, speed, started)
    ensures Orderly(Take(a, log, speed, t), log, speed, started)
  {
    if t.worker < |a.workers| {
      var k := |a.reservations|;
      TurnKeepsLock(a.workers, a.lock, a.cursor, k % |log|, (k + 1) % |log|, t.worker, (k + 2) % |log|);
      ModTwice(k, |log|);
      if a.workers[t.worker].Chose? { ReserveIsSequential(a, log, speed, started, t); }
    }
  }

  lemma {:induction false} EveryInterleavingIsOrderly(workers: nat, log: seq<int>, speed: real, started: int, turns: seq<Turn>)
    requires 0.0 < speed && log != []
    ensures Orderly(TakeAll(Idle(workers, started), log, speed, turns), log, speed, started)
  {
    if turns != [] {
      EveryInterleavingIsOrderly(workers, log, speed, started, turns[..|turns| - 1]);
      TakeKeepsOrder(TakeAll(Idle(workers, started), log, speed, turns[..|turns| - 1]), log, speed, started,
                     turns[|turns| - 1]);
    } else {
      Quotient(0, |log|, 0, 0);
    }
  }

  /**
   * In every interleaving of any number of workers the k-th reservation carries entry k mod n, slots never
   * come closer than the scaled log gap, and a wrap-around adds none.
   */
  lemma TimestampOrder(workers: nat, log: seq<int>, speed: real, started: int, turns: seq<Turn>, k: nat)
    requires 0.0 < speed && log != [] && NonDecreasing(log)
    requires k < |TakeAll(Idle(workers, started), log, speed, turns).reservations|
    ensures var a := TakeAll(Idle(workers, started), log, speed, turns);
            && |a.nows| == |a.reservations|
            && a.reservations[k].entry == k % |log|
            && (0 < k ==>
                  a.reservations[k].slot == Max(a.reservations[k - 1].slot, a.nows[k]) + Scale(Gap(log, k), speed))
  {
    EveryInterleavingIsOrderly(workers, log, speed, started, turns);
    var a := TakeAll(Idle(workers, started), log, speed, turns);
    if 0 < k {
      TimestampGaps(log, speed, started, a.nows, k - 1);
    }
  }
}
