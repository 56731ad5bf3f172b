/**
The PWM time bases: each counts subcycles, two to a device cycle, into ticks of a prescaled clock,
and stamps every tick with the device cycle it falls in.
*/
module Pwm {
  import Division

  /** The registers of a time base; they do not change during an advance. */
  datatype Config = Config(divider: nat, period: nat, syncOutput: bool, immediatePeriod: bool)

  /** The master counter of a time base, the subcycles since its last tick, and the number of its ticks so far. */
  datatype Base = Base(fraction: nat, counter: nat, activePeriod: nat, syncUntil: nat, ticked: nat)

  const SYNC_CYCLES: nat := 12

  ghost predicate ValidBase(cfg: Config, b: Base) {
    b.fraction < cfg.divider
  }

  /** One tick: the counter folds at its period, and a fold raises the sync output and latches the period. */
  function Tick(cfg: Config, b: Base, stamp: nat): Base {
    if b.counter >= b.activePeriod then
      b.(counter := 0, ticked := b.ticked + 1,
         syncUntil := if cfg.syncOutput then stamp + SYNC_CYCLES else b.syncUntil,
         activePeriod := if cfg.immediatePeriod then b.activePeriod else cfg.period)
    else
      b.(counter := b.counter + 1, ticked := b.ticked + 1)
  }

  function Ticks(cfg: Config, b: Base, stamps: seq<nat>): Base {
    if stamps == [] then b else Tick(cfg, Ticks(cfg, b, stamps[..|stamps| - 1]), stamps[|stamps| - 1])
  }

  function TickCount(divider: nat, fraction: nat, cycles: nat): nat
    requires divider > 0
  {
    (fraction + 2 * cycles) / divider
  }

  function FractionAfter(divider: nat, fraction: nat, cycles: nat): (f: nat)
    requires divider > 0
    ensures f < divider
  {
    (fraction + 2 * cycles) % divider
  }

  /** The subcycles of an advance up to the tick that follows `i` others. */
  function Elapsed(divider: nat, fraction: nat, i: nat): nat
    requires fraction < divider
  {
    Division.Monotone(1, i + 1, divider);
    (i + 1) * divider - fraction
  }

  lemma ElapsedGrows(divider: nat, fraction: nat, i: nat)
    requires fraction < divider
    ensures Elapsed(divider, fraction, 0) == divider - fraction
    ensures Elapsed(divider, fraction, i + 1) == Elapsed(divider, fraction, i) + divider
  {
    Division.Distributes(i + 1, 1, divider);
  }

  /** The cycle of the tick that follows `i` others in an advance that starts at cycle `start`. */
  function Stamp(divider: nat, fraction: nat, start: nat, i: nat): nat
    requires fraction < divider
  {
    start + (Elapsed(divider, fraction, i) + 1) / 2
  }

  function Stamps(divider: nat, fraction: nat, start: nat, cycles: nat): (stamps: seq<nat>)
    requires fraction < divider
    ensures |stamps| == TickCount(divider, fraction, cycles)
  {
    seq(TickCount(divider, fraction, cycles), i requires i >= 0 => Stamp(divider, fraction, start, i))
  }

  /** An advance of one time base by `cycles` device cycles that begin at cycle `start`. */
  function Advance(cfg: Config, b: Base, start: nat, cycles: nat): Base
    requires ValidBase(cfg, b)
  {
    Ticks(cfg, b, Stamps(cfg.divider, b.fraction, start, cycles)).(fraction := FractionAfter(cfg.divider, b.fraction, cycles))
  }

  // ---------------------------------------------------------------------------------------
  // Cutting a span
  // ---------------------------------------------------------------------------------------

  lemma CountsSplit(divider: nat, fraction: nat, first: nat, second: nat)
    requires fraction < divider
    ensures var rest := FractionAfter(divider, fraction, first);
            && TickCount(divider, fraction, first + second)
               == TickCount(divider, fraction, first) + TickCount(divider, rest, second)
            && FractionAfter(divider, fraction, first + second) == FractionAfter(divider, rest, second)
    ensures fraction + 2 * first == TickCount(divider, fraction, first) * divider + FractionAfter(divider, fraction, first)
  {
    assert fraction + 2 * (first + second) == fraction + 2 * first + 2 * second;
    Division.SumSplits(fraction + 2 * first, 2 * second, divider);
  }

  lemma StampsSplitAt(divider: nat, fraction: nat, start: nat, first: nat, i: nat)
    requires fraction < divider
    ensures var n := TickCount(divider, fraction, first);
            Stamp(divider, fraction, start, n + i) == Stamp(divider, FractionAfter(divider, fraction, first), start + first, i)
  {
    var n, rest := TickCount(divider, fraction, first), FractionAfter(divider, fraction, first);
    CountsSplit(divider, fraction, first, 0);
    Division.Distributes(n, i + 1, divider);
    assert (n + i + 1) * divider - fraction == (i + 1) * divider - rest + 2 * first;
  }

  /** The stamps of a span are those of its first part, then those of its second part. */
  lemma StampsSplit(divider: nat, fraction: nat, start: nat, first: nat, second: nat)
    requires fraction < divider
    ensures Stamps(divider, fraction, start, first + second)
         == Stamps(divider, fraction, start, first) + Stamps(divider, FractionAfter(divider, fraction, first), start + first, second)
  {
    hide Stamp, TickCount, FractionAfter;
    CountsSplit(divider, fraction, first, second);
    var n, rest := TickCount(divider, fraction, first), FractionAfter(divider, fraction, first);
    var whole := Stamps(divider, fraction, start, first + second);
    var parts := Stamps(divider, fraction, start, first) + Stamps(divider, rest, start + first, second);
    forall k: nat | k < |whole| ensures whole[k] == parts[k] {
      if k >= n {
        StampsSplitAt(divider, fraction, start, first, k - n);
      }
    }
  }

  lemma {:induction false} TicksAppend(cfg: Config, b: Base, first: seq<nat>, second: seq<nat>)
    ensures Ticks(cfg, b, first + second) == Ticks(cfg, Ticks(cfg, b, first), second)
  {
    if second == [] {
      assert first + second == first;
    } else {
      assert (first + second)[..|first + second| - 1] == first + second[..|second| - 1];
      TicksAppend(cfg, b, first, second[..|second| - 1]);
    }
  }

  lemma {:induction false} TicksAreCounted(cfg: Config, b: Base, stamps: seq<nat>)
    ensures Ticks(cfg, b, stamps).ticked == b.ticked + |stamps|
  {
    if stamps != [] {
      TicksAreCounted(cfg, b, stamps[..|stamps| - 1]);
    }
  }

  /** Ticks neither read nor change the fraction. */
  lemma {:induction false} TicksIgnoreFraction(cfg: Config, b: Base, stamps: seq<nat>, fraction: nat)
    ensures Ticks(cfg, b.(fraction := fraction), stamps) == Ticks(cfg, b, stamps).(fraction := fraction)
  {
    if stamps != [] {
      TicksIgnoreFraction(cfg, b, stamps[..|stamps| - 1], fraction);
    }
  }

  lemma AdvanceSplits(cfg: Config, b: Base, start: nat, first: nat, second: nat)
    requires ValidBase(cfg, b)
    ensures Advance(cfg, Advance(cfg, b, start, first), start + first, second) == Advance(cfg, b, start, first + second)
  {
    hide Stamps, TickCount, FractionAfter, Tick;
    var rest := FractionAfter(cfg.divider, b.fraction, first);
    var early := Stamps(cfg.divider, b.fraction, start, first);
    var late := Stamps(cfg.divider, rest, start + first, second);
    StampsSplit(cfg.divider, b.fraction, start, first, second);
    CountsSplit(cfg.divider, b.fraction, first, second);
    TicksAppend(cfg, b, early, late);
    TicksIgnoreFraction(cfg, Ticks(cfg, b, early), late, rest);
    TicksIgnoreFraction(cfg, Ticks(cfg, b, early), late, FractionAfter(cfg.divider, rest, second));
  }

  // ---------------------------------------------------------------------------------------
  // When ticks fall, and what they count
  // ---------------------------------------------------------------------------------------

  /** A tick is stamped with the cycle in which its subcycle ends, counted from the last tick before the span. */
  lemma StampsFallInSpan(divider: nat, fraction: nat, start: nat, cycles: nat, i: nat)
    requires fraction < divider && i < TickCount(divider, fraction, cycles)
    ensures var stamp := Stamp(divider, fraction, start, i);
            && start < stamp <= start + cycles
            && 2 * (stamp - start) - 1 <= Elapsed(divider, fraction, i) <= 2 * (stamp - start)
  {
    CountsSplit(divider, fraction, cycles, 0);
    Division.Monotone(i + 1, TickCount(divider, fraction, cycles), divider);
    Division.Monotone(1, i + 1, divider);
  }

  /** With a settled period, the master counter counts modulo the period plus one. */
  lemma {:induction false} MasterCounts(cfg: Config, b: Base, stamps: seq<nat>)
    requires b.activePeriod == cfg.period && b.counter <= cfg.period
    ensures var c := Ticks(cfg, b, stamps);
            c.activePeriod == cfg.period && c.counter == (b.counter + |stamps|) % (cfg.period + 1)
  {
    if stamps == [] {
      Division.Unique(b.counter, cfg.period + 1, 0, b.counter);
    } else {
      MasterCounts(cfg, b, stamps[..|stamps| - 1]);
      Division.NextModulo(b.counter + |stamps| - 1, cfg.period + 1);
    }
  }

  /** The tick that follows `k` others folds the master counter. */
  predicate FoldsAt(b: Base, k: nat) {
    (b.counter + k + 1) % (b.activePeriod + 1) == 0
  }

  /** The sync output stays up for twelve cycles from the stamp of the last fold. */
  lemma {:induction false} LastFoldSetsSync(cfg: Config, b: Base, stamps: seq<nat>, j: nat)
    requires b.activePeriod == cfg.period && b.counter <= cfg.period && cfg.syncOutput && j < |stamps|
    requires FoldsAt(b, j) && forall k: nat :: j < k < |stamps| ==> !FoldsAt(b, k)
    ensures Ticks(cfg, b, stamps).syncUntil == stamps[j] + SYNC_CYCLES
  {
    var last := |stamps| - 1;
    MasterCounts(cfg, b, stamps[..last]);
    Division.NextModulo(b.counter + last, cfg.period + 1);
    if j < last {
      assert !FoldsAt(b, last);
      LastFoldSetsSync(cfg, b, stamps[..last], j);
    }
  }

  /** The ticks up to and with the first fold, at the period that is active now. */
  function FirstFold(b: Base): (ticks: nat)
    ensures ticks > 0
  {
    if b.counter < b.activePeriod then b.activePeriod - b.counter + 1 else 1
  }

  /** The period from the first fold on: the register, unless periods are taken over at once and not at a fold. */
  function LatchedPeriod(cfg: Config, b: Base): nat {
    if cfg.immediatePeriod then b.activePeriod else cfg.period
  }

  /** Tick number `n`, counted from one, is the first fold or whole rounds of the latched period behind it. */
  predicate FoldsOn(cfg: Config, b: Base, n: nat) {
    n >= FirstFold(b) && (n - FirstFold(b)) % (LatchedPeriod(cfg, b) + 1) == 0
  }

  /**
  Whatever period the register has by now: the counter runs through the active one to its first fold,
  and counts modulo the latched one from there on.
  */
  lemma {:induction false} PeriodTakesOver(cfg: Config, b: Base, stamps: seq<nat>)
    ensures var c := Ticks(cfg, b, stamps);
            if |stamps| < FirstFold(b) then c.counter == b.counter + |stamps| && c.activePeriod == b.activePeriod
            else && c.counter == (|stamps| - FirstFold(b)) % (LatchedPeriod(cfg, b) + 1)
                 && c.activePeriod == LatchedPeriod(cfg, b)
  {
    if stamps != [] {
      var n, length := |stamps|, LatchedPeriod(cfg, b) + 1;
      PeriodTakesOver(cfg, b, stamps[..n - 1]);
      if n == FirstFold(b) {
        Division.Unique(0, length, 0, 0);
      } else if n > FirstFold(b) {
        Division.NextModulo(n - 1 - FirstFold(b), length);
      }
    }
  }

  /** With the output enabled, the sync end is twelve cycles behind the stamp of the last fold; without a fold it stays. */
  lemma {:induction false} SyncFollowsFolds(cfg: Config, b: Base, stamps: seq<nat>, j: nat)
    requires j <= |stamps| && (j == 0 || FoldsOn(cfg, b, j)) && forall k: nat :: j < k <= |stamps| ==> !FoldsOn(cfg, b, k)
    ensures Ticks(cfg, b, stamps).syncUntil == if cfg.syncOutput && j > 0 then stamps[j - 1] + 12 else b.syncUntil
  {
    if stamps != [] {
      var n := |stamps|;
      PeriodTakesOver(cfg, b, stamps[..n - 1]);
      TickFolds(cfg, b, stamps);
      if j < n {
        assert !FoldsOn(cfg, b, n);
        SyncFollowsFolds(cfg, b, stamps[..n - 1], j);
      } else if !cfg.syncOutput {
        SyncStays(cfg, b, stamps);
      }
    }
  }

  lemma TickFolds(cfg: Config, b: Base, stamps: seq<nat>)
    requires stamps != []
    ensures var before := Ticks(cfg, b, stamps[..|stamps| - 1]);
            FoldsOn(cfg, b, |stamps|) <==> before.counter >= before.activePeriod
  {
    var n, length := |stamps|, LatchedPeriod(cfg, b) + 1;
    PeriodTakesOver(cfg, b, stamps[..n - 1]);
    if n == FirstFold(b) {
      Division.Unique(0, length, 0, 0);
    } else if n > FirstFold(b) {
      Division.NextModulo(n - 1 - FirstFold(b), length);
    }
  }

  lemma {:induction false} SyncStays(cfg: Config, b: Base, stamps: seq<nat>)
    requires !cfg.syncOutput
    ensures Ticks(cfg, b, stamps).syncUntil == b.syncUntil
  {
    if stamps != [] {
      SyncStays(cfg, b, stamps[..|stamps| - 1]);
    }
  }

  // ---------------------------------------------------------------------------------------
  // Independent counters
  // ---------------------------------------------------------------------------------------

  datatype Counter = Counter(value: int, descending: bool)

  /** One tick of a counter of its own, and whether it is a cycle boundary. */
  function CounterTick(c: Counter, period: nat, centerAligned: bool): (Counter, bool) {
    if !centerAligned then
      if c.value >= period then (c.(value := 0), true) else (c.(value := c.value + 1), false)
    else if period == 0 then (c.(value := 0), true)
    else if !c.descending then
      if c.value >= period then (Counter(c.value - 1, true), false) else (c.(value := c.value + 1), false)
    else if c.value <= 1 then (Counter(0, false), true)
    else (c.(value := c.value - 1), false)
  }

  function CounterAfter(period: nat, centerAligned: bool, ticks: nat): Counter {
    if ticks == 0 then Counter(0, false)
    else CounterTick(CounterAfter(period, centerAligned, ticks - 1), period, centerAligned).0
  }

  /** Whether the tick after `ticks` others is a cycle boundary. */
  function BoundaryAfter(period: nat, centerAligned: bool, ticks: nat): bool {
    CounterTick(CounterAfter(period, centerAligned, ticks), period, centerAligned).1
  }

  /** Up to `period` and down again: the counter after `m` ticks from zero. */
  function Triangle(period: nat, m: nat): Counter {
    if m <= period then Counter(m, false) else Counter(2 * period - m, true)
  }

  /** A centre-aligned counter with a period of at least two runs through a triangle of twice the period. */
  lemma {:induction false} CentreAlignedIsTriangle(period: nat, ticks: nat)
    requires period >= 2
    ensures CounterAfter(period, true, ticks) == Triangle(period, ticks % (2 * period))
    ensures BoundaryAfter(period, true, ticks) <==> (ticks + 1) % (2 * period) == 0
  {
    hide CounterTick, Triangle;
    TriangleTicks(period, ticks % (2 * period));
    Division.NextModulo(ticks, 2 * period);
    if ticks == 0 {
      TriangleStarts(period);
      Division.Unique(0, 2 * period, 0, 0);
    } else {
      CentreAlignedIsTriangle(period, ticks - 1);
      TriangleTicks(period, (ticks - 1) % (2 * period));
      Division.NextModulo(ticks - 1, 2 * period);
    }
  }

  /** An edge-aligned counter counts modulo the period plus one; without a period every tick of either kind is a boundary. */
  lemma {:induction false} EdgeAlignedCounts(period: nat, ticks: nat)
    ensures CounterAfter(period, false, ticks) == Counter(ticks % (period + 1), false)
    ensures BoundaryAfter(period, false, ticks) <==> (ticks + 1) % (period + 1) == 0
    ensures CounterAfter(0, true, ticks) == Counter(0, false) && BoundaryAfter(0, true, ticks)
  {
    if ticks == 0 {
      Division.Unique(0, period + 1, 0, 0);
    } else {
      EdgeAlignedCounts(period, ticks - 1);
      Division.NextModulo(ticks - 1, period + 1);
    }
    Division.NextModulo(ticks, period + 1);
  }

  lemma TriangleStarts(period: nat)
    ensures Triangle(period, 0) == Counter(0, false)
  {
  }

  lemma TriangleTicks(period: nat, m: nat)
    requires period >= 2 && m < 2 * period
    ensures CounterTick(Triangle(period, m), period, true)
         == (Triangle(period, if m + 1 == 2 * period then 0 else m + 1), m + 1 == 2 * period)
  {
  }

  /** A centre-aligned period of one takes three ticks, not two: zero is counted down to and then left. */
  lemma PeriodOneTakesThreeTicks(ticks: nat)
    ensures BoundaryAfter(1, true, ticks) <==> (ticks + 1) % 3 == 0
  {
    PeriodOneCycle(ticks);
  }

  lemma {:induction false} PeriodOneCycle(ticks: nat)
    ensures CounterAfter(1, true, ticks)
         == if ticks % 3 == 0 then Counter(0, false) else if ticks % 3 == 1 then Counter(1, false) else Counter(0, true)
  {
    if ticks > 0 {
      PeriodOneCycle(ticks - 1);
    }
  }

  class IndependentCounter {
    var value: nat
    var descending: bool

    constructor ()
      ensures Counter(value, descending) == CounterAfter(0, true, 0)
    {
      value, descending := 0, false;
    }

    method AdvanceOne(period: nat, centerAligned: bool) returns (boundary: bool)
      modifies this
      ensures (Counter(value, descending), boundary) == CounterTick(old(Counter(value, descending)), period, centerAligned)
    {
      if !centerAligned {
        if value >= period {
          value := 0;
          return true;
        }
        value := value + 1;
        return false;
      }
      if period == 0 {
        value := 0;
        return true;
      }
      if !descending {
        if value >= period {
          descending := true;
          value := value - 1;
        } else {
          value := value + 1;
        }
        return false;
      }
      if value <= 1 {
        value := 0;
        descending := false;
        return true;
      }
      value := value - 1;
      return false;
    }
  }

  // ---------------------------------------------------------------------------------------
  // The unit: both time bases and the blanking counters of the generators
  // ---------------------------------------------------------------------------------------

  /** A generator: the time base that drives it, its module-disable bit, its leading-edge blanking time. */
  datatype Generator = Generator(base: nat, disabled: bool, blankingTime: nat)

  /**
  The registers, and which ticks of its time base give a generator an output edge that starts
  blanking. The waveforms themselves are not part of this model.
  */
  datatype Settings = Settings(bases: seq<Config>, generators: seq<Generator>, edge: (nat, nat) -> bool)

  datatype Event = Event(base: nat, stamp: nat)

  /** `order` is every tick so far, as the unit carried them out. */
  datatype Unit = Unit(bases: seq<Base>, blanking: seq<nat>, order: seq<Event>)

  ghost predicate ValidUnit(st: Settings, u: Unit) {
    && |st.bases| == |u.bases| == 2 && ValidBase(st.bases[0], u.bases[0]) && ValidBase(st.bases[1], u.bases[1])
    && |u.blanking| == |st.generators| && forall g :: 0 <= g < |st.generators| ==> st.generators[g].base < 2
  }

  function Tagged(base: nat, stamps: seq<nat>): seq<Event> {
    seq(|stamps|, i requires 0 <= i < |stamps| => Event(base, stamps[i]))
  }

  function StampsOf(st: Settings, u: Unit, start: nat, cycles: nat, t: nat): seq<nat>
    requires ValidUnit(st, u) && t < 2
  {
    Stamps(st.bases[t].divider, u.bases[t].fraction, start, cycles)
  }

  /** Generator `g` has an edge in one of the `count` ticks from number `first` on. */
  predicate EdgeWithin(st: Settings, g: nat, first: nat, count: nat) {
    exists n :: first <= n < first + count && st.edge(g, n)
  }

  function CountedDown(blanking: nat, cycles: nat): nat {
    if blanking > 2 * cycles then blanking - 2 * cycles else 0
  }

  /** An advance first counts a blanking counter down, by two a cycle; an edge in it then loads the counter again. */
  function BlankingAfter(st: Settings, u: Unit, cycles: nat, g: nat): nat
    requires ValidUnit(st, u) && g < |u.blanking|
  {
    var gen := st.generators[g];
    var b := u.bases[gen.base];
    if gen.disabled then u.blanking[g]
    else if EdgeWithin(st, g, b.ticked, TickCount(st.bases[gen.base].divider, b.fraction, cycles)) then gen.blankingTime
    else CountedDown(u.blanking[g], cycles)
  }

  /** An advance ticks the first time base through the span, then the second one. */
  function AdvanceUnit(st: Settings, u: Unit, start: nat, cycles: nat): (v: Unit)
    requires ValidUnit(st, u)
    ensures ValidUnit(st, v)
  {
    Unit([Advance(st.bases[0], u.bases[0], start, cycles), Advance(st.bases[1], u.bases[1], start, cycles)],
         seq(|u.blanking|, g requires 0 <= g < |u.blanking| => BlankingAfter(st, u, cycles, g)),
         u.order + Tagged(0, StampsOf(st, u, start, cycles, 0)) + Tagged(1, StampsOf(st, u, start, cycles, 1)))
  }

  function Sum(spans: seq<nat>): nat {
    if spans == [] then 0 else Sum(spans[..|spans| - 1]) + spans[|spans| - 1]
  }

  function AdvanceUnitAll(st: Settings, u: Unit, start: nat, spans: seq<nat>): (v: Unit)
    requires ValidUnit(st, u)
    ensures ValidUnit(st, v)
  {
    if spans == [] then u
    else
      var last := |spans| - 1;
      AdvanceUnit(st, AdvanceUnitAll(st, u, start, spans[..last]), start + Sum(spans[..last]), spans[last])
  }

  /** The stamps of one time base among the ticks of both. */
  function Of(events: seq<Event>, base: nat): seq<nat> {
    if events == [] then []
    else Of(events[..|events| - 1], base) + if events[|events| - 1].base == base then [events[|events| - 1].stamp] else []
  }

  lemma {:induction false} OfAppends(a: seq<Event>, b: seq<Event>, base: nat)
    ensures Of(a + b, base) == Of(a, base) + Of(b, base)
  {
    if b == [] {
      assert a + b == a;
    } else {
      assert (a + b)[..|a + b| - 1] == a + b[..|b| - 1];
      OfAppends(a, b[..|b| - 1], base);
    }
  }

  lemma {:induction false} OfTagged(tag: nat, stamps: seq<nat>, base: nat)
    ensures Of(Tagged(tag, stamps), base) == if tag == base then stamps else []
  {
    if stamps != [] {
      assert Tagged(tag, stamps)[..|stamps| - 1] == Tagged(tag, stamps[..|stamps| - 1]);
      OfTagged(tag, stamps[..|stamps| - 1], base);
    }
  }

  lemma AdvanceUnitTicks(st: Settings, u: Unit, start: nat, cycles: nat, t: nat)
    requires ValidUnit(st, u) && t < 2
    ensures Of(AdvanceUnit(st, u, start, cycles).order, t) == Of(u.order, t) + StampsOf(st, u, start, cycles, t)
  {
    hide Advance, Stamps, Of, Tagged;
    var first, second := Tagged(0, StampsOf(st, u, start, cycles, 0)), Tagged(1, StampsOf(st, u, start, cycles, 1));
    OfAppends(u.order + first, second, t);
    OfAppends(u.order, first, t);
    OfTagged(0, StampsOf(st, u, start, cycles, 0), t);
    OfTagged(1, StampsOf(st, u, start, cycles, 1), t);
  }

  /** Equal time bases, and for each time base the same ticks in the same order. */
  ghost predicate AlikePerBase(u: Unit, v: Unit) {
    u.bases == v.bases && forall t: nat :: t < 2 ==> Of(u.order, t) == Of(v.order, t)
  }

  lemma TicksSplit(st: Settings, u: Unit, v: Unit, start: nat, first: nat, second: nat, t: nat)
    requires ValidUnit(st, u) && ValidUnit(st, v) && AlikePerBase(v, AdvanceUnit(st, u, start, first)) && t < 2
    ensures Of(AdvanceUnit(st, v, start + first, second).order, t) == Of(AdvanceUnit(st, u, start, first + second).order, t)
  {
    hide Advance, Stamps, Of, Tagged, FractionAfter, BlankingAfter;
    AdvanceUnitTicks(st, u, start, first, t);
    AdvanceUnitTicks(st, v, start + first, second, t);
    AdvanceUnitTicks(st, u, start, first + second, t);
    StampsSplit(st.bases[t].divider, u.bases[t].fraction, start, first, second);
    AdvanceLeavesFraction(st.bases[t], u.bases[t], start, first);
  }

  lemma AdvanceUnitSplits(st: Settings, u: Unit, v: Unit, start: nat, first: nat, second: nat)
    requires ValidUnit(st, u) && ValidUnit(st, v) && AlikePerBase(v, AdvanceUnit(st, u, start, first))
    ensures AlikePerBase(AdvanceUnit(st, v, start + first, second), AdvanceUnit(st, u, start, first + second))
  {
    hide Advance, Stamps, Of, Tagged, FractionAfter, BlankingAfter;
    TicksSplit(st, u, v, start, first, second, 0);
    TicksSplit(st, u, v, start, first, second, 1);
    AdvanceSplits(st.bases[0], u.bases[0], start, first, second);
    AdvanceSplits(st.bases[1], u.bases[1], start, first, second);
  }

  lemma AdvanceLeavesFraction(cfg: Config, b: Base, start: nat, cycles: nat)
    requires ValidBase(cfg, b)
    ensures Advance(cfg, b, start, cycles).fraction == FractionAfter(cfg.divider, b.fraction, cycles)
  {
  }

  /** However a span is cut into advances, the time bases end alike, and each of them ticks alike. */
  lemma {:induction false} CutsDoNotShow(st: Settings, u: Unit, start: nat, spans: seq<nat>)
    requires ValidUnit(st, u)
    ensures AlikePerBase(AdvanceUnitAll(st, u, start, spans), AdvanceUnit(st, u, start, Sum(spans)))
  {
    hide AdvanceUnit, AlikePerBase;
    if spans == [] {
      NothingAdvances(st, u, start);
    } else {
      var last := |spans| - 1;
      CutsDoNotShow(st, u, start, spans[..last]);
      AdvanceUnitSplits(st, u, AdvanceUnitAll(st, u, start, spans[..last]), start, Sum(spans[..last]), spans[last]);
    }
  }

  lemma NothingAdvances(st: Settings, u: Unit, start: nat)
    requires ValidUnit(st, u)
    ensures AdvanceUnit(st, u, start, 0) == u && AlikePerBase(u, u)
  {
    hide Stamps, Advance;
    NoTicks(st.bases[0], u.bases[0], start);
    NoTicks(st.bases[1], u.bases[1], start);
    assert u.order + [] + [] == u.order;
    forall g | 0 <= g < |u.blanking| ensures BlankingAfter(st, u, 0, g) == u.blanking[g] {
      var b := u.bases[st.generators[g].base];
      Division.Unique(b.fraction, st.bases[st.generators[g].base].divider, 0, b.fraction);
    }
  }

  lemma NoTicks(cfg: Config, b: Base, start: nat)
    requires ValidBase(cfg, b)
    ensures Stamps(cfg.divider, b.fraction, start, 0) == [] && Advance(cfg, b, start, 0) == b
  {
    Division.Unique(b.fraction, cfg.divider, 0, b.fraction);
    assert Stamps(cfg.divider, b.fraction, start, 0) == [];
  }

  // Two time bases at the full rate, with nothing else in the unit.

  function FullRate(): Settings {
    Settings([Config(2, 0, false, false), Config(2, 0, false, false)], [], (g, n) => false)
  }

  function AtRest(): (u: Unit)
    ensures ValidUnit(FullRate(), u)
  {
    Unit([Base(0, 0, 0, 0, 0), Base(0, 0, 0, 0, 0)], [], [])
  }

  lemma FullRateTicks(u: Unit, start: nat, cycles: nat)
    requires ValidUnit(FullRate(), u) && u.bases[0].fraction == u.bases[1].fraction == 0 && 1 <= cycles <= 2
    ensures var v := AdvanceUnit(FullRate(), u, start, cycles);
            && v.bases[0].fraction == v.bases[1].fraction == 0
            && StampsOf(FullRate(), u, start, cycles, 0) == StampsOf(FullRate(), u, start, cycles, 1)
            && StampsOf(FullRate(), u, start, cycles, 0) == if cycles == 1 then [start + 1] else [start + 1, start + 2]
  {
    var stamps := Stamps(2, 0, start, cycles);
    assert stamps == if cycles == 1 then [start + 1] else [start + 1, start + 2];
    AdvanceLeavesFraction(FullRate().bases[0], u.bases[0], start, cycles);
    AdvanceLeavesFraction(FullRate().bases[1], u.bases[1], start, cycles);
  }

  /**
  Across the time bases the order of the ticks shows a cut, unless the second time base has no tick
  before it or the first one has none after it.
  */
  lemma OrderShowsCutExactly(st: Settings, u: Unit, start: nat, first: nat, second: nat)
    requires ValidUnit(st, u)
    ensures var early := AdvanceUnit(st, u, start, first);
            AdvanceUnit(st, early, start + first, second).order == AdvanceUnit(st, u, start, first + second).order
            <==> StampsOf(st, u, start, first, 1) == [] || StampsOf(st, early, start + first, second, 0) == []
  {
    hide Advance, Stamps, FractionAfter, BlankingAfter;
    var early := AdvanceUnit(st, u, start, first);
    AdvanceLeavesFraction(st.bases[0], u.bases[0], start, first);
    AdvanceLeavesFraction(st.bases[1], u.bases[1], start, first);
    StampsSplit(st.bases[0].divider, u.bases[0].fraction, start, first, second);
    StampsSplit(st.bases[1].divider, u.bases[1].fraction, start, first, second);
    var a, c := StampsOf(st, u, start, first, 0), StampsOf(st, early, start + first, second, 0);
    var b, d := StampsOf(st, u, start, first, 1), StampsOf(st, early, start + first, second, 1);
    var cut := u.order + Tagged(0, a) + Tagged(1, b) + Tagged(0, c) + Tagged(1, d);
    var whole := u.order + Tagged(0, a + c) + Tagged(1, b + d);
    assert Tagged(0, a + c) == Tagged(0, a) + Tagged(0, c) && Tagged(1, b + d) == Tagged(1, b) + Tagged(1, d);
    if b != [] && c != [] {
      var i := |u.order| + |a|;
      assert cut[i] == Tagged(1, b)[0] && whole[i] == Tagged(0, c)[0];
    } else {
      assert cut == whole;
    }
  }

  /** The simplest cut that shows: two cycles at the full rate, in one advance and in two. */
  lemma OrderDependsOnCuts()
    ensures AdvanceUnit(FullRate(), AtRest(), 0, 2).order == [Event(0, 1), Event(0, 2), Event(1, 1), Event(1, 2)]
    ensures var early := AdvanceUnit(FullRate(), AtRest(), 0, 1);
            AdvanceUnit(FullRate(), early, 1, 1).order == [Event(0, 1), Event(1, 1), Event(0, 2), Event(1, 2)]
  {
    hide Advance, BlankingAfter, StampsOf, FullRate;
    FullRateTicks(AtRest(), 0, 2);
    FullRateTicks(AtRest(), 0, 1);
    FullRateTicks(AdvanceUnit(FullRate(), AtRest(), 0, 1), 1, 1);
  }

  // ---------------------------------------------------------------------------------------
  // Blanking does show the cuts
  // ---------------------------------------------------------------------------------------

  lemma AdvanceCountsTicks(cfg: Config, b: Base, start: nat, cycles: nat)
    requires ValidBase(cfg, b)
    ensures Advance(cfg, b, start, cycles).ticked == b.ticked + TickCount(cfg.divider, b.fraction, cycles)
  {
    TicksAreCounted(cfg, b, Stamps(cfg.divider, b.fraction, start, cycles));
  }

  /** The number of ticks that the time base of `g` has had after `cycles` cycles. */
  function TickedAfter(st: Settings, u: Unit, g: nat, cycles: nat): nat
    requires ValidUnit(st, u) && g < |u.blanking|
  {
    var t := st.generators[g].base;
    u.bases[t].ticked + TickCount(st.bases[t].divider, u.bases[t].fraction, cycles)
  }

  /** `g` has an edge between `from` and `to` cycles after the start. */
  predicate EdgeBetween(st: Settings, u: Unit, g: nat, from: nat, to: nat)
    requires ValidUnit(st, u) && g < |u.blanking|
  {
    exists n :: TickedAfter(st, u, g, from) <= n < TickedAfter(st, u, g, to) && st.edge(g, n)
  }

  /** No time passes between the end of the span that holds the last edge of `g` and the end of the spans. */
  predicate KeepsLastEdge(st: Settings, u: Unit, g: nat, spans: seq<nat>)
    requires ValidUnit(st, u) && g < |u.blanking|
  {
    spans == []
    || EdgeBetween(st, u, g, Sum(spans[..|spans| - 1]), Sum(spans))
    || (spans[|spans| - 1] == 0 && KeepsLastEdge(st, u, g, spans[..|spans| - 1]))
  }

  /** An advance in the middle of a span, as seen from the start of the span. */
  lemma BlankingOfSpan(st: Settings, u: Unit, v: Unit, start: nat, first: nat, second: nat, g: nat)
    requires ValidUnit(st, u) && ValidUnit(st, v) && g < |u.blanking|
    requires v.bases == AdvanceUnit(st, u, start, first).bases
    ensures AdvanceUnit(st, v, start + first, second).blanking[g]
         == if st.generators[g].disabled then v.blanking[g]
            else if EdgeBetween(st, u, g, first, first + second) then st.generators[g].blankingTime
            else CountedDown(v.blanking[g], second)
    ensures TickedAfter(st, u, g, 0) <= TickedAfter(st, u, g, first) <= TickedAfter(st, u, g, first + second)
  {
    hide Advance, Stamps, TickCount, FractionAfter, Tagged;
    var t := st.generators[g].base;
    AdvanceCountsTicks(st.bases[t], u.bases[t], start, first);
    AdvanceLeavesFraction(st.bases[t], u.bases[t], start, first);
    CountsSplit(st.bases[t].divider, u.bases[t].fraction, first, second);
    CountsSplit(st.bases[t].divider, u.bases[t].fraction, 0, first);
    NoTicks(st.bases[t], u.bases[t], start);
  }

  /** A blanking counter loses both subcycles of every cycle, down to zero, unless an edge of its generator reloads it. */
  lemma BlankingCountsSubcycles(st: Settings, u: Unit, start: nat, cycles: nat, g: nat)
    requires ValidUnit(st, u) && g < |u.blanking|
    ensures var left := AdvanceUnit(st, u, start, cycles).blanking[g];
            if st.generators[g].disabled then left == u.blanking[g]
            else if EdgeBetween(st, u, g, 0, cycles) then left == st.generators[g].blankingTime
            else left == if u.blanking[g] > 2 * cycles then u.blanking[g] - 2 * cycles else 0
  {
    hide AdvanceUnit, TickedAfter, EdgeBetween;
    NothingAdvances(st, u, start);
    BlankingOfSpan(st, u, u, start, 0, cycles, g);
  }

  /** What the advances leave: the blanking time if it was loaded and no time has passed since, less otherwise. */
  lemma {:induction false} BlankingOfCut(st: Settings, u: Unit, start: nat, spans: seq<nat>, g: nat)
    requires ValidUnit(st, u) && g < |u.blanking| && !st.generators[g].disabled && st.generators[g].blankingTime > 0
    ensures var left := AdvanceUnitAll(st, u, start, spans).blanking[g];
            if EdgeBetween(st, u, g, 0, Sum(spans)) then
              left <= st.generators[g].blankingTime
              && (left == st.generators[g].blankingTime <==> KeepsLastEdge(st, u, g, spans))
            else
              left == CountedDown(u.blanking[g], Sum(spans))
  {
    hide AdvanceUnit, TickedAfter;
    if spans != [] {
      var last := |spans| - 1;
      var before := spans[..last];
      BlankingOfCut(st, u, start, before, g);
      CutsDoNotShow(st, u, start, before);
      BlankingOfSpan(st, u, AdvanceUnitAll(st, u, start, before), start, Sum(before), spans[last], g);
    }
  }

  /**
  The blanking counter of a generator does not show how a span was cut exactly when it is disabled or
  has no blanking time, when it has no edge in the span, or when no time passes after the advance
  that holds its last edge.
  */
  lemma BlankingShowsCutExactly(st: Settings, u: Unit, start: nat, spans: seq<nat>, g: nat)
    requires ValidUnit(st, u) && g < |u.blanking|
    ensures AdvanceUnitAll(st, u, start, spans).blanking[g] == AdvanceUnit(st, u, start, Sum(spans)).blanking[g]
       <==> st.generators[g].disabled || st.generators[g].blankingTime == 0
            || !EdgeBetween(st, u, g, 0, Sum(spans)) || KeepsLastEdge(st, u, g, spans)
  {
    hide AdvanceUnit, TickedAfter;
    NothingAdvances(st, u, start);
    BlankingOfSpan(st, u, u, start, 0, Sum(spans), g);
    if st.generators[g].disabled || st.generators[g].blankingTime == 0 {
      UnloadedBlanking(st, u, start, spans, g);
    } else {
      BlankingOfCut(st, u, start, spans, g);
    }
  }

  lemma {:induction false} UnloadedBlanking(st: Settings, u: Unit, start: nat, spans: seq<nat>, g: nat)
    requires ValidUnit(st, u) && g < |u.blanking|
    requires st.generators[g].disabled || st.generators[g].blankingTime == 0
    ensures AdvanceUnitAll(st, u, start, spans).blanking[g]
         == if st.generators[g].disabled then u.blanking[g]
            else if EdgeBetween(st, u, g, 0, Sum(spans)) then 0 else CountedDown(u.blanking[g], Sum(spans))
  {
    hide AdvanceUnit, TickedAfter;
    if spans != [] {
      var last := |spans| - 1;
      var before := spans[..last];
      UnloadedBlanking(st, u, start, before, g);
      CutsDoNotShow(st, u, start, before);
      BlankingOfSpan(st, u, AdvanceUnitAll(st, u, start, before), start, Sum(before), spans[last], g);
    }
  }

  /** After the edges of one tick, or of several, of time base `t`. */
  function Reloaded(st: Settings, blanking: seq<nat>, t: nat, first: nat, count: nat): seq<nat>
    requires |blanking| == |st.generators|
  {
    seq(|blanking|, g requires 0 <= g < |blanking| =>
      if st.generators[g].base == t && !st.generators[g].disabled && EdgeWithin(st, g, first, count)
      then st.generators[g].blankingTime else blanking[g])
  }

  lemma ReloadedGrows(st: Settings, blanking: seq<nat>, t: nat, first: nat, count: nat)
    requires |blanking| == |st.generators|
    ensures Reloaded(st, blanking, t, first, 0) == blanking
    ensures Reloaded(st, Reloaded(st, blanking, t, first, count), t, first + count, 1)
         == Reloaded(st, blanking, t, first, count + 1)
  {
    var last := first + count;
    forall g: nat ensures EdgeWithin(st, g, first, count + 1) <==> EdgeWithin(st, g, first, count) || EdgeWithin(st, g, last, 1)
    {
      assert EdgeWithin(st, g, last, 1) <==> st.edge(g, last);
    }
  }

  lemma TaggedGrows(t: nat, stamps: seq<nat>, k: nat)
    requires k <= |stamps|
    ensures Tagged(t, stamps[..0]) == []
    ensures k < |stamps| ==> Tagged(t, stamps[..k + 1]) == Tagged(t, stamps[..k]) + [Event(t, stamps[k])]
  {
  }

  lemma NoTickYet(cfg: Config, b: Base, stamps: seq<nat>)
    ensures Ticks(cfg, b, stamps[..0]) == b
  {
  }

  lemma TicksGrow(cfg: Config, b: Base, stamps: seq<nat>, k: nat)
    requires k < |stamps|
    ensures Ticks(cfg, b, stamps[..k + 1]) == Tick(cfg, Ticks(cfg, b, stamps[..k]), stamps[k])
  {
    assert stamps[..k + 1][..k] == stamps[..k];
  }

  class PwmUnit {
    const settings: Settings
    const bases: array<Base>
    const blanking: array<nat>
    ghost var order: seq<Event>

    ghost function View(): Unit
      reads this, bases, blanking
    {
      Unit(bases[..], blanking[..], order)
    }

    constructor (settings: Settings)
      requires |settings.bases| == 2 && settings.bases[0].divider > 0 && settings.bases[1].divider > 0
      requires forall g :: 0 <= g < |settings.generators| ==> settings.generators[g].base < 2
      ensures this.settings == settings && ValidUnit(settings, View()) && fresh(bases) && fresh(blanking)
    {
      this.settings := settings;
      bases := new Base[2](_ => Base(0, 0, 0, 0, 0));
      blanking := new nat[|settings.generators|](_ => 0);
      order := [];
    }

    method TickBase(t: nat, stamp: nat)
      requires t < bases.Length && t < |settings.bases| && blanking.Length == |settings.generators|
      modifies this, bases, blanking
      ensures bases[..] == old(bases[..])[t := Tick(settings.bases[t], old(bases[t]), stamp)]
      ensures blanking[..] == Reloaded(settings, old(blanking[..]), t, old(bases[t]).ticked, 1)
      ensures order == old(order) + [Event(t, stamp)]
    {
      var b := bases[t];
      if b.counter >= b.activePeriod {
        b := b.(counter := 0);
        if settings.bases[t].syncOutput {
          b := b.(syncUntil := stamp + SYNC_CYCLES);
        }
        if !settings.bases[t].immediatePeriod {
          b := b.(activePeriod := settings.bases[t].period);
        }
      } else {
        b := b.(counter := b.counter + 1);
      }
      for g := 0 to blanking.Length
        invariant forall i :: 0 <= i < g ==> blanking[i] == Reloaded(settings, old(blanking[..]), t, b.ticked, 1)[i]
        invariant forall i :: g <= i < blanking.Length ==> blanking[i] == old(blanking[i])
        invariant bases[..] == old(bases[..]) && order == old(order)
      {
        assert EdgeWithin(settings, g, b.ticked, 1) <==> settings.edge(g, b.ticked);
        if settings.generators[g].base == t && !settings.generators[g].disabled && settings.edge(g, b.ticked) {
          blanking[g] := settings.generators[g].blankingTime;
        }
      }
      bases[t] := b.(ticked := b.ticked + 1);
      order := order + [Event(t, stamp)];
    }

    method AdvanceBase(t: nat, deviceCycles: nat, cycles: nat)
      requires t < 2 && ValidUnit(settings, View()) && cycles <= deviceCycles
      modifies this, bases, blanking
      ensures blanking[..] == Reloaded(settings, old(blanking[..]), t, old(bases[t]).ticked,
                                       TickCount(settings.bases[t].divider, old(bases[t]).fraction, cycles))
      ensures bases[..] == old(bases[..])[t := Advance(settings.bases[t], old(bases[t]), deviceCycles - cycles, cycles)]
      ensures order == old(order) + Tagged(t, StampsOf(settings, old(View()), deviceCycles - cycles, cycles, t))
    {
      hide Tick, TickCount, FractionAfter, Tagged, Ticks, Elapsed, Reloaded;
      var divider := settings.bases[t].divider;
      var previous := bases[t].fraction;
      var ticks := TickCount(divider, previous, cycles);
      ghost var b, start := bases[t], deviceCycles - cycles;
      ghost var stamps := Stamps(divider, previous, start, cycles);
      var elapsed := divider - previous;
      var after := FractionAfter(divider, previous, cycles);
      bases[t] := bases[t].(fraction := after);
      TaggedGrows(t, stamps, 0);
      NoTickYet(settings.bases[t], bases[t], stamps);
      ReloadedGrows(settings, blanking[..], t, b.ticked, 0);
      ElapsedGrows(divider, previous, 0);
      ghost var k: nat := 0;
      while ticks != 0
        invariant 0 <= k <= |stamps| && ticks == |stamps| - k
        invariant elapsed == Elapsed(divider, previous, k)
        invariant bases[..] == old(bases[..])[t := Ticks(settings.bases[t], b.(fraction := after), stamps[..k])]
        invariant blanking[..] == Reloaded(settings, old(blanking[..]), t, b.ticked, k)
        invariant order == old(order) + Tagged(t, stamps[..k])
        decreases ticks
      {
        var cycle := deviceCycles - cycles + (elapsed + 1) / 2;
        assert cycle == stamps[k];
        TaggedGrows(t, stamps, k);
        ElapsedGrows(divider, previous, k);
        TicksGrow(settings.bases[t], b.(fraction := after), stamps, k);
        TicksAreCounted(settings.bases[t], b.(fraction := after), stamps[..k]);
        ReloadedGrows(settings, old(blanking[..]), t, b.ticked, k);
        TickBase(t, cycle);
        elapsed := elapsed + divider;
        ticks := ticks - 1;
        k := k + 1;
      }
      assert stamps[..k] == stamps;
      TicksIgnoreFraction(settings.bases[t], b, stamps, after);
    }

    method AdvancePwm(powered: bool, deviceCycles: nat, cycles: nat)
      requires ValidUnit(settings, View()) && cycles <= deviceCycles
      modifies this, bases, blanking
      ensures View() == if powered then AdvanceUnit(settings, old(View()), deviceCycles - cycles, cycles) else old(View())
    {
      hide Advance, Stamps, Tagged;
      if !powered || cycles == 0 {
        NothingAdvances(settings, View(), deviceCycles - cycles);
        return;
      }
      var subcycles := 2 * cycles;
      ghost var before := View();
      for g := 0 to blanking.Length
        invariant bases[..] == old(bases[..]) && order == old(order)
        invariant forall i :: 0 <= i < g ==> blanking[i] == if settings.generators[i].disabled then before.blanking[i]
                                                            else CountedDown(before.blanking[i], cycles)
        invariant forall i :: g <= i < blanking.Length ==> blanking[i] == before.blanking[i]
      {
        if !settings.generators[g].disabled {
          if blanking[g] > subcycles {
            blanking[g] := blanking[g] - subcycles;
          } else {
            blanking[g] := 0;
          }
        }
      }
      AdvanceLeavesFraction(settings.bases[0], bases[0], deviceCycles - cycles, cycles);
      AdvanceBase(0, deviceCycles, cycles);
      AdvanceBase(1, deviceCycles, cycles);
      assert View().blanking == AdvanceUnit(settings, before, deviceCycles - cycles, cycles).blanking;
    }
  }
}
