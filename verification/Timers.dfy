/**
The period timers: a counter that advances by any number of ticks in closed form, clocked through a
prescaler, and the number of cycles that may pass before a timer reaches its period.
*/
module Timers {
  import opened Wrappers
  import Division

  /** A timer register with its period, its width and its prescaler. */
  datatype Counter = Counter(value: nat, period: nat, maximum: nat, fraction: nat, prescale: nat)

  ghost predicate Valid(t: Counter) {
    t.value <= t.maximum && t.period <= t.maximum && t.fraction < t.prescale
  }

  // ---------------------------------------------------------------------------------------
  // The closed form
  // ---------------------------------------------------------------------------------------

  /** One tick: the counter starts again behind its period, or behind its largest value. */
  function Tick(t: Counter): Counter {
    t.(value := if t.value == t.period || t.value == t.maximum then 0 else t.value + 1)
  }

  function Ticks(t: Counter, n: nat): Counter {
    if n == 0 then t else Tick(Ticks(t, n - 1))
  }

  /** How many of the first `n` ticks bring the counter to its period. */
  function Matches(t: Counter, n: nat): nat {
    if n == 0 then 0 else Matches(t, n - 1) + if Ticks(t, n).value == t.period then 1 else 0
  }

  function FirstMatch(t: Counter): (ticks: nat)
    requires t.value <= t.maximum
    ensures ticks > 0
  {
    if t.value == t.period then t.period + 1
    else if t.value < t.period then t.period - t.value
    else t.maximum - t.value + 1 + t.period
  }

  function FirstReset(t: Counter): nat
    requires t.value <= t.maximum
  {
    if t.value == t.period then 1 else FirstMatch(t) + 1
  }

  datatype Advance = Advance(value: nat, matches: nat)

  function AdvanceCounter(t: Counter, n: nat): Advance
    requires t.value <= t.maximum
  {
    var length := t.period + 1;
    if n == 0 then Advance(t.value, 0)
    else
      var matches := if n >= FirstMatch(t) then 1 + (n - FirstMatch(t)) / length else 0;
      if n < FirstReset(t) then Advance((t.value + n) % (t.maximum + 1), matches)
      else Advance((n - FirstReset(t)) % length, matches)
  }

  /** The counter before it starts again, without a remainder. */
  lemma BeforeReset(t: Counter, n: nat)
    requires t.value <= t.maximum && t.period <= t.maximum && n < FirstReset(t)
    ensures var v := AdvanceCounter(t, n).value;
            && v == (if t.value + n <= t.maximum then t.value + n else t.value + n - t.maximum - 1)
            && (n > 0 ==> (v == t.period <==> n == FirstMatch(t)))
            && (v == t.period && n > 0 ==> n + 1 == FirstReset(t))
  {
    if t.value + n <= t.maximum {
      Division.Unique(t.value + n, t.maximum + 1, 0, t.value + n);
    } else {
      Division.Unique(t.value + n, t.maximum + 1, 1, t.value + n - t.maximum - 1);
    }
  }

  lemma ValueAfterTick(t: Counter, n: nat)
    requires t.value <= t.maximum && t.period <= t.maximum
    ensures AdvanceCounter(t, n + 1).value == Tick(t.(value := AdvanceCounter(t, n).value)).value
  {
    var length, reset := t.period + 1, FirstReset(t);
    Division.Unique(0, length, 0, 0);
    if n + 1 < reset {
      BeforeReset(t, n);
      BeforeReset(t, n + 1);
    } else if n + 1 == reset {
      BeforeReset(t, n);
    } else {
      Division.NextModulo(n - reset, length);
    }
  }

  lemma MatchesAfterTick(t: Counter, n: nat)
    requires t.value <= t.maximum && t.period <= t.maximum
    ensures AdvanceCounter(t, n + 1).matches
         == AdvanceCounter(t, n).matches + if AdvanceCounter(t, n + 1).value == t.period then 1 else 0
  {
    var length, reset, first := t.period + 1, FirstReset(t), FirstMatch(t);
    Division.Unique(0, length, 0, 0);
    if n + 1 < reset {
      BeforeReset(t, n + 1);
    } else {
      if n >= first {
        Division.NextQuotient(n - first, length);
      }
      if t.value == t.period {
        PeriodFromReset(n, length);
      } else {
        Division.NextModulo(n + 1 - reset, length);
      }
    }
  }

  /** Counting from zero, the last number of each round comes one short of a multiple of its length. */
  lemma PeriodFromReset(n: nat, length: nat)
    requires length > 0
    ensures n % length == length - 1 <==> (n + 1) % length == 0
    ensures n + 1 < length ==> n % length != length - 1
    ensures n + 1 >= length ==> (n + 1 - length) % length == (n + 1) % length
  {
    Division.NextModulo(n, length);
    if n + 1 < length {
      Division.Unique(n, length, 0, n);
    } else {
      Division.MultiplesVanish(1, n + 1 - length, length);
    }
  }

  /** The closed form is that many single ticks: the same value, and as many matches of the period. */
  lemma {:induction false} AdvanceCounterIsTicks(t: Counter, n: nat)
    requires t.value <= t.maximum && t.period <= t.maximum
    ensures AdvanceCounter(t, n) == Advance(Ticks(t, n).value, Matches(t, n))
    ensures Ticks(t, n) == t.(value := Ticks(t, n).value) && Ticks(t, n).value <= t.maximum
  {
    hide AdvanceCounter;
    if n == 0 {
      NoAdvance(t);
    } else {
      AdvanceCounterIsTicks(t, n - 1);
      ValueAfterTick(t, n - 1);
      MatchesAfterTick(t, n - 1);
    }
  }

  lemma NoAdvance(t: Counter)
    requires t.value <= t.maximum
    ensures AdvanceCounter(t, 0) == Advance(t.value, 0)
  {
  }

  function TicksUntilPeriod(t: Counter): Option<nat>
    requires t.value <= t.maximum
  {
    if t.period == 0 then None else Some(FirstMatch(t))
  }

  /** The period is reached after exactly so many ticks, and not before. */
  lemma UntilPeriodIsFirstMatch(t: Counter, n: nat)
    requires t.value <= t.maximum && t.period <= t.maximum && TicksUntilPeriod(t).Some?
    ensures var ticks := TicksUntilPeriod(t).value;
            ticks > 0 && (n < ticks ==> Matches(t, n) == 0) && Matches(t, ticks) == 1 && Ticks(t, ticks).value == t.period
  {
    var ticks := TicksUntilPeriod(t).value;
    AdvanceCounterIsTicks(t, n);
    AdvanceCounterIsTicks(t, ticks);
    Division.Unique(0, t.period + 1, 0, 0);
    if ticks < FirstReset(t) {
      BeforeReset(t, ticks);
    } else {
      Division.Unique(t.period, t.period + 1, 0, t.period);
    }
  }

  // ---------------------------------------------------------------------------------------
  // The prescaler
  // ---------------------------------------------------------------------------------------

  function TickCount(t: Counter, clocks: nat): nat
    requires t.prescale > 0
  {
    (t.fraction + clocks) / t.prescale
  }

  function Clocked(t: Counter, clocks: nat): Counter
    requires t.prescale > 0
  {
    Ticks(t, TickCount(t, clocks)).(fraction := (t.fraction + clocks) % t.prescale)
  }

  lemma {:induction false} TicksAdd(t: Counter, m: nat, n: nat)
    ensures Ticks(t, m + n) == Ticks(Ticks(t, m), n)
    ensures Matches(t, m + n) == Matches(t, m) + Matches(Ticks(t, m), n)
    ensures Ticks(t, m).period == t.period && Ticks(t, m).fraction == t.fraction && Ticks(t, m).prescale == t.prescale
  {
    TicksKeep(t, m);
    if n > 0 {
      TicksAdd(t, m, n - 1);
      assert m + n - 1 == m + (n - 1);
    }
  }

  lemma {:induction false} TicksKeep(t: Counter, m: nat)
    ensures Ticks(t, m) == t.(value := Ticks(t, m).value)
  {
    if m > 0 {
      TicksKeep(t, m - 1);
    }
  }

  /** Ticks neither read nor change the fraction. */
  lemma {:induction false} TicksIgnoreFraction(t: Counter, fraction: nat, n: nat)
    ensures Ticks(t.(fraction := fraction), n) == Ticks(t, n).(fraction := fraction)
    ensures Matches(t.(fraction := fraction), n) == Matches(t, n)
  {
    if n > 0 {
      TicksIgnoreFraction(t, fraction, n - 1);
    }
  }

  lemma CountsSplit(t: Counter, first: nat, second: nat)
    requires t.prescale > 0
    ensures var rest := t.(fraction := (t.fraction + first) % t.prescale);
            && TickCount(t, first + second) == TickCount(t, first) + TickCount(rest, second)
            && (t.fraction + first + second) % t.prescale == (rest.fraction + second) % t.prescale
  {
    Division.SumSplits(t.fraction + first, second, t.prescale);
  }

  /** Any span may be cut: the timer ends alike and reaches its period as often. */
  lemma ClockSplits(t: Counter, first: nat, second: nat)
    requires Valid(t)
    ensures Valid(Clocked(t, first)) && Clocked(Clocked(t, first), second) == Clocked(t, first + second)
    ensures Matches(t, TickCount(t, first + second))
         == Matches(t, TickCount(t, first)) + Matches(Clocked(t, first), TickCount(Clocked(t, first), second))
  {
    hide TickCount, Tick, Matches;
    var m, next := TickCount(t, first), Clocked(t, first);
    TicksKeep(t, m);
    var n := TickCount(next, second);
    CountsSplit(t, first, second);
    TickCountIgnoresValue(t, next, second);
    AdvanceCounterIsTicks(t, m);
    TicksAdd(t, m, n);
    TicksIgnoreFraction(Ticks(t, m), next.fraction, n);
  }

  lemma TickCountIgnoresValue(t: Counter, next: Counter, clocks: nat)
    requires t.prescale == next.prescale > 0
    ensures TickCount(t.(fraction := next.fraction), clocks) == TickCount(next, clocks)
  {
  }

  // ---------------------------------------------------------------------------------------
  // How far the device may advance
  // ---------------------------------------------------------------------------------------

  /** A timer that is being clocked or not; output compare channels on its clock may ask for an earlier stop. */
  datatype Timer = Timer(counter: Counter, counting: bool, compare: Option<nat>)

  function StopTicks(t: Timer): (ticks: Option<nat>)
    requires Valid(t.counter)
  {
    var until := TicksUntilPeriod(t.counter);
    if until.Some? && t.compare.Some? then Some(if t.compare.value < until.value then t.compare.value else until.value)
    else if until.Some? then until else t.compare
  }

  /** The cycles after which so many ticks have passed, and not before. */
  lemma CyclesOfTicks(t: Counter, ticks: nat, c: nat)
    requires Valid(t) && ticks > 0
    ensures var cycles := ticks * t.prescale - t.fraction;
            cycles > 0 && (c < cycles <==> TickCount(t, c) < ticks)
            && TickCount(t, cycles) == ticks && (t.fraction + cycles) % t.prescale == 0
  {
    Division.MultipleCrossed(t.fraction, t.prescale, ticks, c);
  }

  /** The timer reaches its period at most once, and only with the last cycle. */
  ghost predicate StopsInTime(t: Counter, cycles: nat)
    requires Valid(t)
  {
    && (forall c: nat :: c < cycles ==> Matches(t, TickCount(t, c)) == 0 || t.period == 0)
    && (Matches(t, TickCount(t, cycles)) <= 1 || t.period == 0)
  }

  lemma ShorterStops(t: Counter, cycles: nat, fewer: nat)
    requires Valid(t) && StopsInTime(t, cycles) && fewer <= cycles
    ensures StopsInTime(t, fewer)
  {
    hide Matches, TickCount;
    assert fewer < cycles ==> Matches(t, TickCount(t, fewer)) == 0 || t.period == 0;
  }

  lemma ShortEnoughStops(t: Counter, cycles: nat)
    requires Valid(t)
    requires TicksUntilPeriod(t).Some? ==> cycles <= TicksUntilPeriod(t).value * t.prescale - t.fraction
    ensures StopsInTime(t, cycles)
  {
    hide TickCount, Matches, Ticks;
    if TicksUntilPeriod(t).Some? {
      var ticks := TicksUntilPeriod(t).value;
      UntilPeriodIsFirstMatch(t, 0);
      forall c: nat | c <= cycles
        ensures Matches(t, TickCount(t, c)) <= 1 && (c < cycles ==> Matches(t, TickCount(t, c)) == 0)
      {
        CyclesOfTicks(t, ticks, c);
        UntilPeriodIsFirstMatch(t, TickCount(t, c));
      }
    }
  }

  lemma StopIsEarlyEnough(t: Timer, cycles: nat)
    requires Valid(t.counter)
    requires StopTicks(t).Some? ==> cycles <= StopTicks(t).value * t.counter.prescale - t.counter.fraction
    ensures StopsInTime(t.counter, cycles)
  {
    if TicksUntilPeriod(t.counter).Some? {
      Division.Monotone(StopTicks(t).value, TicksUntilPeriod(t.counter).value, t.counter.prescale);
    }
    ShortEnoughStops(t.counter, cycles);
  }

  /** No cycle before the last one brings the tick that an output compare channel waits for. */
  ghost predicate KeepsCompare(t: Timer, cycles: nat)
    requires Valid(t.counter)
  {
    t.compare.Some? ==> forall c: nat :: c < cycles ==> TickCount(t.counter, c) < t.compare.value
  }

  lemma ShorterKeepsCompare(t: Timer, cycles: nat, fewer: nat)
    requires Valid(t.counter) && KeepsCompare(t, cycles) && fewer <= cycles
    ensures KeepsCompare(t, fewer)
  {
    hide TickCount;
  }

  lemma StopKeepsCompare(t: Timer, cycles: nat)
    requires Valid(t.counter)
    requires StopTicks(t).Some? ==> cycles <= StopTicks(t).value * t.counter.prescale - t.counter.fraction
    ensures KeepsCompare(t, cycles)
  {
    hide TickCount;
    if t.compare.Some? {
      Division.Monotone(StopTicks(t).value, t.compare.value, t.counter.prescale);
      forall c: nat | c < cycles ensures TickCount(t.counter, c) < t.compare.value {
        CyclesOfTicks(t.counter, t.compare.value, c);
      }
    }
  }

  /** The last of these cycles brings the timer to its period, or to the tick that a channel waits for. */
  ghost predicate StopsAt(t: Timer, cycles: nat)
    requires Valid(t.counter)
  {
    && cycles > 0
    && var before, after := TickCount(t.counter, cycles - 1), TickCount(t.counter, cycles);
       || (t.counter.period > 0 && Matches(t.counter, before) == 0 && Matches(t.counter, after) == 1)
       || (t.compare.Some? && before < t.compare.value == after)
  }

  lemma StopIsReached(t: Timer)
    requires Valid(t.counter) && StopTicks(t).Some? && StopTicks(t).value > 0
    ensures var cycles := StopTicks(t).value * t.counter.prescale - t.counter.fraction;
            cycles > 0 && StopsAt(t, cycles)
  {
    hide TickCount, Matches, Ticks, FirstMatch;
    var stop := StopTicks(t).value;
    CyclesOfTicks(t.counter, stop, 0);
    var cycles := stop * t.counter.prescale - t.counter.fraction;
    CyclesOfTicks(t.counter, stop, cycles - 1);
    if t.compare != Some(stop) {
      UntilPeriodIsFirstMatch(t.counter, TickCount(t.counter, cycles - 1));
    }
  }

  /** Output compare channels never ask for a stop after zero ticks. */
  predicate ComparesAhead(timers: seq<Timer>) {
    forall i :: 0 <= i < |timers| && timers[i].compare.Some? ==> timers[i].compare.value > 0
  }

  /**
  The boundary reported to the event loop: no counting timer passes its period or the tick of an output
  compare channel within it, it ends short of the limit only at such a tick, and it is zero only for a
  limit of zero.
  */
  method BoundaryCycles(timers: seq<Timer>, limit: nat) returns (boundary: nat)
    requires ComparesAhead(timers) && forall i :: 0 <= i < |timers| ==> Valid(timers[i].counter)
    ensures boundary <= limit && (boundary == 0 <==> limit == 0)
    ensures forall i :: 0 <= i < |timers| && timers[i].counting ==> StopsInTime(timers[i].counter, boundary)
    ensures forall i :: 0 <= i < |timers| && timers[i].counting ==> KeepsCompare(timers[i], boundary)
    ensures boundary == limit || exists i :: 0 <= i < |timers| && timers[i].counting && StopsAt(timers[i], boundary)
  {
    hide StopsInTime, KeepsCompare, StopsAt;
    boundary := limit;
    for k := 0 to |timers|
      invariant boundary <= limit && (boundary == 0 <==> limit == 0)
      invariant forall i :: 0 <= i < k && timers[i].counting && StopTicks(timers[i]).Some?
                            ==> boundary <= StopTicks(timers[i]).value * timers[i].counter.prescale - timers[i].counter.fraction
      invariant boundary == limit
                || exists i :: 0 <= i < k && timers[i].counting && StopsAt(timers[i], boundary)
    {
      var t := timers[k];
      if t.counting {
        var ticks := StopTicks(t);
        if ticks.Some? {
          StopIsReached(t);
          var cycles := ticks.value * t.counter.prescale - t.counter.fraction;
          if cycles < boundary {
            boundary := cycles;
          }
        }
      }
    }
    forall i | 0 <= i < |timers| && timers[i].counting
      ensures StopsInTime(timers[i].counter, boundary) && KeepsCompare(timers[i], boundary)
    {
      StopIsEarlyEnough(timers[i], boundary);
      StopKeepsCompare(timers[i], boundary);
    }
  }

  // ---------------------------------------------------------------------------------------
  // Signals
  // ---------------------------------------------------------------------------------------

  function Sum(spans: seq<nat>): nat {
    if spans == [] then 0 else spans[0] + Sum(spans[1..])
  }

  /** One signal for each advance with a match in it, however many matches there are; none with a period of zero. */
  function Signals(t: Counter, spans: seq<nat>): nat
    requires Valid(t)
    decreases |spans|
  {
    if spans == [] then 0
    else
      ClockSplits(t, spans[0], 0);
      (if t.period > 0 && Matches(t, TickCount(t, spans[0])) > 0 then 1 else 0) + Signals(Clocked(t, spans[0]), spans[1..])
  }

  /** No advance passes two matches. */
  ghost predicate OneMatchEach(t: Counter, spans: seq<nat>)
    requires Valid(t)
    decreases |spans|
  {
    spans == []
    || (ClockSplits(t, spans[0], 0);
        Matches(t, TickCount(t, spans[0])) <= 1 && OneMatchEach(Clocked(t, spans[0]), spans[1..]))
  }

  /** Every advance keeps to the boundary of its time. */
  ghost predicate WithinBoundaries(t: Counter, spans: seq<nat>)
    requires Valid(t)
    decreases |spans|
  {
    spans == []
    || (ClockSplits(t, spans[0], 0);
        StopsInTime(t, spans[0]) && WithinBoundaries(Clocked(t, spans[0]), spans[1..]))
  }

  /** The advances signal every match of the period exactly if none passes two of them. */
  lemma {:induction false} SignalsAreMatchesExactly(t: Counter, spans: seq<nat>)
    requires Valid(t)
    ensures Signals(t, spans) <= Matches(t, TickCount(t, Sum(spans)))
    ensures t.period > 0 ==> (Signals(t, spans) == Matches(t, TickCount(t, Sum(spans))) <==> OneMatchEach(t, spans))
    ensures t.period == 0 ==> Signals(t, spans) == 0
    decreases |spans|
  {
    hide TickCount, Matches, Ticks;
    if spans == [] {
      NoClocks(t);
    } else {
      TicksKeep(t, TickCount(t, spans[0]));
      ClockSplits(t, spans[0], Sum(spans[1..]));
      SignalsAreMatchesExactly(Clocked(t, spans[0]), spans[1..]);
    }
  }

  /** Advances that keep to the boundaries do: each match is signalled once. */
  lemma {:induction false} BoundedAdvancesSignal(t: Counter, spans: seq<nat>)
    requires Valid(t) && t.period > 0 && WithinBoundaries(t, spans)
    ensures OneMatchEach(t, spans) && Signals(t, spans) == Matches(t, TickCount(t, Sum(spans)))
    decreases |spans|
  {
    hide TickCount, Matches, Ticks;
    SignalsAreMatchesExactly(t, spans);
    if spans != [] {
      TicksKeep(t, TickCount(t, spans[0]));
      ClockSplits(t, spans[0], 0);
      BoundedAdvancesSignal(Clocked(t, spans[0]), spans[1..]);
    }
  }

  lemma NoClocks(t: Counter)
    requires Valid(t)
    ensures TickCount(t, 0) == 0 && Matches(t, 0) == 0
  {
    Division.Unique(t.fraction, t.prescale, 0, t.fraction);
  }

  // ---------------------------------------------------------------------------------------
  // The timer
  // ---------------------------------------------------------------------------------------

  class TimerUnit {
    const period: nat
    const maximum: nat
    const prescale: nat
    var value: nat
    var fraction: nat

    function View(): Counter
      reads this
    {
      Counter(value, period, maximum, fraction, prescale)
    }

    constructor (period: nat, maximum: nat, prescale: nat)
      requires period <= maximum && prescale > 0
      ensures Valid(View()) && View() == Counter(0, period, maximum, 0, prescale)
    {
      this.period, this.maximum, this.prescale := period, maximum, prescale;
      value, fraction := 0, 0;
    }

    method AdvanceTicks(ticks: nat)
      requires Valid(View())
      modifies this`value
      ensures View() == Ticks(old(View()), ticks) && Valid(View())
    {
      AdvanceCounterIsTicks(View(), ticks);
      value := AdvanceCounter(View(), ticks).value;
    }

    /** Clocks the timer in steps that other units on its clock cut; a cut does not show. */
    method ClockTimer(clocks: nat, cuts: seq<nat>)
      requires Valid(View()) && forall i :: 0 <= i < |cuts| ==> cuts[i] > 0
      modifies this
      ensures View() == Clocked(old(View()), clocks) && Valid(View())
    {
      hide Ticks;
      ghost var before := View();
      var accumulated := fraction + clocks;
      var remaining := accumulated / prescale;
      fraction := accumulated % prescale;
      ghost var all, done := remaining, 0;
      ghost var start := View();
      TicksIgnoreFraction(before, fraction, all);
      TicksAdd(start, 0, 0);
      NoTicks(start);
      var turn := 0;
      while remaining != 0
        invariant 0 <= remaining <= all && 0 <= turn && done == all - remaining
        invariant View() == Ticks(start, done) && Valid(View())
        decreases remaining
      {
        var step := remaining;
        if turn < |cuts| && cuts[turn] < step {
          step := cuts[turn];
        }
        TicksAdd(start, done, step);
        AdvanceTicks(step);
        remaining := remaining - step;
        done := done + step;
        turn := turn + 1;
      }
    }
  }

  lemma NoTicks(t: Counter)
    ensures Ticks(t, 0) == t
  {
  }
}
