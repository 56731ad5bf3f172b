/**
When the input-capture clock, which advances by many cycles at a time, does what it would do when
called once for every cycle.
*/
module InputCaptureClock {
  import opened InputCapture

  ghost predicate Agrees(cfg: Config, s: State, source: nat, cycles: nat)
    requires ValidConfig(cfg) && ValidState(s)
  {
    Advance(cfg, s, source, cycles) == CycleByCycle(cfg, s, source, cycles)
  }

  // ---------------------------------------------------------------------------------------
  // Units: single channels, and 32-bit pairs
  // ---------------------------------------------------------------------------------------

  predicate UnitHeld(cfg: Config, outputs: set<nat>, c: nat)
    requires ValidConfig(cfg) && c < CHANNEL_COUNT
  {
    Held(cfg, outputs, c) || (PairConfigured(cfg, c) && Held(cfg, outputs, Partner(c)))
  }

  predicate UnitRunning(cfg: Config, triggered: set<nat>, c: nat)
    requires ValidConfig(cfg) && c < CHANNEL_COUNT
  {
    if PairConfigured(cfg, c) then PairRunning(cfg, triggered, c - c % 2) else Running(cfg, triggered, c)
  }

  /** The unit of `c` runs on this clock and is not held. */
  predicate Counting(cfg: Config, s: State, source: nat, c: nat)
    requires ValidConfig(cfg) && c < CHANNEL_COUNT
  {
    Clocked(cfg, source, c) && UnitRunning(cfg, s.triggered, c) && !UnitHeld(cfg, s.outputs, c)
  }

  /** Timer `c` of a unit that has counted `count` cycles, from zero or from where it stood. */
  function Counted(cfg: Config, timer: seq<nat>, c: nat, zeroed: bool, count: nat): nat
    requires ValidConfig(cfg) && c < CHANNEL_COUNT && |timer| == CHANNEL_COUNT
  {
    if PairConfigured(cfg, c) then
      var first := c - c % 2;
      var value := (if zeroed then 0 else PairValue(timer[first], timer[first + 1])) + count;
      var wrapped := value % 0x1_0000_0000;
      if c == first then wrapped % 0x1_0000 else wrapped / 0x1_0000
    else ((if zeroed then 0 else timer[c]) + count) % 0x1_0000
  }

  /** What a step does to one timer. */
  lemma StepOf(cfg: Config, s: State, source: nat, n: nat, c: nat)
    requires ValidConfig(cfg) && ValidState(s) && c < CHANNEL_COUNT && n > 0
    ensures var reset := ResetPending(cfg, s, c);
            StepTimer(cfg, s, source, n, c)
              == if !Clocked(cfg, source, c) then s.timer[c]
                 else if UnitHeld(cfg, s.outputs, c) then 0
                 else if !UnitRunning(cfg, s.triggered, c) then if reset then 0 else s.timer[c]
                 else Counted(cfg, s.timer, c, reset, if reset then n - 1 else n)
  {
    hide Held, PairRunning, Running, Clocked;
    assert c % 2 == 1 ==> c - c % 2 == Partner(c) && c - c % 2 + 1 == c;
    assert c % 2 == 0 ==> c - c % 2 == c && Partner(c) == c + 1;
  }

  /** No unit that counts has an output that changes before `n` cycles. */
  ghost predicate Fits(cfg: Config, s: State, source: nat, n: nat)
    requires ValidConfig(cfg) && ValidState(s)
  {
    forall c: nat :: c < SYNC_CHANNEL_COUNT && Counting(cfg, s, source, c)
                     ==> SyncTransition(cfg, s, source, c).After? && n <= SyncTransition(cfg, s, source, c).cycles
  }

  lemma CountingHasTransition(cfg: Config, s: State, source: nat, c: nat)
    requires ValidConfig(cfg) && ValidState(s) && c < SYNC_CHANNEL_COUNT && Counting(cfg, s, source, c)
    ensures SyncTransition(cfg, s, source, c)
         == After(if PairConfigured(cfg, c) then WordsTransition(s.timer[c - c % 2], s.timer[c - c % 2 + 1], c % 2 == 1)
                  else if s.timer[c] == TIMER_TOP then 1 else TIMER_TOP - s.timer[c])
    ensures PairConfigured(cfg, c) ==> Counting(cfg, s, source, c - c % 2) && Counting(cfg, s, source, c - c % 2 + 1)
  {
    hide Held, Operating;
    assert c % 2 == 1 ==> c - c % 2 == Partner(c) && c - c % 2 + 1 == c;
    assert c % 2 == 0 ==> c - c % 2 == c && Partner(c) == c + 1 && Partner(c + 1) == c;
  }

  /** Cycles until the lower or the upper word of a pair can change the output of its half. */
  function WordsTransition(low: nat, high: nat, upper: bool): int {
    if !upper then if low == TIMER_TOP then 1 else TIMER_TOP - low
    else if high == TIMER_TOP then 0x1_0000 - low else (TIMER_TOP - high) * 0x1_0000 - low
  }

  /** Before its transition a timer is at the top only if it was. */
  lemma TopBeforeTransition(cfg: Config, s: State, source: nat, c: nat, k: nat)
    requires ValidConfig(cfg) && ValidState(s) && c < SYNC_CHANNEL_COUNT && Counting(cfg, s, source, c)
    requires k < SyncTransition(cfg, s, source, c).cycles
    ensures Counted(cfg, s.timer, c, false, k) == TIMER_TOP <==> s.timer[c] == TIMER_TOP
  {
    hide SyncTransition, Counting, PairConfigured;
    CountingHasTransition(cfg, s, source, c);
    if PairConfigured(cfg, c) {
      PairCounts(s.timer[c - c % 2], s.timer[c - c % 2 + 1], k);
    }
  }

  /** The words of a pair after `k` cycles without wrapping round. */
  lemma PairCounts(low: nat, high: nat, k: nat)
    requires low <= TIMER_TOP && high <= TIMER_TOP
    ensures low + k <= TIMER_TOP ==>
              var w := (PairValue(low, high) + k) % 0x1_0000_0000;
              w % 0x1_0000 == low + k && w / 0x1_0000 == high
    ensures low + high * 0x1_0000 + k < 0x1_0000_0000 ==>
              var w := (PairValue(low, high) + k) % 0x1_0000_0000;
              w == low + high * 0x1_0000 + k
  {
  }

  /** A timer that starts from zero does not reach the top within such a span. */
  lemma ZeroedBelowTop(cfg: Config, s: State, source: nat, c: nat, n: nat, count: nat)
    requires ValidConfig(cfg) && ValidState(s) && c < SYNC_CHANNEL_COUNT && Counting(cfg, s, source, c)
    requires Fits(cfg, s, source, n) && count < n
    ensures Counted(cfg, s.timer, c, true, count) < TIMER_TOP
  {
    hide SyncTransition, Counting, PairConfigured;
    CountingHasTransition(cfg, s, source, c);
    if PairConfigured(cfg, c) {
      CountingHasTransition(cfg, s, source, c - c % 2);
      PairCounts(0, 0, count);
    }
  }

  /** A step sets the timer of `c` to zero before it counts, if it counts at all. */
  predicate Dropped(cfg: Config, s: State, source: nat, c: nat)
    requires ValidConfig(cfg) && ValidState(s) && c < CHANNEL_COUNT
  {
    Clocked(cfg, source, c) && (UnitHeld(cfg, s.outputs, c) || ResetPending(cfg, s, c))
  }

  lemma TopAfterStep(cfg: Config, s: State, source: nat, c: nat, n: nat, k: nat)
    requires ValidConfig(cfg) && ValidState(s) && c < SYNC_CHANNEL_COUNT && Fits(cfg, s, source, n) && 1 <= k < n
    ensures StepTimer(cfg, s, source, k, c) == TIMER_TOP <==> s.timer[c] == TIMER_TOP && !Dropped(cfg, s, source, c)
  {
    hide StepTimer, SyncTransition, UnitHeld, UnitRunning, Clocked, ResetPending, Counted;
    StepOf(cfg, s, source, k, c);
    if Counting(cfg, s, source, c) {
      if ResetPending(cfg, s, c) {
        ZeroedBelowTop(cfg, s, source, c, n, k - 1);
      } else {
        TopBeforeTransition(cfg, s, source, c, k);
      }
    }
  }

  /** The outputs that still have their own reason to be high once a step has set timers to zero. */
  function Remaining(cfg: Config, s: State, source: nat): (base: set<nat>)
    requires ValidConfig(cfg) && ValidState(s)
    ensures base <= Base(cfg, s.timer, s.triggered) <= SyncChannels()
  {
    set c: nat | 0 <= c < SYNC_CHANNEL_COUNT && BaseHigh(cfg, s.timer[c], s.triggered, c)
                 && (Dropped(cfg, s, source, c) ==> BaseHigh(cfg, 0, s.triggered, c))
  }

  lemma BaseAfterStep(cfg: Config, s: State, source: nat, n: nat, k: nat)
    requires ValidConfig(cfg) && ValidState(s) && Fits(cfg, s, source, n) && 1 <= k < n
    ensures Base(cfg, Step(cfg, s, source, k).timer, s.triggered) == Remaining(cfg, s, source)
  {
    hide StepTimer, Dropped, Fits;
    forall c: nat | c < SYNC_CHANNEL_COUNT
      ensures c in Base(cfg, Step(cfg, s, source, k).timer, s.triggered) <==> c in Remaining(cfg, s, source)
    {
      TopAfterStep(cfg, s, source, c, n, k);
    }
  }

  /** The outputs left after the first cycle of a step, and those that fall in it. */
  function Low(cfg: Config, s: State, source: nat): (low: set<nat>)
    requires ValidConfig(cfg) && ValidState(s)
    ensures low <= SyncChannels()
  {
    Closure(cfg, Remaining(cfg, s, source))
  }

  function Falls(cfg: Config, s: State, source: nat): set<nat>
    requires ValidConfig(cfg) && ValidState(s)
  {
    s.outputs - Low(cfg, s, source)
  }

  lemma ClosureGrows(cfg: Config, base: set<nat>, wider: set<nat>)
    requires ValidConfig(cfg) && base <= wider <= SyncChannels()
    ensures Closure(cfg, base) <= Closure(cfg, wider)
  {
    hide Closure;
    ClosureIsLeast(cfg, wider, Closure(cfg, wider));
    ClosureIsLeast(cfg, base, Closure(cfg, wider));
  }

  /** One cycle of a longer step: outputs only fall, and nothing is triggered. */
  function FirstCycle(cfg: Config, s: State, source: nat): (t: State)
    requires ValidConfig(cfg) && ValidState(s)
    ensures ValidState(t)
  {
    Step(cfg, s, source, 1).(outputs := Low(cfg, s, source))
  }

  lemma FirstCycleOfStep(cfg: Config, s: State, source: nat, n: nat)
    requires ValidConfig(cfg) && ValidState(s) && Settled(cfg, s) && Fits(cfg, s, source, n) && n >= 2
    ensures Low(cfg, s, source) <= s.outputs
    ensures Refresh(cfg, Step(cfg, s, source, 1)) == FirstCycle(cfg, s, source) && Settled(cfg, FirstCycle(cfg, s, source))
  {
    hide Closure, StepTimer, Fits, Remaining;
    BaseAfterStep(cfg, s, source, n, 1);
    ClosureGrows(cfg, Remaining(cfg, s, source), Base(cfg, s.timer, s.triggered));
  }

  // ---------------------------------------------------------------------------------------
  // The rest of a step
  // ---------------------------------------------------------------------------------------

  /** The unit of `c` would count if it were not held. */
  predicate WouldCount(cfg: Config, s: State, source: nat, c: nat)
    requires ValidConfig(cfg) && ValidState(s) && c < CHANNEL_COUNT
  {
    Clocked(cfg, source, c) && UnitRunning(cfg, s.triggered, c) && UnitHeld(cfg, s.outputs, c)
  }

  /** No such unit is released when the outputs fall to `low`. */
  ghost predicate NoRelease(cfg: Config, s: State, source: nat, low: set<nat>)
    requires ValidConfig(cfg) && ValidState(s)
  {
    forall c: nat :: c < CHANNEL_COUNT && WouldCount(cfg, s, source, c) ==> UnitHeld(cfg, low, c)
  }

  lemma HeldByFewer(cfg: Config, low: set<nat>, outputs: set<nat>, c: nat)
    requires ValidConfig(cfg) && low <= outputs && c < CHANNEL_COUNT
    ensures UnitHeld(cfg, low, c) ==> UnitHeld(cfg, outputs, c)
  {
  }

  lemma WordAgain(value: nat, first: nat, count: nat)
    ensures ((value + first) % 0x1_0000 + count) % 0x1_0000 == (value + (first + count)) % 0x1_0000
  {
  }

  lemma WordsOfPair(w: nat)
    ensures PairValue(w % 0x1_0000, w / 0x1_0000) == w
  {
  }

  lemma PairAgain(value: nat, first: nat, count: nat)
    ensures var w := (value + first) % 0x1_0000_0000;
            (PairValue(w % 0x1_0000, w / 0x1_0000) + count) % 0x1_0000_0000 == (value + (first + count)) % 0x1_0000_0000
  {
    hide PairValue;
    WordsOfPair((value + first) % 0x1_0000_0000);
  }

  /** One cycle, then `count` more without a reset, is one longer count. */
  lemma CountedAgain(cfg: Config, timer: seq<nat>, next: seq<nat>, c: nat, zeroed: bool, first: nat, count: nat)
    requires ValidConfig(cfg) && c < CHANNEL_COUNT && |timer| == |next| == CHANNEL_COUNT
    requires next[c] == Counted(cfg, timer, c, zeroed, first)
    requires PairConfigured(cfg, c) ==> next[Partner(c)] == Counted(cfg, timer, Partner(c), zeroed, first)
    ensures Counted(cfg, next, c, false, count) == Counted(cfg, timer, c, zeroed, first + count)
  {
    hide PairValue;
    if PairConfigured(cfg, c) {
      assert c % 2 == 1 ==> c - c % 2 == Partner(c) && c - c % 2 + 1 == c;
      assert c % 2 == 0 ==> c - c % 2 == c && Partner(c) == c + 1;
      PairAgain(if zeroed then 0 else PairValue(timer[c - c % 2], timer[c - c % 2 + 1]), first, count);
    } else {
      WordAgain(if zeroed then 0 else timer[c], first, count);
    }
  }

  lemma RestOfTimer(cfg: Config, s: State, source: nat, low: set<nat>, count: nat, c: nat)
    requires ValidConfig(cfg) && ValidState(s) && low <= s.outputs && NoRelease(cfg, s, source, low) && count > 0
    requires c < CHANNEL_COUNT
    ensures var next := Step(cfg, s, source, 1).(outputs := low);
            StepTimer(cfg, next, source, count, c) == StepTimer(cfg, s, source, count + 1, c)
  {
    var next := Step(cfg, s, source, 1).(outputs := low);
    hide StepTimer, UnitHeld, UnitRunning, Clocked, Counted, PairConfigured;
    StepOf(cfg, s, source, 1, c);
    StepOf(cfg, s, source, count + 1, c);
    StepOf(cfg, next, source, count, c);
    HeldByFewer(cfg, low, s.outputs, c);
    PartnerIsAlike(cfg, s, source, c);
    if Counting(cfg, s, source, c) {
      if PairConfigured(cfg, c) {
        StepOf(cfg, s, source, 1, Partner(c));
      }
      var reset := ResetPending(cfg, s, c);
      CountedAgain(cfg, s.timer, next.timer, c, reset, if reset then 0 else 1, count);
    }
  }

  /** Both halves of a pair are on the same clock, held together, running together and reset together. */
  lemma PartnerIsAlike(cfg: Config, s: State, source: nat, c: nat)
    requires ValidConfig(cfg) && ValidState(s) && c < CHANNEL_COUNT
    ensures PairConfigured(cfg, c) ==>
              var p := Partner(c);
              && PairConfigured(cfg, p) && Partner(p) == c
              && (Clocked(cfg, source, p) <==> Clocked(cfg, source, c))
              && (UnitHeld(cfg, s.outputs, p) <==> UnitHeld(cfg, s.outputs, c))
              && (UnitRunning(cfg, s.triggered, p) <==> UnitRunning(cfg, s.triggered, c))
              && (ResetPending(cfg, s, p) <==> ResetPending(cfg, s, c))
    ensures Clocked(cfg, source, c) ==> !ResetPending(cfg, Step(cfg, s, source, 1), c)
  {
    hide Held, Running, PairRunning, StepTimer;
    assert c % 2 == 1 ==> c - c % 2 == Partner(c);
    assert c % 2 == 0 ==> c - c % 2 == c && Partner(c) == c + 1;
  }

  lemma RestOfStep(cfg: Config, s: State, source: nat, low: set<nat>, count: nat)
    requires ValidConfig(cfg) && ValidState(s) && low <= s.outputs && NoRelease(cfg, s, source, low) && count > 0
    ensures Step(cfg, Step(cfg, s, source, 1).(outputs := low), source, count)
         == Step(cfg, s, source, count + 1).(outputs := low)
  {
    hide StepTimer, NoRelease;
    var next := Step(cfg, s, source, 1).(outputs := low);
    forall c: nat | c < CHANNEL_COUNT
      ensures StepTimer(cfg, next, source, count, c) == StepTimer(cfg, s, source, count + 1, c)
    {
      RestOfTimer(cfg, s, source, low, count, c);
    }
    assert Step(cfg, next, source, count).timer == Step(cfg, s, source, count + 1).timer;
    assert Step(cfg, next, source, count).pending == Step(cfg, s, source, count + 1).pending;
  }

  /** `k` cycles nearer to its transition. */
  lemma WordsTransitionNearer(low: nat, high: nat, upper: bool, k: nat, n: nat)
    requires low <= TIMER_TOP && high <= TIMER_TOP && n >= 1
    requires n + k <= WordsTransition(low, high, upper)
    ensures var w := (PairValue(low, high) + k) % 0x1_0000_0000;
            n <= WordsTransition(w % 0x1_0000, w / 0x1_0000, upper)
  {
    PairCounts(low, high, k);
  }

  /** What counts after one cycle counted before it. */
  lemma CountedBefore(cfg: Config, s: State, source: nat, low: set<nat>, c: nat)
    requires ValidConfig(cfg) && ValidState(s) && low <= s.outputs && NoRelease(cfg, s, source, low) && c < CHANNEL_COUNT
    requires Counting(cfg, Step(cfg, s, source, 1).(outputs := low), source, c)
    ensures Counting(cfg, s, source, c)
    ensures StepTimer(cfg, s, source, 1, c)
         == Counted(cfg, s.timer, c, ResetPending(cfg, s, c), if ResetPending(cfg, s, c) then 0 else 1)
    ensures PairConfigured(cfg, c) ==>
              StepTimer(cfg, s, source, 1, Partner(c))
              == Counted(cfg, s.timer, Partner(c), ResetPending(cfg, s, c), if ResetPending(cfg, s, c) then 0 else 1)
  {
    hide StepTimer, UnitHeld, UnitRunning, Clocked, Counted, ResetPending, PairConfigured;
    StepOf(cfg, s, source, 1, c);
    PartnerIsAlike(cfg, s, source, c);
    if PairConfigured(cfg, c) {
      StepOf(cfg, s, source, 1, Partner(c));
    }
  }

  lemma TransitionNearer(cfg: Config, s: State, source: nat, low: set<nat>, n: nat, c: nat)
    requires ValidConfig(cfg) && ValidState(s) && low <= s.outputs && NoRelease(cfg, s, source, low)
    requires n >= 1 && Fits(cfg, s, source, n + 1) && c < SYNC_CHANNEL_COUNT
    requires Counting(cfg, Step(cfg, s, source, 1).(outputs := low), source, c)
    ensures var t := SyncTransition(cfg, Step(cfg, s, source, 1).(outputs := low), source, c); t.After? && n <= t.cycles
  {
    CountedBefore(cfg, s, source, low, c);
    hide StepTimer, Counting, SyncTransition, ResetPending, PairConfigured, NoRelease;
    var next := Step(cfg, s, source, 1).(outputs := low);
    CountingHasTransition(cfg, s, source, c);
    CountingHasTransition(cfg, next, source, c);
    if PairConfigured(cfg, c) {
      assert c % 2 == 1 ==> c - c % 2 == Partner(c) && c - c % 2 + 1 == c;
      assert c % 2 == 0 ==> c - c % 2 == c && Partner(c) == c + 1;
      if !ResetPending(cfg, s, c) {
        WordsTransitionNearer(s.timer[c - c % 2], s.timer[c - c % 2 + 1], c % 2 == 1, 1, n);
      }
    }
  }

  lemma RestFits(cfg: Config, s: State, source: nat, low: set<nat>, n: nat)
    requires ValidConfig(cfg) && ValidState(s) && low <= s.outputs && NoRelease(cfg, s, source, low)
    requires n >= 1 && Fits(cfg, s, source, n + 1)
    ensures Fits(cfg, Step(cfg, s, source, 1).(outputs := low), source, n)
  {
    hide StepTimer, Counting, SyncTransition;
    var next := Step(cfg, s, source, 1).(outputs := low);
    forall c: nat | c < SYNC_CHANNEL_COUNT && Counting(cfg, next, source, c)
      ensures SyncTransition(cfg, next, source, c).After? && n <= SyncTransition(cfg, next, source, c).cycles
    {
      TransitionNearer(cfg, s, source, low, n, c);
    }
  }

  /** Nothing on this clock is still to be set to zero. */
  ghost predicate Fresh(cfg: Config, s: State, source: nat)
    requires ValidConfig(cfg) && ValidState(s)
  {
    forall c: nat :: c < CHANNEL_COUNT && Dropped(cfg, s, source, c) ==> s.timer[c] == 0
  }

  lemma FirstCycleIsFresh(cfg: Config, s: State, source: nat, low: set<nat>)
    requires ValidConfig(cfg) && ValidState(s) && low <= s.outputs
    ensures Fresh(cfg, Step(cfg, s, source, 1).(outputs := low), source)
  {
    hide StepTimer, UnitHeld, UnitRunning, Clocked, ResetPending;
    var next := Step(cfg, s, source, 1).(outputs := low);
    forall c: nat | c < CHANNEL_COUNT && Dropped(cfg, next, source, c) ensures next.timer[c] == 0 {
      StepOf(cfg, s, source, 1, c);
      PartnerIsAlike(cfg, s, source, c);
      HeldByFewer(cfg, low, s.outputs, c);
      PendingIgnoresOutputs(cfg, Step(cfg, s, source, 1), low, c);
    }
  }

  lemma PendingIgnoresOutputs(cfg: Config, s: State, low: set<nat>, c: nat)
    requires ValidConfig(cfg) && ValidState(s) && c < CHANNEL_COUNT && low <= SyncChannels()
    ensures ResetPending(cfg, s.(outputs := low), c) <==> ResetPending(cfg, s, c)
  {
  }

  lemma FreshStays(cfg: Config, s: State, source: nat)
    requires ValidConfig(cfg) && ValidState(s) && Fresh(cfg, s, source) && Settled(cfg, s)
    ensures Low(cfg, s, source) == s.outputs
  {
    hide Closure, Dropped;
    assert Remaining(cfg, s, source) == Base(cfg, s.timer, s.triggered);
  }

  lemma SingleCycle(cfg: Config, s: State, source: nat)
    requires ValidConfig(cfg) && ValidState(s)
    ensures Advance(cfg, s, source, 1) == Refresh(cfg, Step(cfg, Refresh(cfg, s), source, 1))
  {
    hide Refresh, Step;
    var settled := Refresh(cfg, s);
    assert StepSize(cfg, settled, source, 1) == 1;
    assert AdvanceSettled(cfg, Refresh(cfg, Step(cfg, settled, source, 1)), source, 0)
        == Refresh(cfg, Step(cfg, settled, source, 1));
  }

  lemma SettledStays(cfg: Config, s: State)
    requires ValidConfig(cfg) && ValidState(s) && Settled(cfg, s)
    ensures Refresh(cfg, s) == s
  {
    assert s.outputs - s.outputs == {};
  }

  lemma FirstOfCycles(cfg: Config, s: State, source: nat, n: nat)
    requires ValidConfig(cfg) && ValidState(s) && n > 0
    ensures CycleByCycle(cfg, s, source, n) == CycleByCycle(cfg, Advance(cfg, s, source, 1), source, n - 1)
    ensures CycleByCycle(cfg, s, source, 0) == s
  {
    hide Advance;
  }

  /** From a fresh state, a step is as many single cycles. */
  lemma {:induction false} FreshStepIsCycleByCycle(cfg: Config, s: State, source: nat, n: nat)
    requires ValidConfig(cfg) && ValidState(s) && Settled(cfg, s) && Fresh(cfg, s, source)
    requires n >= 1 && Fits(cfg, s, source, n)
    ensures CycleByCycle(cfg, s, source, n) == Refresh(cfg, Step(cfg, s, source, n))
    decreases n
  {
    hide Settled, Fresh, Fits, Refresh, Step, Low, Advance, CycleByCycle;
    SettledStays(cfg, s);
    SingleCycle(cfg, s, source);
    FirstOfCycles(cfg, s, source, n);
    if n == 1 {
      FirstOfCycles(cfg, Advance(cfg, s, source, 1), source, 1);
    } else {
      FirstCycleOfStep(cfg, s, source, n);
      FreshStays(cfg, s, source);
      var next := FirstCycle(cfg, s, source);
      FirstCycleIsFresh(cfg, s, source, s.outputs);
      RestFits(cfg, s, source, s.outputs, n - 1);
      FreshStepIsCycleByCycle(cfg, next, source, n - 1);
      RestOfStep(cfg, s, source, s.outputs, n - 1);
      StepKeepsOutputs(cfg, s, source, n);
    }
  }

  lemma StepKeepsOutputs(cfg: Config, s: State, source: nat, n: nat)
    requires ValidConfig(cfg) && ValidState(s) && n > 0
    ensures Step(cfg, s, source, n).outputs == s.outputs && Step(cfg, s, source, n).triggered == s.triggered
  {
  }

  // ---------------------------------------------------------------------------------------
  // Exactly when two cycles in one call are two calls of one cycle
  // ---------------------------------------------------------------------------------------

  lemma RefreshedState(cfg: Config, s: State)
    requires ValidConfig(cfg) && ValidState(s)
    ensures var rising := Closure(cfg, Base(cfg, s.timer, s.triggered)) - s.outputs;
            var triggered := s.triggered + TriggeredBy(cfg, PulseSources(rising));
            Refresh(cfg, s) == s.(triggered := triggered, outputs := Closure(cfg, Base(cfg, s.timer, triggered)))
  {
    hide Closure, Operating;
    var rising := Closure(cfg, Base(cfg, s.timer, s.triggered)) - s.outputs;
    if rising == {} {
      assert TriggeredBy(cfg, PulseSources(rising)) == {};
      assert s.triggered + {} == s.triggered;
    }
  }

  /** The outputs at the end of the step that fell at its start and are high again do not trigger anything new. */
  predicate NothingReturns(cfg: Config, s: State, source: nat, n: nat)
    requires ValidConfig(cfg) && ValidState(s) && n > 0
  {
    var high := Closure(cfg, Base(cfg, Step(cfg, s, source, n).timer, s.triggered));
    TriggeredBy(cfg, PulseSources(high * Falls(cfg, s, source)))
      <= s.triggered + TriggeredBy(cfg, PulseSources(high - s.outputs))
  }

  lemma TriggeredByUnion(cfg: Config, a: set<nat>, b: set<nat>)
    requires ValidConfig(cfg)
    ensures TriggeredBy(cfg, PulseSources(a + b)) == TriggeredBy(cfg, PulseSources(a)) + TriggeredBy(cfg, PulseSources(b))
  {
    hide Operating;
    assert PulseSources(a + b) == PulseSources(a) + PulseSources(b);
  }

  /** Refreshing from lower outputs sees more outputs rise, and so may trigger more channels. */
  lemma RefreshFromLower(cfg: Config, s: State, low: set<nat>)
    requires ValidConfig(cfg) && ValidState(s) && low <= s.outputs
    ensures var high := Closure(cfg, Base(cfg, s.timer, s.triggered));
            Refresh(cfg, s.(outputs := low)) == Refresh(cfg, s)
            <==> TriggeredBy(cfg, PulseSources(high * (s.outputs - low)))
                 <= s.triggered + TriggeredBy(cfg, PulseSources(high - s.outputs))
  {
    hide Closure, Refresh, TriggeredBy, PulseSources;
    RefreshedState(cfg, s);
    RefreshedState(cfg, s.(outputs := low));
    var high := Closure(cfg, Base(cfg, s.timer, s.triggered));
    var back, rising := high * (s.outputs - low), high - s.outputs;
    assert high - low == rising + back;
    TriggeredByUnion(cfg, rising, back);
    var more, fewer := TriggeredBy(cfg, PulseSources(back)), s.triggered + TriggeredBy(cfg, PulseSources(rising));
    assert Refresh(cfg, s).triggered == fewer;
    assert Refresh(cfg, s.(outputs := low)).triggered == fewer + more;
    assert more <= fewer <==> fewer + more == fewer;
  }

  /** A step of `n` cycles is as many single cycles if it releases nothing and nothing returns. */
  lemma StepIsCycleByCycle(cfg: Config, s: State, source: nat, n: nat)
    requires ValidConfig(cfg) && ValidState(s) && Settled(cfg, s) && n >= 2 && Fits(cfg, s, source, n)
    requires NoRelease(cfg, s, source, Low(cfg, s, source))
    ensures CycleByCycle(cfg, s, source, n) == Refresh(cfg, Step(cfg, s, source, n)) <==> NothingReturns(cfg, s, source, n)
  {
    hide Settled, Fits, NoRelease, Refresh, Step, Low, Advance, CycleByCycle, TriggeredBy, PulseSources;
    var low := Low(cfg, s, source);
    SettledStays(cfg, s);
    SingleCycle(cfg, s, source);
    FirstOfCycles(cfg, s, source, n);
    FirstCycleOfStep(cfg, s, source, n);
    var next := FirstCycle(cfg, s, source);
    FirstCycleIsFresh(cfg, s, source, low);
    RestFits(cfg, s, source, low, n - 1);
    FreshStepIsCycleByCycle(cfg, next, source, n - 1);
    RestOfStep(cfg, s, source, low, n - 1);
    StepKeepsOutputs(cfg, s, source, n);
    RefreshFromLower(cfg, Step(cfg, s, source, n), low);
  }

  /** Two cycles are cut into single ones anyway, or neither a unit is released early nor an output returns. */
  ghost predicate Steady(cfg: Config, s: State, source: nat)
    requires ValidConfig(cfg) && ValidState(s)
  {
    StepSize(cfg, s, source, 2) == 1
    || (NoRelease(cfg, s, source, Low(cfg, s, source)) && NothingReturns(cfg, s, source, 2))
  }

  lemma StepSizeFits(cfg: Config, s: State, source: nat, limit: nat)
    requires ValidConfig(cfg) && ValidState(s) && limit > 0
    ensures var size := StepSize(cfg, s, source, limit);
            1 <= size <= limit && StepSize(cfg, s, source, size) == size && Fits(cfg, s, source, size)
  {
    hide SyncTransition, Counting;
    var size := StepSize(cfg, s, source, limit);
    StepSizeIsLargest(cfg, s, source, size, SYNC_CHANNEL_COUNT);
    forall c: nat | c < SYNC_CHANNEL_COUNT && Counting(cfg, s, source, c) ensures SyncTransition(cfg, s, source, c).After? {
      CountingHasTransition(cfg, s, source, c);
    }
  }

  lemma {:induction false} StepSizeIsLargest(cfg: Config, s: State, source: nat, limit: nat, n: nat)
    requires ValidConfig(cfg) && ValidState(s) && n <= SYNC_CHANNEL_COUNT
    requires forall c: nat :: c < n && SyncTransition(cfg, s, source, c).After?
                              ==> limit <= SyncTransition(cfg, s, source, c).cycles
    ensures StepSizeBelow(cfg, s, source, limit, n) == limit
  {
    hide SyncTransition;
    if n > 0 {
      StepSizeIsLargest(cfg, s, source, limit, n - 1);
    }
  }

  /** One call of as many cycles as fit into one step. */
  lemma AdvanceOneStep(cfg: Config, s: State, source: nat, n: nat)
    requires ValidConfig(cfg) && ValidState(s) && Settled(cfg, s) && n > 0 && StepSize(cfg, s, source, n) == n
    ensures Advance(cfg, s, source, n) == Refresh(cfg, Step(cfg, s, source, n))
  {
    hide Refresh, Step, Settled;
    SettledStays(cfg, s);
    assert AdvanceSettled(cfg, Refresh(cfg, Step(cfg, s, source, n)), source, 0) == Refresh(cfg, Step(cfg, s, source, n));
  }

  lemma TwoCycles(cfg: Config, s: State, source: nat)
    requires ValidConfig(cfg) && ValidState(s)
    ensures CycleByCycle(cfg, s, source, 2) == Advance(cfg, Advance(cfg, s, source, 1), source, 1)
  {
    hide Advance, CycleByCycle;
    FirstOfCycles(cfg, s, source, 2);
    FirstOfCycles(cfg, Advance(cfg, s, source, 1), source, 1);
    FirstOfCycles(cfg, Advance(cfg, Advance(cfg, s, source, 1), source, 1), source, 1);
  }

  /** Cut into two steps, two cycles are single cycles. */
  lemma CutAgrees(cfg: Config, s: State, source: nat)
    requires ValidConfig(cfg) && ValidState(s) && Settled(cfg, s) && StepSize(cfg, s, source, 2) == 1
    ensures Agrees(cfg, s, source, 2)
  {
    hide Refresh, Step, Settled, StepSize;
    SettledStays(cfg, s);
    SingleCycle(cfg, s, source);
    TwoCycles(cfg, s, source);
    var first := Step(cfg, s, source, 1);
    RefreshIsIdempotent(cfg, first);
    assert Advance(cfg, s, source, 2) == AdvanceSettled(cfg, Refresh(cfg, first), source, 1);
    assert Advance(cfg, Refresh(cfg, first), source, 1) == AdvanceSettled(cfg, Refresh(cfg, first), source, 1);
  }

  /** A unit released by the first cycle has counted once after two single cycles, and not at all after two in one. */
  lemma ReleaseDiffers(cfg: Config, s: State, source: nat, c: nat)
    requires ValidConfig(cfg) && ValidState(s) && Settled(cfg, s) && StepSize(cfg, s, source, 2) == 2
    requires c < CHANNEL_COUNT && WouldCount(cfg, s, source, c) && !UnitHeld(cfg, Low(cfg, s, source), c)
    ensures !Agrees(cfg, s, source, 2)
  {
    hide Refresh, Step, Settled, StepSize, Low, StepTimer, UnitHeld, UnitRunning, Clocked, ResetPending, Advance, CycleByCycle,
         PairConfigured;
    AdvanceOneStep(cfg, s, source, 2);
    StepSizeFits(cfg, s, source, 2);
    SettledStays(cfg, s);
    SingleCycle(cfg, s, source);
    TwoCycles(cfg, s, source);
    FirstCycleOfStep(cfg, s, source, 2);
    var next := FirstCycle(cfg, s, source);
    SettledStays(cfg, next);
    SingleCycle(cfg, next, source);
    RefreshKeepsTimers(cfg, Step(cfg, s, source, 2));
    RefreshKeepsTimers(cfg, Step(cfg, next, source, 1));
    ReleasedUnitCounts(cfg, s, source, c);
  }

  lemma RefreshKeepsTimers(cfg: Config, s: State)
    requires ValidConfig(cfg) && ValidState(s)
    ensures Refresh(cfg, s).timer == s.timer && Refresh(cfg, s).pending == s.pending
    ensures s.triggered <= Refresh(cfg, s).triggered
  {
    hide Closure;
  }

  lemma ReleasedUnitCounts(cfg: Config, s: State, source: nat, c: nat)
    requires ValidConfig(cfg) && ValidState(s) && c < CHANNEL_COUNT
    requires WouldCount(cfg, s, source, c) && !UnitHeld(cfg, Low(cfg, s, source), c)
    ensures Step(cfg, s, source, 2).timer != Step(cfg, FirstCycle(cfg, s, source), source, 1).timer
  {
    hide Low, StepTimer, UnitHeld, UnitRunning, Clocked;
    var next := FirstCycle(cfg, s, source);
    var first := if PairConfigured(cfg, c) && c % 2 == 1 then Partner(c) else c;
    PartnerIsAlike(cfg, s, source, c);
    PartnerIsAlike(cfg, next, source, c);
    PendingIgnoresOutputs(cfg, Step(cfg, s, source, 1), Low(cfg, s, source), first);
    PartnerIsAlike(cfg, s, source, first);
    StepOf(cfg, s, source, 1, first);
    StepOf(cfg, s, source, 2, first);
    StepOf(cfg, next, source, 1, first);
    if PairConfigured(cfg, c) {
      StepOf(cfg, s, source, 1, Partner(first));
    }
    assert Step(cfg, s, source, 2).timer[first] == 0;
    assert Step(cfg, next, source, 1).timer[first] == 1;
  }

  /**
  From a settled state, for every configuration: two cycles in one call leave what two calls of one
  cycle leave if and only if they are cut into single cycles anyway, or no unit that would count is
  released after the first cycle and no output that falls in it triggers anything by coming back.
  */
  lemma TwoCyclesAgreeExactly(cfg: Config, s: State, source: nat)
    requires ValidConfig(cfg) && ValidState(s) && Settled(cfg, s)
    ensures Agrees(cfg, s, source, 2) <==> Steady(cfg, s, source)
  {
    hide Refresh, Step, Settled, StepSize, Low, UnitHeld, WouldCount, Advance, CycleByCycle, NothingReturns;
    StepSizeFits(cfg, s, source, 2);
    if StepSize(cfg, s, source, 2) == 1 {
      CutAgrees(cfg, s, source);
    } else if NoRelease(cfg, s, source, Low(cfg, s, source)) {
      AdvanceOneStep(cfg, s, source, 2);
      StepIsCycleByCycle(cfg, s, source, 2);
    } else {
      var c: nat :| c < CHANNEL_COUNT && WouldCount(cfg, s, source, c) && !UnitHeld(cfg, Low(cfg, s, source), c);
      ReleaseDiffers(cfg, s, source, c);
    }
  }

  // ---------------------------------------------------------------------------------------
  // Two cycles decide
  // ---------------------------------------------------------------------------------------

  /** No reset that waits will lower an output of a channel that is neither held nor about to leave the top. */
  ghost predicate NoStalledReset(cfg: Config, s: State, source: nat)
    requires ValidConfig(cfg) && ValidState(s)
  {
    forall c: nat :: c < SYNC_CHANNEL_COUNT && StalledReset(cfg, s, source, c) ==> Held(cfg, s.outputs, c)
  }

  predicate StalledReset(cfg: Config, s: State, source: nat, c: nat)
    requires ValidConfig(cfg) && ValidState(s) && c < SYNC_CHANNEL_COUNT
  {
    && Clocked(cfg, source, c) && ResetPending(cfg, s, c) && s.timer[c] == TIMER_TOP && !BaseHigh(cfg, 0, s.triggered, c)
    && !(Counting(cfg, s, source, c) && SyncTransition(cfg, s, source, c) == After(1))
  }

  /** All states, or those without a stalled reset. */
  ghost predicate Admitted(all: bool, cfg: Config, s: State, source: nat)
    requires ValidConfig(cfg) && ValidState(s)
  {
    all || NoStalledReset(cfg, s, source)
  }

  /** The units that count, and are not about to be reset, some cycles later. */
  function Later(cfg: Config, s: State, source: nat, k: nat): (t: State)
    requires ValidConfig(cfg) && ValidState(s)
    ensures ValidState(t)
  {
    s.(timer := seq(CHANNEL_COUNT, c requires 0 <= c < CHANNEL_COUNT =>
         if Counting(cfg, s, source, c) && !ResetPending(cfg, s, c) then Counted(cfg, s.timer, c, false, k) else s.timer[c]))
  }

  lemma LaterTimers(cfg: Config, s: State, source: nat, k: nat, c: nat)
    requires ValidConfig(cfg) && ValidState(s) && c < CHANNEL_COUNT
    ensures var t := Later(cfg, s, source, k);
            && (Counting(cfg, t, source, c) <==> Counting(cfg, s, source, c))
            && (ResetPending(cfg, t, c) <==> ResetPending(cfg, s, c))
            && (Dropped(cfg, t, source, c) <==> Dropped(cfg, s, source, c))
            && t.timer[c] == (if Counting(cfg, s, source, c) && !ResetPending(cfg, s, c)
                              then Counted(cfg, s.timer, c, false, k) else s.timer[c])
            && (PairConfigured(cfg, c) ==>
                  t.timer[Partner(c)] == if Counting(cfg, s, source, c) && !ResetPending(cfg, s, c)
                                         then Counted(cfg, s.timer, Partner(c), false, k) else s.timer[Partner(c)])
  {
    hide UnitHeld, UnitRunning, Clocked, Counted, PairConfigured;
    PartnerIsAlike(cfg, s, source, c);
    PendingIgnoresTimers(cfg, s, Later(cfg, s, source, k).timer, c);
  }

  lemma PendingIgnoresTimers(cfg: Config, s: State, timer: seq<nat>, c: nat)
    requires ValidConfig(cfg) && ValidState(s) && ValidState(s.(timer := timer)) && c < CHANNEL_COUNT
    ensures ResetPending(cfg, s.(timer := timer), c) <==> ResetPending(cfg, s, c)
  {
  }

  /** Its transitions are nearer, but not passed. */
  lemma LaterTransition(cfg: Config, s: State, source: nat, k: nat, n: nat, c: nat)
    requires ValidConfig(cfg) && ValidState(s) && c < SYNC_CHANNEL_COUNT && n >= 1
    requires SyncTransition(cfg, s, source, c).After? ==> n + k <= SyncTransition(cfg, s, source, c).cycles
    ensures var t := SyncTransition(cfg, Later(cfg, s, source, k), source, c); t.After? ==> n <= t.cycles
    ensures !Counting(cfg, s, source, c) || ResetPending(cfg, s, c) ==>
              SyncTransition(cfg, Later(cfg, s, source, k), source, c) == SyncTransition(cfg, s, source, c)
  {
    hide UnitHeld, UnitRunning, Clocked, ResetPending, Operating, Held;
    var t := Later(cfg, s, source, k);
    LaterTimers(cfg, s, source, k, c);
    if Counting(cfg, s, source, c) && !ResetPending(cfg, s, c) {
      CountingHasTransition(cfg, s, source, c);
      CountingHasTransition(cfg, t, source, c);
      if PairConfigured(cfg, c) {
        assert c % 2 == 1 ==> c - c % 2 == Partner(c) && c - c % 2 + 1 == c;
        assert c % 2 == 0 ==> c - c % 2 == c && Partner(c) == c + 1;
        WordsTransitionNearer(s.timer[c - c % 2], s.timer[c - c % 2 + 1], c % 2 == 1, k, n);
      }
    } else {
      TransitionIsLocal(cfg, s, t, source, c);
    }
  }

  lemma TransitionIsLocal(cfg: Config, s: State, t: State, source: nat, c: nat)
    requires ValidConfig(cfg) && ValidState(s) && ValidState(t) && c < SYNC_CHANNEL_COUNT
    requires t == s.(timer := t.timer) && t.timer[c] == s.timer[c]
    requires PairConfigured(cfg, c) ==> t.timer[Partner(c)] == s.timer[Partner(c)]
    ensures SyncTransition(cfg, t, source, c) == SyncTransition(cfg, s, source, c)
  {
    hide Operating, Held;
    assert c % 2 == 1 ==> c - c % 2 == Partner(c) && c - c % 2 + 1 == c;
    assert c % 2 == 0 ==> c - c % 2 == c && Partner(c) == c + 1;
  }

  lemma LaterIsAlike(cfg: Config, s: State, source: nat, n: nat)
    requires ValidConfig(cfg) && ValidState(s) && Fits(cfg, s, source, n) && n >= 2
    ensures var t := Later(cfg, s, source, n - 2);
            && Base(cfg, t.timer, t.triggered) == Base(cfg, s.timer, s.triggered)
            && Remaining(cfg, t, source) == Remaining(cfg, s, source)
  {
    hide Later, Counting, Dropped, ResetPending, Counted, SyncTransition;
    var t := Later(cfg, s, source, n - 2);
    forall c: nat | c < SYNC_CHANNEL_COUNT
      ensures (t.timer[c] == TIMER_TOP <==> s.timer[c] == TIMER_TOP) && (Dropped(cfg, t, source, c) <==> Dropped(cfg, s, source, c))
    {
      LaterTimers(cfg, s, source, n - 2, c);
      if Counting(cfg, s, source, c) && !ResetPending(cfg, s, c) {
        TopBeforeTransition(cfg, s, source, c, n - 2);
      }
    }
    LaterKeepsRest(cfg, s, source, n - 2);
  }

  lemma LaterKeepsRest(cfg: Config, s: State, source: nat, k: nat)
    requires ValidConfig(cfg) && ValidState(s)
    ensures var t := Later(cfg, s, source, k); t.outputs == s.outputs && t.triggered == s.triggered && t.pending == s.pending
  {
  }

  /** Two cycles later on bring the same timers to the top as the whole step. */
  lemma LaterEndsAlike(cfg: Config, s: State, source: nat, n: nat, c: nat)
    requires ValidConfig(cfg) && ValidState(s) && Fits(cfg, s, source, n) && n >= 2 && c < SYNC_CHANNEL_COUNT
    ensures StepTimer(cfg, Later(cfg, s, source, n - 2), source, 2, c) == TIMER_TOP <==> StepTimer(cfg, s, source, n, c) == TIMER_TOP
  {
    hide StepTimer, Later, UnitHeld, UnitRunning, Clocked, ResetPending, Counted, SyncTransition, PairConfigured;
    var t := Later(cfg, s, source, n - 2);
    LaterTimers(cfg, s, source, n - 2, c);
    LaterKeepsRest(cfg, s, source, n - 2);
    StepOf(cfg, t, source, 2, c);
    StepOf(cfg, s, source, n, c);
    if Counting(cfg, s, source, c) {
      if ResetPending(cfg, s, c) {
        ZeroedBelowTop(cfg, s, source, c, n, n - 1);
        ZeroedBelowTop(cfg, s, source, c, n, 1);
        ZeroedAlike(cfg, s.timer, t.timer, c, 1);
      } else {
        CountedAgain(cfg, s.timer, t.timer, c, false, n - 2, 2);
      }
    }
  }

  lemma ZeroedAlike(cfg: Config, timer: seq<nat>, other: seq<nat>, c: nat, count: nat)
    requires ValidConfig(cfg) && c < CHANNEL_COUNT && |timer| == |other| == CHANNEL_COUNT
    ensures Counted(cfg, timer, c, true, count) == Counted(cfg, other, c, true, count)
  {
  }

  lemma LaterFits(cfg: Config, s: State, source: nat, n: nat)
    requires ValidConfig(cfg) && ValidState(s) && n >= 2 && StepSize(cfg, s, source, n) == n
    ensures StepSize(cfg, Later(cfg, s, source, n - 2), source, 2) == 2
  {
    hide SyncTransition, Later;
    var t := Later(cfg, s, source, n - 2);
    forall c: nat | c < SYNC_CHANNEL_COUNT && SyncTransition(cfg, t, source, c).After?
      ensures 2 <= SyncTransition(cfg, t, source, c).cycles
    {
      LaterTransition(cfg, s, source, n - 2, 2, c);
    }
    StepSizeIsLargest(cfg, t, source, 2, SYNC_CHANNEL_COUNT);
  }

  lemma LaterIsAdmitted(all: bool, cfg: Config, s: State, source: nat, n: nat)
    requires ValidConfig(cfg) && ValidState(s) && n >= 2 && StepSize(cfg, s, source, n) == n && Admitted(all, cfg, s, source)
    ensures Admitted(all, cfg, Later(cfg, s, source, n - 2), source)
  {
    hide SyncTransition, Later, Counting, ResetPending, Counted;
    var t := Later(cfg, s, source, n - 2);
    LaterKeepsRest(cfg, s, source, n - 2);
    forall c: nat | c < SYNC_CHANNEL_COUNT && StalledReset(cfg, t, source, c) ensures StalledReset(cfg, s, source, c) {
      LaterTimers(cfg, s, source, n - 2, c);
      LaterTransition(cfg, s, source, n - 2, 2, c);
    }
  }

  /** If every settled state agrees on two cycles, every step is as many single cycles. */
  lemma StepAgrees(all: bool, cfg: Config, s: State, source: nat, n: nat)
    requires ValidConfig(cfg) && ValidState(s) && Settled(cfg, s) && Admitted(all, cfg, s, source)
    requires n >= 1 && StepSize(cfg, s, source, n) == n
    requires forall t: State :: ValidState(t) && Settled(cfg, t) && Admitted(all, cfg, t, source) ==> Agrees(cfg, t, source, 2)
    ensures CycleByCycle(cfg, s, source, n) == Refresh(cfg, Step(cfg, s, source, n))
  {
    hide Refresh, Step, StepSize, Low, UnitHeld, WouldCount, Advance, CycleByCycle, Admitted, Fits, Later, Closure, Remaining,
         TriggeredBy, PulseSources, Base, Agrees;
    StepSizeFits(cfg, s, source, n);
    if n == 1 {
      SettledStays(cfg, s);
      SingleCycle(cfg, s, source);
      FirstOfCycles(cfg, s, source, 1);
      FirstOfCycles(cfg, Advance(cfg, s, source, 1), source, 1);
    } else {
      var t := Later(cfg, s, source, n - 2);
      LaterKeepsRest(cfg, s, source, n - 2);
      LaterIsAlike(cfg, s, source, n);
      LaterFits(cfg, s, source, n);
      LaterIsAdmitted(all, cfg, s, source, n);
      TwoCyclesAgreeExactly(cfg, t, source);
      LaterReleasesAlike(cfg, s, source, n);
      StepIsCycleByCycle(cfg, s, source, n);
    }
  }

  lemma LaterReleasesAlike(cfg: Config, s: State, source: nat, n: nat)
    requires ValidConfig(cfg) && ValidState(s) && Fits(cfg, s, source, n) && n >= 2
    ensures var t := Later(cfg, s, source, n - 2);
            && (NoRelease(cfg, t, source, Low(cfg, t, source)) <==> NoRelease(cfg, s, source, Low(cfg, s, source)))
            && (NothingReturns(cfg, t, source, 2) <==> NothingReturns(cfg, s, source, n))
  {
    hide StepTimer, Later, UnitHeld, UnitRunning, Clocked, Fits, Closure, Remaining, TriggeredBy, PulseSources;
    var t := Later(cfg, s, source, n - 2);
    LaterKeepsRest(cfg, s, source, n - 2);
    LaterIsAlike(cfg, s, source, n);
    forall c: nat | c < SYNC_CHANNEL_COUNT
      ensures StepTimer(cfg, t, source, 2, c) == TIMER_TOP <==> StepTimer(cfg, s, source, n, c) == TIMER_TOP
    {
      LaterEndsAlike(cfg, s, source, n, c);
    }
    assert Base(cfg, Step(cfg, t, source, 2).timer, s.triggered) == Base(cfg, Step(cfg, s, source, n).timer, s.triggered);
    assert forall c: nat :: c < CHANNEL_COUNT ==> (WouldCount(cfg, t, source, c) <==> WouldCount(cfg, s, source, c));
  }

  lemma {:induction false} CyclesCompose(cfg: Config, s: State, source: nat, m: nat, n: nat)
    requires ValidConfig(cfg) && ValidState(s)
    ensures CycleByCycle(cfg, s, source, m + n) == CycleByCycle(cfg, CycleByCycle(cfg, s, source, m), source, n)
    decreases m
  {
    hide Advance;
    if m > 0 {
      var next := Advance(cfg, s, source, 1);
      CyclesCompose(cfg, next, source, m - 1, n);
      assert CycleByCycle(cfg, s, source, m + n) == CycleByCycle(cfg, next, source, (m - 1) + n);
    }
  }

  lemma StepClearsResets(all: bool, cfg: Config, s: State, source: nat, size: nat)
    requires ValidConfig(cfg) && ValidState(s) && size > 0
    ensures Admitted(all, cfg, Refresh(cfg, Step(cfg, s, source, size)), source)
  {
    hide Closure, StepTimer, Counting, SyncTransition;
    RefreshKeepsTimers(cfg, Step(cfg, s, source, size));
  }

  lemma {:induction false} SettledAdvanceAgrees(all: bool, cfg: Config, s: State, source: nat, cycles: nat)
    requires ValidConfig(cfg) && ValidState(s) && Settled(cfg, s) && Admitted(all, cfg, s, source)
    requires forall t: State :: ValidState(t) && Settled(cfg, t) && Admitted(all, cfg, t, source) ==> Agrees(cfg, t, source, 2)
    ensures AdvanceSettled(cfg, s, source, cycles) == CycleByCycle(cfg, s, source, cycles)
    decreases cycles
  {
    hide Advance, Refresh, Step, StepSize, ValidState, ValidConfig, Admitted, Settled, Agrees;
    if cycles > 0 {
      var size := StepSize(cfg, s, source, cycles);
      StepSizeFits(cfg, s, source, cycles);
      StepAgrees(all, cfg, s, source, size);
      var next := Refresh(cfg, Step(cfg, s, source, size));
      RefreshIsIdempotent(cfg, Step(cfg, s, source, size));
      StepClearsResets(all, cfg, s, source, size);
      SettledAdvanceAgrees(all, cfg, next, source, cycles - size);
      CyclesCompose(cfg, s, source, size, cycles - size);
    }
  }

  /** A call first settles the state. */
  lemma AgreesFromSettled(cfg: Config, s: State, source: nat, cycles: nat)
    requires ValidConfig(cfg) && ValidState(s) && cycles > 0
    ensures Agrees(cfg, s, source, cycles)
       <==> AdvanceSettled(cfg, Refresh(cfg, s), source, cycles) == CycleByCycle(cfg, Refresh(cfg, s), source, cycles)
  {
    hide Refresh, AdvanceSettled, CycleByCycle;
    RefreshIsIdempotent(cfg, s);
    FirstOfCycles(cfg, s, source, cycles);
    FirstOfCycles(cfg, Refresh(cfg, s), source, cycles);
  }

  /**
  For every configuration: the fast clock is the clock called once per cycle, from all states and for
  all spans, if and only if it is so for two cycles from every settled state; and likewise among the
  states without a stalled reset.
  */
  lemma TwoCyclesDecide(all: bool, cfg: Config, source: nat)
    requires ValidConfig(cfg)
    ensures (forall s: State, cycles: nat :: ValidState(s) && cycles > 0 && Admitted(all, cfg, Refresh(cfg, s), source)
                                             ==> Agrees(cfg, s, source, cycles))
       <==> (forall s: State :: ValidState(s) && Settled(cfg, s) && Admitted(all, cfg, s, source) ==> Agrees(cfg, s, source, 2))
  {
    hide Refresh, Settled, Admitted, Agrees;
    if forall s: State :: ValidState(s) && Settled(cfg, s) && Admitted(all, cfg, s, source) ==> Agrees(cfg, s, source, 2) {
      forall s: State, cycles: nat | ValidState(s) && cycles > 0 && Admitted(all, cfg, Refresh(cfg, s), source)
        ensures Agrees(cfg, s, source, cycles)
      {
        RefreshIsIdempotent(cfg, s);
        SettledAdvanceAgrees(all, cfg, Refresh(cfg, s), source, cycles);
        AgreesFromSettled(cfg, s, source, cycles);
      }
    }
    forall s: State | ValidState(s) && Settled(cfg, s) ensures Refresh(cfg, s) == s {
      SettledStays(cfg, s);
    }
  }

  // ---------------------------------------------------------------------------------------
  // Exactly which links matter
  // ---------------------------------------------------------------------------------------

  /** The halves of every pair on this clock are both unlinked, or linked to the same channel. */
  ghost predicate PairsLinkedAlike(cfg: Config, source: nat)
    requires ValidConfig(cfg)
  {
    forall c: nat :: c < CHANNEL_COUNT && PairConfigured(cfg, c) && Clocked(cfg, source, c) ==>
                       (Linked(cfg, c) <==> Linked(cfg, Partner(c)))
                       && (Linked(cfg, c) ==> Source(cfg, c) == Source(cfg, Partner(c)))
  }

  /** Each channel of the set is held by a channel of the set. */
  ghost predicate IsRing(cfg: Config, ring: set<nat>)
    requires ValidConfig(cfg) && ring <= SyncChannels()
  {
    forall c :: c in ring ==> Linked(cfg, c) && Source(cfg, c) in ring
  }

  predicate AlwaysHigh(ch: Channel) {
    ch.pmdDisabled || ch.mode == 0 || ch.mode == 6
  }

  /** The unit of `c` can run. */
  predicate Able(cfg: Config, c: nat)
    requires ValidConfig(cfg) && c < CHANNEL_COUNT
  {
    if PairConfigured(cfg, c) then PairEnabled(cfg, c - c % 2) else Operating(cfg, c)
  }

  function ClockedIn(cfg: Config, source: nat, ring: set<nat>): (clocked: set<nat>)
    requires ValidConfig(cfg) && ring <= SyncChannels()
    ensures clocked <= ring
  {
    set c | c in ring && Clocked(cfg, source, c)
  }

  predicate HeldBy(cfg: Config, source: nat, ring: set<nat>, d: nat)
    requires ValidConfig(cfg) && d < CHANNEL_COUNT
  {
    Clocked(cfg, source, d) && Able(cfg, d) && Linked(cfg, d) && Source(cfg, d) in ring
  }

  /**
  A ring that its channels on this clock can raise, that falls when they are reset, and that holds
  a channel on this clock which can run.
  */
  ghost predicate FallingRing(cfg: Config, source: nat, ring: set<nat>)
    requires ValidConfig(cfg)
  {
    && ring != {} && ring <= SyncChannels() && IsRing(cfg, ring)
    && (forall c :: c in ring ==> !AlwaysHigh(cfg.channels[c]))
    && ring <= Closure(cfg, ClockedIn(cfg, source, ring))
    && exists d: nat :: d < CHANNEL_COUNT && HeldBy(cfg, source, ring, d)
  }

  ghost predicate NoFallingRing(cfg: Config, source: nat)
    requires ValidConfig(cfg)
  {
    forall ring: set<nat> :: !FallingRing(cfg, source, ring)
  }

  /** What a ring shows comes from its own members. */
  lemma RingClosure(cfg: Config, base: set<nat>, ring: set<nat>)
    requires ValidConfig(cfg) && base <= SyncChannels() && ring <= SyncChannels() && IsRing(cfg, ring)
    ensures Closure(cfg, base) * ring <= Closure(cfg, base * ring)
  {
    hide Closure;
    var inner := Closure(cfg, base * ring);
    ClosureIsLeast(cfg, base * ring, inner);
    ClosureIsLeast(cfg, base, inner + (SyncChannels() - ring));
  }

  lemma NothingHigh(cfg: Config)
    requires ValidConfig(cfg)
    ensures Closure(cfg, {}) == {}
  {
    assert Expand(cfg, {}) == {};
  }

  lemma AlikeUnitHeld(cfg: Config, source: nat, outputs: set<nat>, c: nat)
    requires ValidConfig(cfg) && PairsLinkedAlike(cfg, source) && c < CHANNEL_COUNT && Clocked(cfg, source, c)
    ensures UnitHeld(cfg, outputs, c) <==> Held(cfg, outputs, c)
  {
    hide Clocked;
  }

  lemma ResetIsStalled(cfg: Config, s: State, source: nat, c: nat)
    requires ValidConfig(cfg) && ValidState(s) && c < SYNC_CHANNEL_COUNT && Fits(cfg, s, source, 2)
    requires Dropped(cfg, s, source, c) && !UnitHeld(cfg, s.outputs, c)
    requires BaseHigh(cfg, s.timer[c], s.triggered, c) && !BaseHigh(cfg, 0, s.triggered, c)
    ensures StalledReset(cfg, s, source, c)
  {
    hide SyncTransition, UnitHeld, Counting, Clocked, ResetPending;
  }

  /** An output that falls is held by another one that falls, and only a reset on this clock lowers it. */
  lemma FallingIsHeld(cfg: Config, s: State, source: nat, c: nat)
    requires ValidConfig(cfg) && ValidState(s) && Settled(cfg, s) && Fits(cfg, s, source, 2)
    requires PairsLinkedAlike(cfg, source) && NoStalledReset(cfg, s, source) && c in Falls(cfg, s, source)
    ensures c < SYNC_CHANNEL_COUNT && Linked(cfg, c) && Source(cfg, c) in Falls(cfg, s, source)
    ensures !AlwaysHigh(cfg.channels[c])
    ensures BaseHigh(cfg, s.timer[c], s.triggered, c) ==> Clocked(cfg, source, c)
  {
    hide Closure, UnitRunning, Clocked, SyncTransition, PairConfigured, UnitHeld, Counting;
    var base, low := Base(cfg, s.timer, s.triggered), Low(cfg, s, source);
    ClosureIsSupported(cfg, base, c);
    ClosureIsLeast(cfg, Remaining(cfg, s, source), low);
    if c in base {
      assert Dropped(cfg, s, source, c);
      AlikeUnitHeld(cfg, source, s.outputs, c);
      if !UnitHeld(cfg, s.outputs, c) {
        ResetIsStalled(cfg, s, source, c);
      }
    }
    assert Held(cfg, s.outputs, c);
  }

  lemma FallsFormRing(cfg: Config, s: State, source: nat)
    requires ValidConfig(cfg) && ValidState(s) && Settled(cfg, s) && Fits(cfg, s, source, 2)
    requires PairsLinkedAlike(cfg, source) && NoStalledReset(cfg, s, source)
    ensures var ring := Falls(cfg, s, source);
            && ring <= SyncChannels() && IsRing(cfg, ring) && ring <= Closure(cfg, ClockedIn(cfg, source, ring))
            && forall c :: c in ring ==> !AlwaysHigh(cfg.channels[c])
  {
    hide Closure, Falls, NoStalledReset, PairsLinkedAlike, Linked, Source, Clocked, BaseHigh, Fits;
    var ring, base := Falls(cfg, s, source), Base(cfg, s.timer, s.triggered);
    FallsAreOutputs(cfg, s, source);
    forall c | c in ring
      ensures Linked(cfg, c) && Source(cfg, c) in ring && !AlwaysHigh(cfg.channels[c])
              && (c in base ==> c in ClockedIn(cfg, source, ring))
    {
      FallingIsHeld(cfg, s, source, c);
    }
    RingClosure(cfg, base, ring);
    ClosureGrows(cfg, base * ring, ClockedIn(cfg, source, ring));
  }

  lemma FallsAreOutputs(cfg: Config, s: State, source: nat)
    requires ValidConfig(cfg) && ValidState(s)
    ensures Falls(cfg, s, source) <= s.outputs <= SyncChannels()
  {
  }

  /** A channel of a falling ring is not high of itself at the end of the step either. */
  lemma FallenStaysLow(cfg: Config, s: State, source: nat, c: nat)
    requires ValidConfig(cfg) && ValidState(s) && Settled(cfg, s) && Fits(cfg, s, source, 2)
    requires PairsLinkedAlike(cfg, source) && NoStalledReset(cfg, s, source) && c in Falls(cfg, s, source)
    ensures c < SYNC_CHANNEL_COUNT && !BaseHigh(cfg, StepTimer(cfg, s, source, 2, c), s.triggered, c)
  {
    FallingIsHeld(cfg, s, source, c);
    hide StepTimer, UnitRunning, Clocked, PairConfigured, UnitHeld, NoStalledReset, Fits, ResetPending, Counted, PairsLinkedAlike,
         Settled, Low;
    StepOf(cfg, s, source, 2, c);
    if Clocked(cfg, source, c) {
      AlikeUnitHeld(cfg, source, s.outputs, c);
    }
  }

  lemma NoFallingRingIsSteady(cfg: Config, s: State, source: nat)
    requires ValidConfig(cfg) && ValidState(s) && Settled(cfg, s) && NoFallingRing(cfg, source)
    requires PairsLinkedAlike(cfg, source) && NoStalledReset(cfg, s, source)
    ensures Steady(cfg, s, source)
  {
    hide Closure, Low, Fits, StepSize, StepTimer, Clocked, UnitHeld, UnitRunning, TriggeredBy, PulseSources, NoStalledReset,
         PairsLinkedAlike, Settled, BaseHigh, IsRing;
    StepSizeFits(cfg, s, source, 2);
    if StepSize(cfg, s, source, 2) == 2 {
      var ring, low := Falls(cfg, s, source), Low(cfg, s, source);
      FallsFormRing(cfg, s, source);
      forall c: nat | c < CHANNEL_COUNT && WouldCount(cfg, s, source, c) ensures UnitHeld(cfg, low, c) {
        AlikeUnitHeld(cfg, source, s.outputs, c);
        AlikeUnitHeld(cfg, source, low, c);
        RunningIsAble(cfg, s, c);
        assert !FallingRing(cfg, source, ring);
        assert !HeldBy(cfg, source, ring, c);
      }
      var base := Base(cfg, Step(cfg, s, source, 2).timer, s.triggered);
      forall c | c in ring ensures c !in base {
        FallenStaysLow(cfg, s, source, c);
      }
      RingClosure(cfg, base, ring);
      assert base * ring == {};
      NothingHigh(cfg);
      assert Closure(cfg, base) * ring == {};
      NothingTriggers(cfg);
    }
  }

  lemma NothingTriggers(cfg: Config)
    requires ValidConfig(cfg)
    ensures TriggeredBy(cfg, PulseSources({})) == {}
  {
    hide Operating;
  }

  lemma RunningIsAble(cfg: Config, s: State, c: nat)
    requires ValidConfig(cfg) && ValidState(s) && c < CHANNEL_COUNT
    ensures UnitRunning(cfg, s.triggered, c) ==> Able(cfg, c)
  {
    hide Operating;
  }

  function AllChannels(): (all: set<nat>)
    ensures forall c: nat :: c in all <==> c < CHANNEL_COUNT
  {
    {0, 1, 2, 3, 4, 5, 6, 7, 8, 9, 10, 11, 12, 13, 14, 15}
  }

  /** A settled state with some timers at the top, the others at zero, every trigger seen, some resets pending. */
  function TopState(cfg: Config, top: set<nat>, pending: set<nat>): (s: State)
    requires ValidConfig(cfg)
    ensures ValidState(s) && Settled(cfg, s)
  {
    var timer := seq(CHANNEL_COUNT, c requires 0 <= c < CHANNEL_COUNT => if c in top then TIMER_TOP else 0);
    State(timer, AllChannels(), Closure(cfg, Base(cfg, timer, AllChannels())), pending)
  }

  lemma TopIsHigh(cfg: Config, top: set<nat>, pending: set<nat>, c: nat)
    requires ValidConfig(cfg) && c < SYNC_CHANNEL_COUNT
    ensures var s := TopState(cfg, top, pending);
            && (BaseHigh(cfg, s.timer[c], s.triggered, c) <==> c in top || AlwaysHigh(cfg.channels[c]))
            && (BaseHigh(cfg, 0, s.triggered, c) <==> AlwaysHigh(cfg.channels[c]))
            && (c in top || AlwaysHigh(cfg.channels[c]) ==> c in s.outputs)
  {
    hide Closure;
  }

  lemma RingIsHigh(cfg: Config, source: nat, ring: set<nat>)
    requires ValidConfig(cfg) && ring <= SyncChannels() && ring <= Closure(cfg, ClockedIn(cfg, source, ring))
    ensures ring <= TopState(cfg, ClockedIn(cfg, source, ring), {}).outputs
  {
    hide Closure, BaseHigh;
    var top := ClockedIn(cfg, source, ring);
    var s := TopState(cfg, top, {});
    forall c | c in top ensures c in Base(cfg, s.timer, s.triggered) {
      TopIsHigh(cfg, top, {}, c);
    }
    ClosureGrows(cfg, top, Base(cfg, s.timer, s.triggered));
  }

  /** No transition of a ring state is less than two cycles away. */
  lemma TopStateFits(cfg: Config, source: nat, ring: set<nat>, c: nat)
    requires ValidConfig(cfg) && PairsLinkedAlike(cfg, source) && ring <= SyncChannels() && IsRing(cfg, ring)
    requires c < SYNC_CHANNEL_COUNT && ring <= TopState(cfg, ClockedIn(cfg, source, ring), {}).outputs
    ensures var t := SyncTransition(cfg, TopState(cfg, ClockedIn(cfg, source, ring), {}), source, c);
            t.After? ==> t.cycles >= 2
  {
    hide Closure, Base, Running;
    var s := TopState(cfg, ClockedIn(cfg, source, ring), {});
    assert c % 2 == 1 ==> c - c % 2 == Partner(c) && c - c % 2 + 1 == c;
    assert c % 2 == 0 ==> c - c % 2 == c && Partner(c) == c + 1;
    if s.timer[c] == TIMER_TOP {
      assert Held(cfg, s.outputs, c);
    } else if PairEnabled(cfg, c - c % 2) && s.timer[Partner(c)] == TIMER_TOP {
      assert Clocked(cfg, source, Partner(c)) && Held(cfg, s.outputs, Partner(c));
      assert Clocked(cfg, source, c);
      assert Held(cfg, s.outputs, c);
    }
  }

  lemma RingFalls(cfg: Config, source: nat, ring: set<nat>)
    requires ValidConfig(cfg) && PairsLinkedAlike(cfg, source) && ring <= SyncChannels() && IsRing(cfg, ring)
    requires forall c :: c in ring ==> !AlwaysHigh(cfg.channels[c])
    requires ring <= TopState(cfg, ClockedIn(cfg, source, ring), {}).outputs
    ensures Low(cfg, TopState(cfg, ClockedIn(cfg, source, ring), {}), source) * ring == {}
  {
    hide Closure, Base, BaseHigh, Clocked, UnitHeld, ResetPending;
    var top := ClockedIn(cfg, source, ring);
    var s := TopState(cfg, top, {});
    forall c | c in ring ensures c !in Remaining(cfg, s, source) {
      TopIsHigh(cfg, top, {}, c);
      if c in top {
        AlikeUnitHeld(cfg, source, s.outputs, c);
        assert Held(cfg, s.outputs, c);
      }
    }
    RingClosure(cfg, Remaining(cfg, s, source), ring);
    assert Remaining(cfg, s, source) * ring == {};
    NothingHigh(cfg);
  }

  /** Every falling ring makes two cycles in one call differ from two calls of one cycle. */
  lemma FallingRingDiffers(cfg: Config, source: nat, ring: set<nat>)
    requires ValidConfig(cfg) && PairsLinkedAlike(cfg, source) && FallingRing(cfg, source, ring)
    ensures var s := TopState(cfg, ClockedIn(cfg, source, ring), {});
            NoStalledReset(cfg, s, source) && !Agrees(cfg, s, source, 2)
  {
    hide Closure, Base, BaseHigh, Clocked, UnitRunning, PairsLinkedAlike, Low, SyncTransition, Able, TopState;
    var top := ClockedIn(cfg, source, ring);
    var s := TopState(cfg, top, {});
    RingIsHigh(cfg, source, ring);
    RingFalls(cfg, source, ring);
    forall c: nat | c < SYNC_CHANNEL_COUNT && SyncTransition(cfg, s, source, c).After?
      ensures 2 <= SyncTransition(cfg, s, source, c).cycles
    {
      TopStateFits(cfg, source, ring, c);
    }
    StepSizeIsLargest(cfg, s, source, 2, SYNC_CHANNEL_COUNT);
    var d: nat :| d < CHANNEL_COUNT && HeldBy(cfg, source, ring, d);
    NothingPending(cfg, top, source);
    AbleRuns(cfg, top, source, d);
    AlikeUnitHeld(cfg, source, s.outputs, d);
    AlikeUnitHeld(cfg, source, Low(cfg, s, source), d);
    assert Source(cfg, d) in s.outputs;
    TwoCyclesAgreeExactly(cfg, s, source);
  }

  lemma NothingPending(cfg: Config, top: set<nat>, source: nat)
    requires ValidConfig(cfg)
    ensures NoStalledReset(cfg, TopState(cfg, top, {}), source)
  {
    hide Closure, Base, Counting, SyncTransition;
  }

  /** With every trigger seen, what can run does, if it is held at all. */
  lemma AbleRuns(cfg: Config, top: set<nat>, source: nat, c: nat)
    requires ValidConfig(cfg) && c < CHANNEL_COUNT && Able(cfg, c)
    ensures UnitRunning(cfg, TopState(cfg, top, {}).triggered, c)
  {
    hide Operating;
  }

  /**
  Pairs linked alike: the fast clock is the clock called once per cycle, from all states without a
  stalled reset and for all spans, if and only if no ring of links can fall.
  */
  lemma AgreesExactlyWithoutFallingRing(cfg: Config, source: nat)
    requires ValidConfig(cfg) && PairsLinkedAlike(cfg, source)
    ensures NoFallingRing(cfg, source) <==>
            forall s: State, cycles: nat ::
              ValidState(s) && cycles > 0 && NoStalledReset(cfg, Refresh(cfg, s), source) ==> Agrees(cfg, s, source, cycles)
  {
    hide Closure, Refresh, Settled, NoStalledReset, Agrees, PairsLinkedAlike, IsRing, HeldBy;
    TwoCyclesDecide(false, cfg, source);
    if NoFallingRing(cfg, source) {
      forall s: State | ValidState(s) && Settled(cfg, s) && Admitted(false, cfg, s, source) ensures Agrees(cfg, s, source, 2) {
        NoFallingRingIsSteady(cfg, s, source);
        TwoCyclesAgreeExactly(cfg, s, source);
      }
    } else {
      var ring :| FallingRing(cfg, source, ring);
      FallingRingDiffers(cfg, source, ring);
      assert Admitted(false, cfg, TopState(cfg, ClockedIn(cfg, source, ring), {}), source);
    }
  }

  /** No set of channels is held entirely from within itself. */
  ghost predicate AcyclicLinks(cfg: Config)
    requires ValidConfig(cfg)
  {
    forall ring: set<nat> :: ring != {} && ring <= SyncChannels() ==> !IsRing(cfg, ring)
  }

  /** So with acyclic links, advancing in large steps is advancing one cycle at a time. */
  lemma AdvanceIsCycleByCycle(cfg: Config, s: State, source: nat, cycles: nat)
    requires ValidConfig(cfg) && ValidState(s) && cycles > 0 && PairsLinkedAlike(cfg, source)
    requires AcyclicLinks(cfg) && NoStalledReset(cfg, Refresh(cfg, s), source)
    ensures Advance(cfg, s, source, cycles) == CycleByCycle(cfg, s, source, cycles)
  {
    hide Closure, Refresh, NoStalledReset, PairsLinkedAlike, IsRing, Advance, CycleByCycle;
    AgreesExactlyWithoutFallingRing(cfg, source);
    assert Agrees(cfg, s, source, cycles);
  }

  // ---------------------------------------------------------------------------------------
  // Resets of half a pair, and of stopped channels
  // ---------------------------------------------------------------------------------------

  /** An unlinked output that the first cycle lowers releases what it alone holds. */
  lemma DroppedDiffers(cfg: Config, s: State, source: nat, c: nat, d: nat)
    requires ValidConfig(cfg) && ValidState(s) && Settled(cfg, s) && StepSize(cfg, s, source, 2) == 2
    requires c < SYNC_CHANNEL_COUNT && !Linked(cfg, c)
    requires Dropped(cfg, s, source, c) && !BaseHigh(cfg, 0, s.triggered, c)
    requires d < CHANNEL_COUNT && !PairConfigured(cfg, d) && WouldCount(cfg, s, source, d) && Source(cfg, d) == c
    ensures !Agrees(cfg, s, source, 2)
  {
    hide Closure, BaseHigh, Dropped, Clocked, UnitRunning, StepSize, PairConfigured;
    var low := Low(cfg, s, source);
    if c in low {
      ClosureIsSupported(cfg, Remaining(cfg, s, source), c);
    }
    assert !UnitHeld(cfg, low, d);
    TwoCyclesAgreeExactly(cfg, s, source);
  }

  /** With one timer at the top, not running or the upper word of a pair, no transition is less than two cycles away. */
  lemma OneTopFits(cfg: Config, source: nat, top: nat, pending: set<nat>)
    requires ValidConfig(cfg) && top < SYNC_CHANNEL_COUNT
    requires !Operating(cfg, top) || (top % 2 == 1 && PairEnabled(cfg, top - 1))
    ensures StepSize(cfg, TopState(cfg, {top}, pending), source, 2) == 2
  {
    hide Closure, Base, Operating, Held;
    var s := TopState(cfg, {top}, pending);
    forall c: nat | c < SYNC_CHANNEL_COUNT && SyncTransition(cfg, s, source, c).After?
      ensures 2 <= SyncTransition(cfg, s, source, c).cycles
    {
      assert c % 2 == 1 ==> c - c % 2 + 1 == c;
      assert c % 2 == 0 ==> c - c % 2 == c;
    }
    StepSizeIsLargest(cfg, s, source, 2, SYNC_CHANNEL_COUNT);
  }

  /** `d` runs on this clock by itself and is held by channel `c`. */
  ghost predicate HeldAlone(cfg: Config, source: nat, c: nat, d: nat)
    requires ValidConfig(cfg) && d < CHANNEL_COUNT
  {
    !PairConfigured(cfg, d) && Clocked(cfg, source, d) && Operating(cfg, d) && Linked(cfg, d) && Source(cfg, d) == c
  }

  lemma HeldAloneWouldCount(cfg: Config, source: nat, top: set<nat>, pending: set<nat>, c: nat, d: nat)
    requires ValidConfig(cfg) && c < SYNC_CHANNEL_COUNT && c in top && d < CHANNEL_COUNT && HeldAlone(cfg, source, c, d)
    ensures WouldCount(cfg, TopState(cfg, top, pending), source, d)
  {
    hide Closure, Operating, BaseHigh;
    TopIsHigh(cfg, top, pending, c);
  }

  /** A reset that waits for a stopped channel makes the channel it releases count late. */
  lemma StalledResetDiffers(cfg: Config, source: nat, c: nat, d: nat)
    requires ValidConfig(cfg) && c < SYNC_CHANNEL_COUNT && d < CHANNEL_COUNT
    requires Clocked(cfg, source, c) && !Operating(cfg, c) && !Linked(cfg, c) && !AlwaysHigh(cfg.channels[c])
    requires HeldAlone(cfg, source, c, d)
    ensures !Agrees(cfg, TopState(cfg, {c}, {c}), source, 2)
  {
    hide Operating, BaseHigh, TopState;
    OneTopFits(cfg, source, c, {c});
    TopIsHigh(cfg, {c}, {c}, c);
    HeldAloneWouldCount(cfg, source, {c}, {c}, c, d);
    PendingOf(cfg, {c}, {c});
    DroppedDiffers(cfg, TopState(cfg, {c}, {c}), source, c, d);
  }

  lemma PendingOf(cfg: Config, top: set<nat>, pending: set<nat>)
    requires ValidConfig(cfg)
    ensures TopState(cfg, top, pending).pending == pending
  {
  }

  /** So does a reset that waits for the lower half of a running pair whose upper word is at the top. */
  lemma PairResetDiffers(cfg: Config, source: nat, low: nat, d: nat)
    requires ValidConfig(cfg) && low % 2 == 0 && low + 1 < SYNC_CHANNEL_COUNT && d < CHANNEL_COUNT
    requires PairEnabled(cfg, low) && Clocked(cfg, source, low) && !Linked(cfg, low + 1)
    requires HeldAlone(cfg, source, low + 1, d)
    ensures !Agrees(cfg, TopState(cfg, {low + 1}, {low}), source, 2)
  {
    hide BaseHigh, TopState;
    OneTopFits(cfg, source, low + 1, {low});
    TopIsHigh(cfg, {low + 1}, {low}, low + 1);
    HeldAloneWouldCount(cfg, source, {low + 1}, {low}, low + 1, d);
    PendingOf(cfg, {low + 1}, {low});
    DroppedDiffers(cfg, TopState(cfg, {low + 1}, {low}), source, low + 1, d);
  }

  /** And, with nothing pending, a lower half held by a channel that is always high. */
  lemma HalfHeldDiffers(cfg: Config, source: nat, low: nat, d: nat)
    requires ValidConfig(cfg) && low % 2 == 0 && low + 1 < SYNC_CHANNEL_COUNT && d < CHANNEL_COUNT
    requires PairEnabled(cfg, low) && Clocked(cfg, source, low) && !Linked(cfg, low + 1)
    requires Linked(cfg, low) && AlwaysHigh(cfg.channels[Source(cfg, low)])
    requires HeldAlone(cfg, source, low + 1, d)
    ensures !Agrees(cfg, TopState(cfg, {low + 1}, {}), source, 2)
  {
    hide BaseHigh, TopState;
    OneTopFits(cfg, source, low + 1, {});
    TopIsHigh(cfg, {low + 1}, {}, low + 1);
    TopIsHigh(cfg, {low + 1}, {}, Source(cfg, low));
    HeldAloneWouldCount(cfg, source, {low + 1}, {}, low + 1, d);
    DroppedDiffers(cfg, TopState(cfg, {low + 1}, {}), source, low + 1, d);
  }

  // ---------------------------------------------------------------------------------------
  // One run
  // ---------------------------------------------------------------------------------------

  /** No step of the run releases a unit early or lets an output return. */
  ghost predicate SteadyRun(cfg: Config, s: State, source: nat, cycles: nat)
    requires ValidConfig(cfg) && ValidState(s)
    decreases cycles
  {
    cycles == 0
    || (var size := StepSize(cfg, s, source, cycles);
        && (size == 1 || (NoRelease(cfg, s, source, Low(cfg, s, source)) && NothingReturns(cfg, s, source, size)))
        && SteadyRun(cfg, Refresh(cfg, Step(cfg, s, source, size)), source, cycles - size))
  }

  /** For every configuration, rings and pairs of any kind included, a steady run agrees. */
  lemma {:induction false} SteadyRunAgrees(cfg: Config, s: State, source: nat, cycles: nat)
    requires ValidConfig(cfg) && ValidState(s) && Settled(cfg, s) && SteadyRun(cfg, s, source, cycles)
    ensures AdvanceSettled(cfg, s, source, cycles) == CycleByCycle(cfg, s, source, cycles)
    decreases cycles
  {
    hide Advance, Refresh, Step, StepSize, Settled, NoRelease, NothingReturns, Low, CycleByCycle, Fits;
    FirstOfCycles(cfg, s, source, 1);
    if cycles > 0 {
      var size := StepSize(cfg, s, source, cycles);
      StepSizeFits(cfg, s, source, cycles);
      if size == 1 {
        SettledStays(cfg, s);
        SingleCycle(cfg, s, source);
        FirstOfCycles(cfg, Advance(cfg, s, source, 1), source, 1);
      } else {
        StepIsCycleByCycle(cfg, s, source, size);
      }
      RefreshIsIdempotent(cfg, Step(cfg, s, source, size));
      SteadyRunAgrees(cfg, Refresh(cfg, Step(cfg, s, source, size)), source, cycles - size);
      CyclesCompose(cfg, s, source, size, cycles - size);
    }
  }

  /** A timer at the top that the step sets to zero although its own channel is not held: one half of a pair, or a reset. */
  predicate DropsAlone(cfg: Config, s: State, source: nat, c: nat)
    requires ValidConfig(cfg) && ValidState(s) && c < SYNC_CHANNEL_COUNT
  {
    && Dropped(cfg, s, source, c) && BaseHigh(cfg, s.timer[c], s.triggered, c) && !BaseHigh(cfg, 0, s.triggered, c)
    && !Held(cfg, s.outputs, c)
  }

  /**
  Acyclic links, with pairs of any kind: no output falls inside a step, so that nothing is released
  and nothing returns, if and only if no timer drops alone.
  */
  lemma NothingFallsExactly(cfg: Config, s: State, source: nat)
    requires ValidConfig(cfg) && ValidState(s) && Settled(cfg, s) && AcyclicLinks(cfg)
    ensures Falls(cfg, s, source) == {} <==> forall c: nat :: c < SYNC_CHANNEL_COUNT ==> !DropsAlone(cfg, s, source, c)
    ensures Falls(cfg, s, source) == {} ==>
              NoRelease(cfg, s, source, Low(cfg, s, source)) && forall n: nat :: n > 0 ==> NothingReturns(cfg, s, source, n)
  {
    hide Closure, BaseHigh, Dropped, UnitHeld, TriggeredBy, PulseSources, StepTimer;
    var falls, low, base := Falls(cfg, s, source), Low(cfg, s, source), Base(cfg, s.timer, s.triggered);
    ClosureIsLeast(cfg, Remaining(cfg, s, source), low);
    ClosureGrows(cfg, Remaining(cfg, s, source), base);
    if c: nat :| c < SYNC_CHANNEL_COUNT && DropsAlone(cfg, s, source, c) {
      ClosureIsLeast(cfg, base, s.outputs);
      if c in low {
        ClosureIsSupported(cfg, Remaining(cfg, s, source), c);
      }
      assert c in falls;
    } else if falls != {} {
      assert !IsRing(cfg, falls);
      var c :| c in falls && !(Linked(cfg, c) && Source(cfg, c) in falls);
      ClosureIsSupported(cfg, base, c);
      assert DropsAlone(cfg, s, source, c);
    }
    if falls == {} {
      assert forall c :: c in s.outputs ==> c in low || c in falls;
      assert low == s.outputs;
      assert forall high: set<nat> :: high * falls == {};
      NothingTriggers(cfg);
    }
  }
}