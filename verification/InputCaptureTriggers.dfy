/** Which channels an output triggers when it rises, and what a triggered channel does then. */
module InputCaptureTriggers {
  import opened InputCapture
  import opened InputCaptureClock

  /** The outputs that a refresh raises. */
  function Rising(cfg: Config, s: State): set<nat>
    requires ValidConfig(cfg) && ValidState(s)
  {
    Closure(cfg, Base(cfg, s.timer, s.triggered)) - s.outputs
  }

  /** The outputs that rise at one of the refreshes of a call. */
  function RisenFrom(cfg: Config, s: State, source: nat, cycles: nat): set<nat>
    requires ValidConfig(cfg) && ValidState(s)
    decreases cycles
  {
    if cycles == 0 then {}
    else
      var size := StepSize(cfg, s, source, cycles);
      var stepped := Step(cfg, s, source, size);
      Rising(cfg, stepped) + RisenFrom(cfg, Refresh(cfg, stepped), source, cycles - size)
  }

  function RisenIn(cfg: Config, s: State, source: nat, cycles: nat): set<nat>
    requires ValidConfig(cfg) && ValidState(s)
  {
    Rising(cfg, s) + RisenFrom(cfg, Refresh(cfg, s), source, cycles)
  }

  /** An operating channel in trigger mode whose source is the output of one of these channels. */
  predicate WaitsFor(cfg: Config, c: nat, outputs: set<nat>)
    requires ValidConfig(cfg) && c < CHANNEL_COUNT
  {
    Operating(cfg, c) && cfg.channels[c].trigger && exists r :: r in outputs && cfg.channels[c].syncSource == 16 + r
  }

  lemma RefreshTriggersExactly(cfg: Config, s: State, c: nat)
    requires ValidConfig(cfg) && ValidState(s) && c < CHANNEL_COUNT
    ensures c in Refresh(cfg, s).triggered <==> c in s.triggered || WaitsFor(cfg, c, Rising(cfg, s))
  {
    hide Closure, Operating;
    RefreshedState(cfg, s);
    var rising := Rising(cfg, s);
    assert c in TriggeredBy(cfg, PulseSources(rising)) <==> WaitsFor(cfg, c, rising);
  }

  lemma WaitsForEither(cfg: Config, c: nat, a: set<nat>, b: set<nat>)
    requires ValidConfig(cfg) && c < CHANNEL_COUNT
    ensures WaitsFor(cfg, c, a + b) <==> WaitsFor(cfg, c, a) || WaitsFor(cfg, c, b)
    ensures !WaitsFor(cfg, c, {})
  {
    hide Operating;
  }

  lemma {:induction false} SettledTriggersExactly(cfg: Config, s: State, source: nat, cycles: nat, c: nat)
    requires ValidConfig(cfg) && ValidState(s) && c < CHANNEL_COUNT
    ensures c in AdvanceSettled(cfg, s, source, cycles).triggered
       <==> c in s.triggered || WaitsFor(cfg, c, RisenFrom(cfg, s, source, cycles))
    decreases cycles
  {
    hide WaitsFor, Refresh, Step, Rising, StepSize;
    WaitsForEither(cfg, c, {}, {});
    if cycles > 0 {
      StepSizeFits(cfg, s, source, cycles);
      var size := StepSize(cfg, s, source, cycles);
      var stepped := Step(cfg, s, source, size);
      StepKeepsOutputs(cfg, s, source, size);
      RefreshTriggersExactly(cfg, stepped, c);
      SettledTriggersExactly(cfg, Refresh(cfg, stepped), source, cycles - size, c);
      WaitsForEither(cfg, c, Rising(cfg, stepped), RisenFrom(cfg, Refresh(cfg, stepped), source, cycles - size));
    }
  }

  /**
  After a call a channel is triggered if and only if it was before, or it operates, is in trigger mode
  and waits on sync source 16 + r for some output r that rose in the call.
  */
  lemma CallTriggersExactly(cfg: Config, s: State, source: nat, cycles: nat, c: nat)
    requires ValidConfig(cfg) && ValidState(s) && c < CHANNEL_COUNT
    ensures c in Advance(cfg, s, source, cycles).triggered
       <==> c in s.triggered
            || (Operating(cfg, c) && cfg.channels[c].trigger
                && exists r :: r in RisenIn(cfg, s, source, cycles) && cfg.channels[c].syncSource == 16 + r)
  {
    hide Refresh, Rising, AdvanceSettled, RisenFrom, Operating;
    RefreshTriggersExactly(cfg, s, c);
    SettledTriggersExactly(cfg, Refresh(cfg, s), source, cycles, c);
    WaitsForEither(cfg, c, Rising(cfg, s), RisenFrom(cfg, Refresh(cfg, s), source, cycles));
    var risen := RisenIn(cfg, s, source, cycles);
    assert WaitsFor(cfg, c, risen)
      <==> Operating(cfg, c) && cfg.channels[c].trigger && exists r :: r in risen && cfg.channels[c].syncSource == 16 + r;
  }

  /** A channel in trigger mode counts in the next cycle of its clock exactly if it operates and is triggered. */
  lemma TriggeredCounts(cfg: Config, s: State, source: nat, c: nat)
    requires ValidConfig(cfg) && ValidState(s) && Settled(cfg, s) && c < CHANNEL_COUNT && !PairConfigured(cfg, c)
    requires cfg.channels[c].trigger && cfg.channels[c].timerSource == source && c !in s.pending
    ensures Advance(cfg, s, source, 1).timer[c]
         == if Operating(cfg, c) && c in s.triggered then (s.timer[c] + 1) % 0x1_0000 else s.timer[c]
  {
    hide Closure, Refresh, Operating;
    SettledStays(cfg, s);
    SingleCycle(cfg, s, source);
    RefreshKeepsTimers(cfg, Step(cfg, s, source, 1));
  }

  /** So the channels waiting for a timer start counting in the cycle after it has reached the top. */
  lemma TopStartsWaiting(cfg: Config, s: State, source: nat, r: nat, c: nat)
    requires ValidConfig(cfg) && ValidState(s) && Settled(cfg, s) && r < SYNC_CHANNEL_COUNT && c < CHANNEL_COUNT
    requires Advance(cfg, s, source, 1).timer[r] == TIMER_TOP && r !in s.outputs
    requires !PairConfigured(cfg, c) && cfg.channels[c].trigger && cfg.channels[c].syncSource == 16 + r && Operating(cfg, c)
    requires Clocked(cfg, source, c) && c !in Advance(cfg, s, source, 1).pending
    ensures var t := Advance(cfg, s, source, 1);
            c in t.triggered && Advance(cfg, t, source, 1).timer[c] == (t.timer[c] + 1) % 0x1_0000
  {
    hide Refresh, Operating, Settled, Advance, Step, Closure;
    var stepped := Step(cfg, s, source, 1);
    SettledStays(cfg, s);
    SingleCycle(cfg, s, source);
    StepKeepsOutputs(cfg, s, source, 1);
    RefreshKeepsTimers(cfg, stepped);
    RefreshIsIdempotent(cfg, stepped);
    assert r in Base(cfg, stepped.timer, stepped.triggered);
    ClosureIsLeast(cfg, Base(cfg, stepped.timer, stepped.triggered), {});
    assert r in Rising(cfg, stepped);
    RefreshTriggersExactly(cfg, stepped, c);
    assert WaitsFor(cfg, c, Rising(cfg, stepped));
    TriggeredCounts(cfg, Refresh(cfg, stepped), source, c);
  }
}
