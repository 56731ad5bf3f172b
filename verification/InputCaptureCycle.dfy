/**
One cycle of the input-capture clock in terms of the register fields: what every timer, trigger
status and output is after it.
*/
module InputCaptureCycle {
  import opened InputCapture
  import opened InputCaptureClock
  import opened InputCaptureTriggers

  /** The channel captures: a mode, clock and sync source that exist, in a power mode that lets it, with both modules of a pair. */
  predicate Works(cfg: Config, c: nat)
    requires ValidConfig(cfg) && c < CHANNEL_COUNT
  {
    var ch, other := cfg.channels[c], cfg.channels[if c % 2 == 0 then c + 1 else c - 1];
    && !(ch.mode == 0 || ch.mode == 6 || ch.mode == 7)
    && ch.timerSource != 0x1400 && ch.timerSource != 0x1800
    && ch.syncSource != 28 && (c > 7 || ch.syncSource != 16 + c)
    && (ch.trigger || ch.syncSource <= 23 || ch.syncSource >= 29)
    && !ch.pmdDisabled && (ch.is32Bit && other.is32Bit ==> !other.pmdDisabled)
    && (cfg.power == Active || (cfg.power == Idle && !ch.stopIdle))
  }

  lemma WorksExactly(cfg: Config, c: nat)
    requires ValidConfig(cfg) && c < CHANNEL_COUNT
    ensures Operating(cfg, c) <==> Works(cfg, c)
  {
    assert c % 2 == 0 ==> c - c % 2 == c;
    assert c % 2 == 1 ==> c - c % 2 == c - 1;
  }

  /** A high output holds the channel in reset. */
  predicate HeldBy(cfg: Config, outputs: set<nat>, c: nat)
    requires ValidConfig(cfg) && c < CHANNEL_COUNT
  {
    !cfg.channels[c].trigger && exists r: nat :: r < 8 && r in outputs && cfg.channels[c].syncSource == 16 + r
  }

  lemma HeldExactly(cfg: Config, outputs: set<nat>, c: nat)
    requires ValidConfig(cfg) && c < CHANNEL_COUNT
    ensures Held(cfg, outputs, c) <==> HeldBy(cfg, outputs, c)
  {
    if Held(cfg, outputs, c) {
      assert cfg.channels[c].syncSource == 16 + Source(cfg, c);
    }
  }

  /** It counts: it works, and is triggered if it has to be. */
  predicate Counts(cfg: Config, s: State, c: nat)
    requires ValidConfig(cfg) && c < CHANNEL_COUNT
  {
    Works(cfg, c) && (cfg.channels[c].trigger ==> c in s.triggered)
  }

  /** A channel of its own: held or reset to zero, counting in 16 bits, or stopped. */
  lemma CycleOfTimer(cfg: Config, s: State, source: nat, c: nat)
    requires ValidConfig(cfg) && ValidState(s) && Settled(cfg, s) && c < CHANNEL_COUNT
    requires !(cfg.channels[c].is32Bit && cfg.channels[if c % 2 == 0 then c + 1 else c - 1].is32Bit)
    ensures var after := Advance(cfg, s, source, 1);
            && after.timer[c] == (if cfg.channels[c].timerSource != source then s.timer[c]
                                  else if HeldBy(cfg, s.outputs, c) || c in s.pending then 0
                                  else if Counts(cfg, s, c) then (if s.timer[c] == 0xffff then 0 else s.timer[c] + 1)
                                  else s.timer[c])
            && (c in after.pending <==> c in s.pending && cfg.channels[c].timerSource != source)
  {
    hide Operating, Held, HeldBy, Works, Refresh, Settled, Closure, Advance;
    Cycle(cfg, s, source);
    WorksExactly(cfg, c);
    HeldExactly(cfg, s.outputs, c);
  }

  lemma Cycle(cfg: Config, s: State, source: nat)
    requires ValidConfig(cfg) && ValidState(s) && Settled(cfg, s)
    ensures Advance(cfg, s, source, 1).timer == Step(cfg, s, source, 1).timer
    ensures Advance(cfg, s, source, 1).pending == Step(cfg, s, source, 1).pending
  {
    hide Refresh, Step;
    SettledStays(cfg, s);
    SingleCycle(cfg, s, source);
    RefreshKeepsTimers(cfg, Step(cfg, s, source, 1));
  }

  /** Two channels as one 32-bit timer, clocked by the even one; either can hold or reset both, and both must count. */
  lemma CycleOfPair(cfg: Config, s: State, source: nat, c: nat)
    requires ValidConfig(cfg) && ValidState(s) && Settled(cfg, s) && c % 2 == 0 && c + 1 < CHANNEL_COUNT
    requires cfg.channels[c].is32Bit && cfg.channels[c + 1].is32Bit
    ensures var after := Advance(cfg, s, source, 1);
            var value := s.timer[c] + 0x1_0000 * s.timer[c + 1];
            && after.timer[c] + 0x1_0000 * after.timer[c + 1]
               == (if cfg.channels[c].timerSource != source then value
                   else if HeldBy(cfg, s.outputs, c) || HeldBy(cfg, s.outputs, c + 1) then 0
                   else if c in s.pending || c + 1 in s.pending then 0
                   else if Counts(cfg, s, c) && Counts(cfg, s, c + 1) && cfg.channels[c + 1].timerSource == source
                   then (if value == 0xffff_ffff then 0 else value + 1)
                   else value)
            && (c in after.pending <==> c in s.pending && cfg.channels[c].timerSource != source)
            && (c + 1 in after.pending <==> c + 1 in s.pending && cfg.channels[c].timerSource != source)
  {
    hide Operating, Held, HeldBy, Works, Refresh, Settled, Closure, Advance;
    Cycle(cfg, s, source);
    WorksExactly(cfg, c);
    WorksExactly(cfg, c + 1);
    HeldExactly(cfg, s.outputs, c);
    HeldExactly(cfg, s.outputs, c + 1);
  }

  lemma {:induction false} RunsEndSettled(cfg: Config, s: State, source: nat, cycles: nat)
    requires ValidConfig(cfg) && ValidState(s) && Settled(cfg, s)
    ensures Settled(cfg, AdvanceSettled(cfg, s, source, cycles))
    decreases cycles
  {
    hide Settled, Refresh, Step, StepSize;
    if cycles > 0 {
      StepSizeFits(cfg, s, source, cycles);
      var stepped := Step(cfg, s, source, StepSize(cfg, s, source, cycles));
      RefreshIsIdempotent(cfg, stepped);
      RunsEndSettled(cfg, Refresh(cfg, stepped), source, cycles - StepSize(cfg, s, source, cycles));
    }
  }

  /**
  After every call an output is high exactly if its channel is off, waits for its trigger, is at the
  top, or is held by a high output; and no smaller set of outputs is closed in this way.
  */
  lemma OutputsExactly(cfg: Config, s: State, source: nat, cycles: nat, c: nat, other: set<nat>)
    requires ValidConfig(cfg) && ValidState(s) && c < 8
    ensures var t := Advance(cfg, s, source, cycles);
            c in t.outputs <==> IsHigh(cfg, t, t.outputs, c)
    ensures var t := Advance(cfg, s, source, cycles);
            (forall d: nat :: d < 8 && IsHigh(cfg, t, other, d) ==> d in other) ==> t.outputs <= other
  {
    hide Operating, Held, HeldBy, AdvanceSettled, Refresh;
    RefreshIsIdempotent(cfg, s);
    RunsEndSettled(cfg, Refresh(cfg, s), source, cycles);
    var t := Advance(cfg, s, source, cycles);
    var base := Base(cfg, t.timer, t.triggered);
    HeldExactly(cfg, t.outputs, c);
    ClosureIsLeast(cfg, base, other);
    if c in t.outputs {
      ClosureIsSupported(cfg, base, c);
    }
    if forall d: nat :: d < 8 && IsHigh(cfg, t, other, d) ==> d in other {
      forall d: nat | d < 8 && Held(cfg, other, d) ensures d in other {
        HeldExactly(cfg, other, d);
        assert IsHigh(cfg, t, other, d);
      }
      forall d | d in base ensures d in other {
        assert IsHigh(cfg, t, other, d);
      }
    }
  }

  predicate IsHigh(cfg: Config, s: State, outputs: set<nat>, c: nat)
    requires ValidConfig(cfg) && ValidState(s) && c < CHANNEL_COUNT
  {
    var ch := cfg.channels[c];
    || ch.pmdDisabled || ch.mode == 0 || ch.mode == 6
    || (ch.trigger && c !in s.triggered)
    || s.timer[c] == 0xffff
    || HeldBy(cfg, outputs, c)
  }
}
