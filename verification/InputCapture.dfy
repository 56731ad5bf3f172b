/**
The sixteen input-capture timers, the eight synchronisation outputs that link them, and the
clock that advances them by many cycles at a time.

A control bit field of the peripheral (`sync_output_high`, `sync_reset_pending`, the trigger
status bits) is the set of channel numbers whose bit is set.
*/
module InputCapture {

  const CHANNEL_COUNT: nat := 16
  const SYNC_CHANNEL_COUNT: nat := 8
  const TIMER_TOP: nat := 0xffff
  const SYNC_IC_FIRST: nat := 16
  const SYNC_COMPARATOR_FIRST: nat := 24
  const SYNC_RESERVED: nat := 28

  datatype Power = Active | Idle | Sleep

  /** The ICxCON1 and ICxCON2 fields of one channel, and its module-disable bit. */
  datatype Channel = Channel(
    mode: nat,
    timerSource: nat,
    stopIdle: bool,
    trigger: bool,
    syncSource: nat,
    is32Bit: bool,
    pmdDisabled: bool)

  datatype Config = Config(power: Power, channels: seq<Channel>)

  /** The part of the peripheral that the clock changes. */
  datatype State = State(timer: seq<nat>, triggered: set<nat>, outputs: set<nat>, pending: set<nat>)

  ghost predicate ValidConfig(cfg: Config) {
    |cfg.channels| == CHANNEL_COUNT
  }

  ghost predicate ValidState(s: State) {
    && |s.timer| == CHANNEL_COUNT
    && (forall c :: 0 <= c < CHANNEL_COUNT ==> s.timer[c] <= TIMER_TOP)
    && s.outputs <= SyncChannels()
  }

  function SyncChannels(): (all: set<nat>)
    ensures forall c: nat :: c in all <==> c < SYNC_CHANNEL_COUNT
  {
    {0, 1, 2, 3, 4, 5, 6, 7}
  }

  // ---------------------------------------------------------------------------------------
  // What the configuration says about one channel
  // ---------------------------------------------------------------------------------------

  predicate SyncSourceValid(ch: Channel, c: nat) {
    if ch.syncSource == SYNC_RESERVED || (c < 8 && ch.syncSource == SYNC_IC_FIRST + c) then false
    else ch.trigger || ch.syncSource < SYNC_COMPARATOR_FIRST || ch.syncSource >= 29
  }

  predicate Supported(ch: Channel, c: nat) {
    && ch.mode != 0 && ch.mode != 6 && ch.mode != 7
    && ch.timerSource != 0x1400 && ch.timerSource != 0x1800
    && SyncSourceValid(ch, c)
  }

  predicate PairConfigured(cfg: Config, c: nat)
    requires ValidConfig(cfg) && c < CHANNEL_COUNT
  {
    var first := c - c % 2;
    cfg.channels[first].is32Bit && cfg.channels[first + 1].is32Bit
  }

  function Partner(c: nat): (p: nat)
    ensures c < CHANNEL_COUNT ==> p < CHANNEL_COUNT
  {
    if c % 2 == 0 then c + 1 else c - 1
  }

  predicate Operating(cfg: Config, c: nat)
    requires ValidConfig(cfg) && c < CHANNEL_COUNT
  {
    var ch := cfg.channels[c];
    && !ch.pmdDisabled
    && !(PairConfigured(cfg, c) && cfg.channels[Partner(c)].pmdDisabled)
    && Supported(ch, c)
    && cfg.power != Sleep
    && (cfg.power != Idle || !ch.stopIdle)
  }

  predicate PairEnabled(cfg: Config, c: nat)
    requires ValidConfig(cfg) && c < CHANNEL_COUNT
  {
    && c % 2 == 0
    && Operating(cfg, c) && Operating(cfg, c + 1)
    && cfg.channels[c].is32Bit && cfg.channels[c + 1].is32Bit
    && cfg.channels[c].timerSource == cfg.channels[c + 1].timerSource
  }

  /** The channel is held in reset by the synchronisation output of another channel. */
  predicate Linked(cfg: Config, c: nat)
    requires ValidConfig(cfg) && c < CHANNEL_COUNT
  {
    var ch := cfg.channels[c];
    !ch.trigger && SYNC_IC_FIRST <= ch.syncSource < SYNC_COMPARATOR_FIRST
  }

  function Source(cfg: Config, c: nat): (source: nat)
    requires ValidConfig(cfg) && c < CHANNEL_COUNT && Linked(cfg, c)
    ensures source < SYNC_CHANNEL_COUNT
  {
    cfg.channels[c].syncSource - SYNC_IC_FIRST
  }

  predicate Held(cfg: Config, outputs: set<nat>, c: nat)
    requires ValidConfig(cfg) && c < CHANNEL_COUNT
  {
    Linked(cfg, c) && Source(cfg, c) in outputs
  }

  predicate Running(cfg: Config, triggered: set<nat>, c: nat)
    requires ValidConfig(cfg) && c < CHANNEL_COUNT
  {
    Operating(cfg, c) && (!cfg.channels[c].trigger || c in triggered)
  }

  predicate PairRunning(cfg: Config, triggered: set<nat>, c: nat)
    requires ValidConfig(cfg) && c < CHANNEL_COUNT
  {
    PairEnabled(cfg, c) && Running(cfg, triggered, c) && Running(cfg, triggered, c + 1)
  }

  predicate BaseHigh(cfg: Config, timer: nat, triggered: set<nat>, c: nat)
    requires ValidConfig(cfg) && c < CHANNEL_COUNT
  {
    var ch := cfg.channels[c];
    if ch.pmdDisabled || ch.mode == 0 || ch.mode == 6 then true
    else if ch.trigger && c !in triggered then true
    else timer == TIMER_TOP
  }

  function Base(cfg: Config, timer: seq<nat>, triggered: set<nat>): (base: set<nat>)
    requires ValidConfig(cfg) && |timer| == CHANNEL_COUNT
    ensures base <= SyncChannels()
  {
    set c: nat | 0 <= c < SYNC_CHANNEL_COUNT && BaseHigh(cfg, timer[c], triggered, c)
  }

  // ---------------------------------------------------------------------------------------
  // Refreshing the synchronisation outputs
  // ---------------------------------------------------------------------------------------

  function Expand(cfg: Config, high: set<nat>): (wider: set<nat>)
    requires ValidConfig(cfg) && high <= SyncChannels()
    ensures high <= wider <= SyncChannels()
  {
    high + set c: nat | 0 <= c < SYNC_CHANNEL_COUNT && Held(cfg, high, c)
  }

  /** The outputs forced high by `base`, through any number of links. */
  function Closure(cfg: Config, base: set<nat>): (high: set<nat>)
    requires ValidConfig(cfg) && base <= SyncChannels()
    ensures base <= high <= SyncChannels()
    ensures Expand(cfg, high) == high
    decreases SyncChannels() - base
  {
    var wider := Expand(cfg, base);
    if wider == base then base
    else
      assert SyncChannels() - wider < SyncChannels() - base by {
        var c :| c in wider && c !in base;
        assert c in SyncChannels() - base && c !in SyncChannels() - wider;
      }
      Closure(cfg, wider)
  }

  ghost predicate ClosedUnderLinks(cfg: Config, high: set<nat>)
    requires ValidConfig(cfg)
  {
    forall c: nat :: c < SYNC_CHANNEL_COUNT && Held(cfg, high, c) ==> c in high
  }

  /** The closure is the least link-closed set of outputs that contains the base. */
  lemma {:induction false} ClosureIsLeast(cfg: Config, base: set<nat>, other: set<nat>)
    requires ValidConfig(cfg) && base <= SyncChannels()
    ensures base <= Closure(cfg, base) && ClosedUnderLinks(cfg, Closure(cfg, base))
    ensures base <= other && ClosedUnderLinks(cfg, other) ==> Closure(cfg, base) <= other
    decreases SyncChannels() - base
  {
    var high := Closure(cfg, base);
    forall c: nat | c < SYNC_CHANNEL_COUNT && Held(cfg, high, c) ensures c in high {
      assert c in Expand(cfg, high);
    }
    var wider := Expand(cfg, base);
    if wider != base {
      assert SyncChannels() - wider < SyncChannels() - base by {
        var c :| c in wider && c !in base;
        assert c in SyncChannels() - base && c !in SyncChannels() - wider;
      }
      ClosureIsLeast(cfg, wider, other);
    }
  }

  /** Every output in the closure is in the base or is held by an output in the closure. */
  lemma ClosureIsSupported(cfg: Config, base: set<nat>, c: nat)
    requires ValidConfig(cfg) && base <= SyncChannels()
    requires c in Closure(cfg, base)
    ensures c < SYNC_CHANNEL_COUNT
    ensures c in base || Held(cfg, Closure(cfg, base), c)
  {
    var high := Closure(cfg, base);
    if c !in base && !Held(cfg, high, c) {
      var smaller := high - {c};
      forall d: nat | d < SYNC_CHANNEL_COUNT && Held(cfg, smaller, d) ensures d in smaller {
        assert Held(cfg, high, d);
        ClosureIsLeast(cfg, base, high);
      }
      ClosureIsLeast(cfg, base, smaller);
      assert false;
    }
  }

  function TriggeredBy(cfg: Config, sources: set<nat>): set<nat>
    requires ValidConfig(cfg)
  {
    set c: nat | 0 <= c < CHANNEL_COUNT && Operating(cfg, c) && cfg.channels[c].trigger
                 && cfg.channels[c].syncSource in sources
  }

  function PulseSources(rising: set<nat>): set<nat> {
    set r | r in rising :: SYNC_IC_FIRST + r
  }

  /** The state after the outputs have been refreshed: one pass, or two when an output rose. */
  function Refresh(cfg: Config, s: State): (t: State)
    requires ValidConfig(cfg) && ValidState(s)
    ensures ValidState(t)
  {
    var high := Closure(cfg, Base(cfg, s.timer, s.triggered));
    var rising := high - s.outputs;
    if rising == {} then s.(outputs := high)
    else
      var triggered := s.triggered + TriggeredBy(cfg, PulseSources(rising));
      s.(triggered := triggered, outputs := Closure(cfg, Base(cfg, s.timer, triggered)))
  }

  ghost predicate Settled(cfg: Config, s: State)
    requires ValidConfig(cfg) && ValidState(s)
  {
    s.outputs == Closure(cfg, Base(cfg, s.timer, s.triggered))
  }

  /** Triggering a waiting channel can only lower outputs. */
  lemma TriggeringLowersOutputs(cfg: Config, timer: seq<nat>, triggered: set<nat>, more: set<nat>)
    requires ValidConfig(cfg) && |timer| == CHANNEL_COUNT && triggered <= more
    ensures Closure(cfg, Base(cfg, timer, more)) <= Closure(cfg, Base(cfg, timer, triggered))
  {
    var high := Closure(cfg, Base(cfg, timer, triggered));
    ClosureIsLeast(cfg, Base(cfg, timer, triggered), high);
    ClosureIsLeast(cfg, Base(cfg, timer, more), high);
  }

  /** A second refresh changes nothing, whatever the first one started from. */
  lemma RefreshIsIdempotent(cfg: Config, s: State)
    requires ValidConfig(cfg) && ValidState(s)
    ensures Settled(cfg, Refresh(cfg, s))
    ensures Refresh(cfg, Refresh(cfg, s)) == Refresh(cfg, s)
  {
    var t := Refresh(cfg, s);
    assert t.outputs - t.outputs == {};
  }

  // ---------------------------------------------------------------------------------------
  // Advancing the timers
  // ---------------------------------------------------------------------------------------

  predicate Clocked(cfg: Config, source: nat, c: nat)
    requires ValidConfig(cfg) && c < CHANNEL_COUNT
  {
    cfg.channels[if PairConfigured(cfg, c) then c - c % 2 else c].timerSource == source
  }

  predicate ResetPending(cfg: Config, s: State, c: nat)
    requires ValidConfig(cfg) && c < CHANNEL_COUNT
  {
    c in s.pending || (PairConfigured(cfg, c) && Partner(c) in s.pending)
  }

  function PairValue(low: nat, high: nat): nat {
    low + high * 0x1_0000
  }

  /** Timer `c` after `cycles` clock cycles during which the outputs stay as they are. */
  function StepTimer(cfg: Config, s: State, source: nat, cycles: nat, c: nat): (t: nat)
    requires ValidConfig(cfg) && ValidState(s) && c < CHANNEL_COUNT && cycles > 0
    ensures t <= TIMER_TOP
  {
    if !Clocked(cfg, source, c) then s.timer[c]
    else
      var reset := ResetPending(cfg, s, c);
      var count := if reset then cycles - 1 else cycles;
      if PairConfigured(cfg, c) then
        var first := c - c % 2;
        var held := Held(cfg, s.outputs, first) || Held(cfg, s.outputs, first + 1);
        if held then 0
        else if count == 0 || !PairRunning(cfg, s.triggered, first) then
          if reset then 0 else s.timer[c]
        else
          var value := (if reset then 0 else PairValue(s.timer[first], s.timer[first + 1])) + count;
          var wrapped := value % 0x1_0000_0000;
          if c == first then wrapped % 0x1_0000 else wrapped / 0x1_0000
      else if Held(cfg, s.outputs, c) then 0
      else if count == 0 || !Running(cfg, s.triggered, c) then if reset then 0 else s.timer[c]
      else ((if reset then 0 else s.timer[c]) + count) % 0x1_0000
  }

  function Step(cfg: Config, s: State, source: nat, cycles: nat): (t: State)
    requires ValidConfig(cfg) && ValidState(s) && cycles > 0
    ensures ValidState(t)
  {
    s.(timer := seq(CHANNEL_COUNT, c requires 0 <= c < CHANNEL_COUNT => StepTimer(cfg, s, source, cycles, c)),
       pending := set c | c in s.pending && !(c < CHANNEL_COUNT && Clocked(cfg, source, c)))
  }

  /** Cycles until the output of channel `c` can change; `None` when its timer cannot cause it. */
  datatype Transition = Never | After(cycles: nat)

  function SyncTransition(cfg: Config, s: State, source: nat, c: nat): (t: Transition)
    requires ValidConfig(cfg) && ValidState(s) && c < CHANNEL_COUNT
    ensures t.After? ==> t.cycles > 0
  {
    if c >= 8 || !Running(cfg, s.triggered, c) || cfg.channels[c].timerSource != source
       || Held(cfg, s.outputs, c) then Never
    else if PairEnabled(cfg, c - c % 2) then
      var first := c - c % 2;
      var low := s.timer[first];
      var high := s.timer[first + 1];
      if c == first then After(if low == TIMER_TOP then 1 else TIMER_TOP - low)
      else After(if high == TIMER_TOP then 0x1_0000 - low else (TIMER_TOP - high) * 0x1_0000 - low)
    else After(if s.timer[c] == TIMER_TOP then 1 else TIMER_TOP - s.timer[c])
  }

  /** The largest step not longer than `limit` that no transition of channels below `n` cuts. */
  function StepSizeBelow(cfg: Config, s: State, source: nat, limit: nat, n: nat): (size: nat)
    requires ValidConfig(cfg) && ValidState(s) && n <= SYNC_CHANNEL_COUNT
    ensures size <= limit && (limit > 0 ==> size > 0)
    ensures forall c: nat :: c < n && SyncTransition(cfg, s, source, c).After?
                             ==> size <= SyncTransition(cfg, s, source, c).cycles
  {
    if n == 0 then limit
    else
      var before := StepSizeBelow(cfg, s, source, limit, n - 1);
      match SyncTransition(cfg, s, source, n - 1)
      case Never => before
      case After(cycles) => if cycles < before then cycles else before
  }

  function StepSize(cfg: Config, s: State, source: nat, limit: nat): nat
    requires ValidConfig(cfg) && ValidState(s)
  {
    StepSizeBelow(cfg, s, source, limit, SYNC_CHANNEL_COUNT)
  }

  function AdvanceSettled(cfg: Config, s: State, source: nat, cycles: nat): (t: State)
    requires ValidConfig(cfg) && ValidState(s)
    ensures ValidState(t)
    decreases cycles
  {
    if cycles == 0 then s
    else
      var size := StepSize(cfg, s, source, cycles);
      AdvanceSettled(cfg, Refresh(cfg, Step(cfg, s, source, size)), source, cycles - size)
  }

  /** What one call of the clock does: refresh, then variable-size steps with refreshes between. */
  function Advance(cfg: Config, s: State, source: nat, cycles: nat): (t: State)
    requires ValidConfig(cfg) && ValidState(s)
    ensures ValidState(t)
  {
    AdvanceSettled(cfg, Refresh(cfg, s), source, cycles)
  }

  /** The same clock called once per cycle. */
  function CycleByCycle(cfg: Config, s: State, source: nat, cycles: nat): (t: State)
    requires ValidConfig(cfg) && ValidState(s)
    ensures ValidState(t)
    decreases cycles
  {
    if cycles == 0 then s else CycleByCycle(cfg, Advance(cfg, s, source, 1), source, cycles - 1)
  }

  // ---------------------------------------------------------------------------------------
  // The peripheral
  // ---------------------------------------------------------------------------------------

  /** Timer `c` and its pending bit decide its step; the other channels do not matter. */
  lemma StepTimerIsLocal(cfg: Config, s: State, t: State, source: nat, cycles: nat, c: nat)
    requires ValidConfig(cfg) && ValidState(s) && ValidState(t) && c < CHANNEL_COUNT && cycles > 0
    requires s.triggered == t.triggered && s.outputs == t.outputs
    requires s.timer[c] == t.timer[c] && (c in s.pending <==> c in t.pending)
    requires PairConfigured(cfg, c) ==> s.timer[Partner(c)] == t.timer[Partner(c)]
                                        && (Partner(c) in s.pending <==> Partner(c) in t.pending)
    ensures StepTimer(cfg, s, source, cycles, c) == StepTimer(cfg, t, source, cycles, c)
  {
    assert c % 2 == 1 ==> c - c % 2 + 1 == c;
  }

  lemma UnclockedTimerStays(cfg: Config, s: State, source: nat, cycles: nat, c: nat)
    requires ValidConfig(cfg) && ValidState(s) && c < CHANNEL_COUNT && cycles > 0
    ensures !Clocked(cfg, source, c) ==> StepTimer(cfg, s, source, cycles, c) == s.timer[c]
  {
  }

  lemma ZeroPair()
    ensures PairValue(0, 0) == 0
  {
  }

  /** A clocked pair steps as one 32-bit timer. */
  lemma StepOfPair(cfg: Config, s: State, cycles: nat, c: nat)
    requires ValidConfig(cfg) && ValidState(s) && cycles > 0
    requires c % 2 == 0 && c + 1 < CHANNEL_COUNT && PairConfigured(cfg, c)
    ensures var source := cfg.channels[c].timerSource;
            var reset := c in s.pending || c + 1 in s.pending;
            var count := if reset then cycles - 1 else cycles;
            var value := (if reset then 0 else PairValue(s.timer[c], s.timer[c + 1])) + count;
            (StepTimer(cfg, s, source, cycles, c), StepTimer(cfg, s, source, cycles, c + 1))
              == if Held(cfg, s.outputs, c) || Held(cfg, s.outputs, c + 1) then (0, 0)
                 else if count == 0 || !PairRunning(cfg, s.triggered, c) then
                   if reset then (0, 0) else (s.timer[c], s.timer[c + 1])
                 else (value % 0x1_0000_0000 % 0x1_0000, value % 0x1_0000_0000 / 0x1_0000)
  {
    hide Held, PairRunning, Operating, PairValue;
  }

  class Peripheral {
    const cfg: Config
    const timer: array<nat>
    var triggered: set<nat>
    var outputs: set<nat>
    var pending: set<nat>

    constructor (cfg: Config)
      requires ValidConfig(cfg)
      ensures Valid() && this.cfg == cfg && fresh(timer)
      ensures View() == State(seq(CHANNEL_COUNT, _ => 0), {}, {}, {})
    {
      this.cfg := cfg;
      timer := new nat[CHANNEL_COUNT](_ => 0);
      triggered, outputs, pending := {}, {}, {};
      new;
      assert timer[..] == seq(CHANNEL_COUNT, _ => 0);
    }

    ghost predicate Valid()
      reads this, timer
    {
      && ValidConfig(cfg)
      && timer.Length == CHANNEL_COUNT
      && ValidState(View())
    }

    ghost function View(): State
      reads this, timer
    {
      State(timer[..], triggered, outputs, pending)
    }

    method TriggerSource(source: nat)
      requires Valid()
      modifies this`triggered
      ensures triggered == old(triggered) + TriggeredBy(cfg, {source})
    {
      hide Operating;
      ghost var before := triggered;
      var channel := 0;
      while channel < CHANNEL_COUNT
        invariant channel <= CHANNEL_COUNT
        invariant triggered == before + (set c: nat | 0 <= c < channel && Operating(cfg, c)
                                           && cfg.channels[c].trigger && cfg.channels[c].syncSource == source)
      {
        var paired := PairEnabled(cfg, channel);
        if Operating(cfg, channel) && cfg.channels[channel].trigger
           && cfg.channels[channel].syncSource == source {
          triggered := triggered + {channel};
        }
        if paired {
          if Operating(cfg, channel + 1) && cfg.channels[channel + 1].trigger
             && cfg.channels[channel + 1].syncSource == source {
            triggered := triggered + {channel + 1};
          }
          channel := channel + 2;
        } else {
          channel := channel + 1;
        }
      }
    }

    method RefreshSyncOutputs()
      requires Valid()
      modifies this`triggered, this`outputs
      ensures Valid() && View() == Refresh(cfg, old(View()))
    {
      hide Closure;
      ghost var start := View();
      var pass := 0;
      while pass < 8
        invariant 0 <= pass <= 8
        invariant timer[..] == start.timer && pending == start.pending
        invariant outputs <= SyncChannels()
        invariant pass == 0 ==> View() == start
        invariant pass > 0 ==> Refresh(cfg, start).triggered == triggered && pass == 1
        invariant pass > 0 ==> Closure(cfg, Base(cfg, start.timer, triggered)) <= outputs
        invariant pass > 0 ==> Refresh(cfg, start).outputs == Closure(cfg, Base(cfg, start.timer, triggered))
      {
        var previous := outputs;
        var current := OutputsHigh();
        outputs := current;
        var rising := current - previous;
        if rising == {} {
          break;
        }
        ghost var waiting := triggered;
        TriggerRising(rising);
        TriggeringLowersOutputs(cfg, start.timer, waiting, triggered);
        pass := pass + 1;
      }
    }

    method OutputsHigh() returns (current: set<nat>)
      requires Valid()
      ensures current == Closure(cfg, Base(cfg, timer[..], triggered))
    {
      hide Expand, Base, Held, BaseHigh;
      current := BaseOutputs();
      ghost var settled := Closure(cfg, current);
      var stable := false;
      while !stable
        invariant current <= SyncChannels() && Closure(cfg, current) == settled
        invariant stable ==> Expand(cfg, current) == current
        decreases SyncChannels() - current, !stable
      {
        var expanded := ExpandOutputs(current);
        if expanded == current {
          stable := true;
        } else {
          assert SyncChannels() - expanded < SyncChannels() - current by {
            var c :| c in expanded && c !in current;
            assert c in SyncChannels() - current && c !in SyncChannels() - expanded;
          }
          current := expanded;
        }
      }
    }

    method BaseOutputs() returns (current: set<nat>)
      requires Valid()
      ensures current == Base(cfg, timer[..], triggered)
    {
      current := {};
      for channel := 0 to SYNC_CHANNEL_COUNT
        invariant current == set c: nat | 0 <= c < channel && BaseHigh(cfg, timer[c], triggered, c)
      {
        if BaseHigh(cfg, timer[channel], triggered, channel) {
          current := current + {channel};
        }
      }
    }

    method ExpandOutputs(current: set<nat>) returns (expanded: set<nat>)
      requires Valid() && current <= SyncChannels()
      ensures expanded == Expand(cfg, current)
    {
      expanded := current;
      for channel := 0 to SYNC_CHANNEL_COUNT
        invariant expanded == current + set c: nat | 0 <= c < channel && Held(cfg, current, c)
      {
        if Held(cfg, current, channel) {
          expanded := expanded + {channel};
        }
      }
    }

    lemma TriggeredByAnother(seen: set<nat>, channel: nat)
      requires ValidConfig(cfg)
      ensures TriggeredBy(cfg, PulseSources(seen + {channel}))
           == TriggeredBy(cfg, PulseSources(seen)) + TriggeredBy(cfg, {SYNC_IC_FIRST + channel})
    {
      hide Operating;
      assert PulseSources(seen + {channel}) == PulseSources(seen) + {SYNC_IC_FIRST + channel};
    }

    lemma NoSourceTriggers()
      requires ValidConfig(cfg)
      ensures TriggeredBy(cfg, PulseSources({})) == {}
    {
    }

    method TriggerRising(rising: set<nat>)
      requires Valid() && rising <= SyncChannels()
      modifies this`triggered
      ensures triggered == old(triggered) + TriggeredBy(cfg, PulseSources(rising))
    {
      hide TriggeredBy, PulseSources, Operating;
      ghost var before := triggered;
      NoSourceTriggers();
      assert {} == set r | r in rising && r < 0;
      for channel := 0 to SYNC_CHANNEL_COUNT
        invariant triggered == before + TriggeredBy(cfg, PulseSources(set r | r in rising && r < channel))
      {
        ghost var seen := set r | r in rising && r < channel;
        ghost var extended := set r | r in rising && r < channel + 1;
        if channel in rising {
          assert extended == seen + {channel};
          TriggeredByAnother(seen, channel);
          TriggerSource(SYNC_IC_FIRST + channel);
        } else {
          assert extended == seen;
        }
      }
      assert rising == set r | r in rising && r < SYNC_CHANNEL_COUNT;
    }

    method AdvanceStep(c: nat, cycles: nat)
      requires Valid() && c < CHANNEL_COUNT && cycles > 0
      requires !PairConfigured(cfg, c)
      modifies this`pending, timer
      ensures Valid() && pending == old(pending) - {c}
      ensures timer[..] == old(timer[..])[c := StepTimer(cfg, old(View()), cfg.channels[c].timerSource, cycles, c)]
    {
      var count := cycles;
      if c in pending {
        pending := pending - {c};
        timer[c] := 0;
        count := count - 1;
      }
      if count == 0 || Held(cfg, outputs, c) || !Running(cfg, triggered, c) {
        if Held(cfg, outputs, c) {
          timer[c] := 0;
        }
        return;
      }
      timer[c] := (timer[c] + count) % 0x1_0000;
    }

    method AdvancePair(c: nat, cycles: nat)
      requires Valid() && c % 2 == 0 && c + 1 < CHANNEL_COUNT && cycles > 0
      requires PairConfigured(cfg, c)
      modifies this`pending, timer
      ensures Valid() && pending == old(pending) - {c, c + 1}
      ensures timer[..] == old(timer[..])
                [c := StepTimer(cfg, old(View()), cfg.channels[c].timerSource, cycles, c)]
                [c + 1 := StepTimer(cfg, old(View()), cfg.channels[c].timerSource, cycles, c + 1)]
    {
      hide StepTimer, Held, PairRunning, Operating, PairValue;
      StepOfPair(cfg, View(), cycles, c);
      ZeroPair();
      var count := cycles;
      var held := Held(cfg, outputs, c) || Held(cfg, outputs, c + 1);
      if c in pending || c + 1 in pending {
        pending := pending - {c, c + 1};
        timer[c] := 0;
        timer[c + 1] := 0;
        count := count - 1;
      }
      if count == 0 || held || !PairRunning(cfg, triggered, c) {
        if held {
          timer[c] := 0;
          timer[c + 1] := 0;
        }
        return;
      }
      var value := (PairValue(timer[c], timer[c + 1]) + count) % 0x1_0000_0000;
      timer[c] := value % 0x1_0000;
      timer[c + 1] := value / 0x1_0000;
    }

    /** One step of the channel, or of the pair that starts at the channel. */
    method AdvanceAt(source: nat, cycles: nat, channel: nat) returns (next: nat)
      requires Valid() && cycles > 0 && channel < CHANNEL_COUNT
      requires PairConfigured(cfg, channel) ==> channel % 2 == 0
      modifies this`pending, timer
      ensures Valid()
      ensures next == channel + (if PairConfigured(cfg, channel) then 2 else 1)
      ensures forall c: nat :: channel <= c < next ==> timer[c] == StepTimer(cfg, old(View()), source, cycles, c)
      ensures forall c: nat :: c < CHANNEL_COUNT && !(channel <= c < next) ==> timer[c] == old(timer[c])
      ensures pending == old(pending) - set c: nat | channel <= c < next && Clocked(cfg, source, c)
    {
      hide StepTimer, Operating;
      var paired := PairConfigured(cfg, channel);
      var matches := cfg.channels[channel].timerSource == source;
      UnclockedTimerStays(cfg, View(), source, cycles, channel);
      next := channel + if paired then 2 else 1;
      if paired {
        UnclockedTimerStays(cfg, View(), source, cycles, channel + 1);
        if matches {
          AdvancePair(channel, cycles);
        }
      } else if matches {
        AdvanceStep(channel, cycles);
      }
    }

    /** One step of every channel on this clock. */
    method AdvanceChannels(source: nat, cycles: nat)
      requires Valid() && cycles > 0
      modifies this`pending, timer
      ensures Valid() && View() == Step(cfg, old(View()), source, cycles)
    {
      hide StepTimer, Operating, Clocked;
      ghost var s := View();
      var channel := 0;
      while channel < CHANNEL_COUNT
        invariant channel <= CHANNEL_COUNT && Valid()
        invariant channel < CHANNEL_COUNT && PairConfigured(cfg, channel) ==> channel % 2 == 0
        invariant forall c: nat :: c < channel ==> timer[c] == StepTimer(cfg, s, source, cycles, c)
        invariant forall c: nat :: channel <= c < CHANNEL_COUNT ==> timer[c] == s.timer[c]
        invariant pending == set c | c in s.pending && !(c < channel && Clocked(cfg, source, c))
      {
        StepTimerIsLocal(cfg, View(), s, source, cycles, channel);
        if PairConfigured(cfg, channel) {
          StepTimerIsLocal(cfg, View(), s, source, cycles, channel + 1);
        }
        channel := AdvanceAt(source, cycles, channel);
      }
      assert timer[..] == Step(cfg, s, source, cycles).timer;
    }

    method AdvanceClock(source: nat, cycles: nat)
      requires Valid()
      modifies this, timer
      ensures Valid() && View() == Advance(cfg, old(View()), source, cycles)
    {
      hide Refresh, Step, StepSize;
      var remaining := cycles;
      RefreshSyncOutputs();
      while remaining != 0
        invariant Valid() && 0 <= remaining
        invariant AdvanceSettled(cfg, View(), source, remaining) == Advance(cfg, old(View()), source, cycles)
      {
        var size := NextStep(source, remaining);
        AdvanceChannels(source, size);
        remaining := remaining - size;
        RefreshSyncOutputs();
      }
    }

    method NextStep(source: nat, limit: nat) returns (size: nat)
      requires Valid() && limit > 0
      ensures size == StepSize(cfg, View(), source, limit)
      ensures 0 < size <= limit
    {
      hide SyncTransition;
      size := limit;
      for channel := 0 to SYNC_CHANNEL_COUNT
        invariant size == StepSizeBelow(cfg, View(), source, limit, channel)
      {
        var transition := SyncTransitionOf(channel, source);
        if transition.After? && transition.cycles < size {
          size := transition.cycles;
        }
      }
    }

    method SyncTransitionOf(c: nat, source: nat) returns (t: Transition)
      requires Valid() && c < CHANNEL_COUNT
      ensures t == SyncTransition(cfg, View(), source, c)
    {
      if c >= 8 || !Running(cfg, triggered, c) || cfg.channels[c].timerSource != source || Held(cfg, outputs, c) {
        return Never;
      }
      if PairEnabled(cfg, c - c % 2) {
        var first := c - c % 2;
        var value := PairValue(timer[first], timer[first + 1]);
        var low := value % 0x1_0000;
        var high := value / 0x1_0000;
        if c == first {
          return After(if low == TIMER_TOP then 1 else TIMER_TOP - low);
        }
        return After(if high == TIMER_TOP then 0x1_0000 - low else (TIMER_TOP - high) * 0x1_0000 - low);
      }
      return After(if timer[c] == TIMER_TOP then 1 else TIMER_TOP - timer[c]);
    }
  }
}
