/**
The quadrature encoder's timer mode: counters that advance by many ticks in one go, with the statuses
that the passing positions raise, and the ticks until the compare output changes.
*/
module Qei {
  import opened Wrappers
  import Division

  const TURN: nat := 0x1_0000_0000
  const HALF: nat := 0x8000_0000
  const WORD: nat := 0x1_0000

  type Position = p: nat | p < TURN

  /** The counter `n` ticks on, up or down, in a ring of `turn` numbers. */
  function Moved(value: nat, up: bool, n: nat, turn: nat): (moved: nat)
    requires turn > 0
    ensures moved < turn
  {
    (if up then value + n else value - n) % turn
  }

  function Signed(p: Position): int {
    if p < HALF then p else p - TURN
  }

  /** The position with its sign bit inverted, so that it is ordered like the signed number. */
  function Key(p: Position): Position {
    if p < HALF then p + HALF else p - HALF
  }

  /** The compare registers, whether the gate lets the position count, and which inputs are up. */
  datatype Settings = Settings(high: Position, low: Position, gate: bool, countsIndex: bool, countsInterval: bool)

  /** The position and velocity counters, the direction last counted, and the statuses they raise. */
  datatype Encoder = Encoder(
    position: Position,
    velocity: nat,
    up: bool,
    overflow: bool,
    highStatus: bool,
    lowStatus: bool,
    velocityOverflow: bool)

  datatype Counters = Counters(encoder: Encoder, index: Position, interval: Position)

  // ---------------------------------------------------------------------------------------
  // One tick, and many
  // ---------------------------------------------------------------------------------------

  /** The last position, or velocity, before the sign changes in this direction. */
  function LastBefore(up: bool, half: nat): nat
    requires half > 0
  {
    if up then half - 1 else half
  }

  function PulseEncoder(st: Settings, up: bool, e: Encoder): Encoder
    requires e.velocity < WORD
  {
    var position := Moved(e.position, up, 1, TURN);
    Encoder(position, Moved(e.velocity, up, 1, WORD), up,
            e.overflow || e.position == LastBefore(up, HALF),
            e.highStatus || Signed(position) >= Signed(st.high),
            e.lowStatus || Signed(position) <= Signed(st.low),
            e.velocityOverflow || e.velocity == LastBefore(up, WORD / 2))
  }

  function Pulse(st: Settings, up: bool, c: Counters): Counters
    requires c.encoder.velocity < WORD
  {
    Counters(if st.gate then PulseEncoder(st, up, c.encoder) else c.encoder,
             if st.countsIndex then Moved(c.index, up, 1, TURN) else c.index,
             if st.countsInterval then Moved(c.interval, true, 1, TURN) else c.interval)
  }

  function Pulses(st: Settings, up: bool, c: Counters, n: nat): (d: Counters)
    requires c.encoder.velocity < WORD
    ensures d.encoder.velocity < WORD
  {
    if n == 0 then c else Pulse(st, up, Pulses(st, up, c, n - 1))
  }

  predicate Intersect(firstLow: int, firstHigh: int, secondLow: int, secondHigh: int) {
    firstLow <= secondHigh && secondLow <= firstHigh
  }

  /** Whether one of the positions that `n` ticks pass, the last one included, lies between two bounds. */
  predicate PathHits(start: Position, up: bool, n: nat, low: Position, high: Position)
    requires n > 0
  {
    var end := Moved(start, up, n, TURN);
    if n >= TURN then true
    else if up then
      if end > start then Intersect(start + 1, end, low, high)
      else (start != TURN - 1 && Intersect(start + 1, TURN - 1, low, high)) || Intersect(0, end, low, high)
    else
      if end < start then Intersect(end, start - 1, low, high)
      else (start != 0 && Intersect(0, start - 1, low, high)) || Intersect(end, TURN - 1, low, high)
  }

  predicate PathCrossesWord(start: nat, up: bool, n: nat, target: nat)
    requires n > 0
  {
    var end := Moved(start, up, n, WORD);
    if n >= WORD then true
    else if up then if end > start then start < target <= end else target > start || target <= end
    else if end < start then end <= target < start else target < start || target >= end
  }

  function AdvanceEncoder(st: Settings, up: bool, e: Encoder, n: nat): Encoder
    requires e.velocity < WORD && n > 0
  {
    var first := if up then HALF else HALF - 1;
    var firstWord := if up then WORD / 2 else WORD / 2 - 1;
    Encoder(Moved(e.position, up, n, TURN), Moved(e.velocity, up, n, WORD), up,
            e.overflow || PathHits(e.position, up, n, first, first),
            e.highStatus || PathHits(Key(e.position), up, n, Key(st.high), TURN - 1),
            e.lowStatus || PathHits(Key(e.position), up, n, 0, Key(st.low)),
            e.velocityOverflow || PathCrossesWord(e.velocity, up, n, firstWord))
  }

  function AdvanceTicks(st: Settings, up: bool, c: Counters, n: nat): (d: Counters)
    requires c.encoder.velocity < WORD
    ensures d.encoder.velocity < WORD
  {
    if n == 0 then c
    else
      Counters(if st.gate then AdvanceEncoder(st, up, c.encoder, n) else c.encoder,
               if st.countsIndex then Moved(c.index, up, n, TURN) else c.index,
               if st.countsInterval then Moved(c.interval, true, n, TURN) else c.interval)
  }

  /** The values of a ring within one turn. */
  lemma MovedWithinTurn(value: nat, up: bool, n: nat, turn: nat)
    requires value < turn && n <= turn
    ensures Moved(value, up, n, turn)
         == if up then (if value + n < turn then value + n else value + n - turn)
            else if n <= value then value - n else value - n + turn
  {
    if up {
      Division.Unique(value + n, turn, if value + n < turn then 0 else 1, if value + n < turn then value + n else value + n - turn);
    } else {
      Division.Unique(value - n, turn, if n <= value then 0 else -1, if n <= value then value - n else value - n + turn);
    }
  }

  lemma MovedAgain(value: nat, up: bool, n: nat, turn: nat)
    requires turn > 0
    ensures Moved(Moved(value, up, n, turn), up, 1, turn) == Moved(value, up, n + 1, turn)
  {
    if up {
      Division.AddModulo(value + n, 1, turn);
    } else {
      Division.AddModulo(value - n, -1, turn);
    }
  }

  /** A path that is one tick longer passes one position more. */
  lemma PathHitsNext(start: Position, up: bool, n: nat, low: Position, high: Position)
    requires low <= high
    ensures PathHits(start, up, n + 1, low, high)
       <==> (n > 0 && PathHits(start, up, n, low, high)) || low <= Moved(start, up, n + 1, TURN) <= high
  {
    hide Moved;
    if n + 1 <= TURN {
      MovedWithinTurn(start, up, n, TURN);
      MovedWithinTurn(start, up, n + 1, TURN);
    }
  }

  lemma PathCrossesNext(start: nat, up: bool, n: nat, target: nat)
    requires start < WORD && target < WORD
    ensures PathCrossesWord(start, up, n + 1, target)
       <==> (n > 0 && PathCrossesWord(start, up, n, target)) || Moved(start, up, n + 1, WORD) == target
  {
    hide Moved;
    if n + 1 <= WORD {
      MovedWithinTurn(start, up, n, WORD);
      MovedWithinTurn(start, up, n + 1, WORD);
    }
  }

  /** So the path of a whole advance hits exactly if one of its single ticks does. */
  lemma {:induction false} PathHitsExactly(start: Position, up: bool, n: nat, low: Position, high: Position)
    requires low <= high && n > 0
    ensures PathHits(start, up, n, low, high) <==> exists k: nat :: 1 <= k <= n && low <= Moved(start, up, k, TURN) <= high
  {
    hide PathHits, Moved;
    PathHitsNext(start, up, n - 1, low, high);
    if n > 1 {
      PathHitsExactly(start, up, n - 1, low, high);
    }
  }

  lemma KeyOrdersSigned(p: Position, q: Position)
    ensures Key(p) >= Key(q) <==> Signed(p) >= Signed(q)
  {
  }

  lemma KeyMoves(p: Position, up: bool, n: nat)
    ensures Key(Moved(p, up, n, TURN)) == Moved(Key(p), up, n, TURN)
  {
    var q := if up then p + n else p - n;
    Division.AddModulo(q, HALF, TURN);
    var k := if p < HALF then 0 else -1;
    Division.MultiplesVanish(k, q + HALF, TURN);
    var r := q % TURN;
    Division.Unique(r + HALF, TURN, if r < HALF then 0 else 1, Key(r));
  }

  lemma LastTickCrosses(value: nat, up: bool, half: nat)
    requires half > 0 && value < 2 * half
    ensures value == LastBefore(up, half) <==> Moved(value, up, 1, 2 * half) == if up then half else half - 1
  {
    MovedWithinTurn(value, up, 1, 2 * half);
  }

  /** The first advance, and one tick more, seen from the encoder. */
  lemma EncoderStarts(st: Settings, up: bool, e: Encoder)
    requires e.velocity < WORD
    ensures AdvanceEncoder(st, up, e, 1) == PulseEncoder(st, up, e)
  {
    hide PathHits, PathCrossesWord, Moved, Key, Signed;
    StatusesNext(st, up, e, 0);
    LastTickCrosses(e.position, up, HALF);
    LastTickCrosses(e.velocity, up, WORD / 2);
  }

  lemma EncoderNext(st: Settings, up: bool, e: Encoder, n: nat)
    requires e.velocity < WORD && n > 0
    ensures AdvanceEncoder(st, up, e, n + 1) == PulseEncoder(st, up, AdvanceEncoder(st, up, e, n))
  {
    hide PathHits, PathCrossesWord, Moved, Key, Signed;
    var before := AdvanceEncoder(st, up, e, n);
    MovedAgain(e.position, up, n, TURN);
    MovedAgain(e.velocity, up, n, WORD);
    StatusesNext(st, up, e, n);
    LastTickCrosses(before.position, up, HALF);
    LastTickCrosses(before.velocity, up, WORD / 2);
  }

  /** What one tick more adds to the paths. */
  lemma StatusesNext(st: Settings, up: bool, e: Encoder, n: nat)
    requires e.velocity < WORD
    ensures var p, v := Moved(e.position, up, n + 1, TURN), Moved(e.velocity, up, n + 1, WORD);
            var first, firstWord := if up then HALF else HALF - 1, if up then WORD / 2 else WORD / 2 - 1;
            && (PathHits(e.position, up, n + 1, first, first)
                <==> (n > 0 && PathHits(e.position, up, n, first, first)) || p == first)
            && (PathHits(Key(e.position), up, n + 1, Key(st.high), TURN - 1)
                <==> (n > 0 && PathHits(Key(e.position), up, n, Key(st.high), TURN - 1)) || Signed(p) >= Signed(st.high))
            && (PathHits(Key(e.position), up, n + 1, 0, Key(st.low))
                <==> (n > 0 && PathHits(Key(e.position), up, n, 0, Key(st.low))) || Signed(p) <= Signed(st.low))
            && (PathCrossesWord(e.velocity, up, n + 1, firstWord)
                <==> (n > 0 && PathCrossesWord(e.velocity, up, n, firstWord)) || v == firstWord)
  {
    hide PathHits, PathCrossesWord, Moved, Key, Signed;
    var first := if up then HALF else HALF - 1;
    PathHitsNext(e.position, up, n, first, first);
    PathHitsNext(Key(e.position), up, n, Key(st.high), TURN - 1);
    PathHitsNext(Key(e.position), up, n, 0, Key(st.low));
    PathCrossesNext(e.velocity, up, n, if up then WORD / 2 else WORD / 2 - 1);
    KeyMoves(e.position, up, n + 1);
    KeyOrdersSigned(Moved(e.position, up, n + 1, TURN), st.high);
    KeyOrdersSigned(st.low, Moved(e.position, up, n + 1, TURN));
  }

  lemma CountersNext(st: Settings, up: bool, c: Counters, n: nat)
    requires c.encoder.velocity < WORD
    ensures Pulse(st, up, AdvanceTicks(st, up, c, n)) == AdvanceTicks(st, up, c, n + 1)
  {
    hide AdvanceEncoder, PulseEncoder, Moved;
    MovedAgain(c.index, up, n, TURN);
    MovedAgain(c.interval, true, n, TURN);
    if n == 0 {
      EncoderStarts(st, up, c.encoder);
    } else {
      EncoderNext(st, up, c.encoder, n);
    }
  }

  /** An advance by many ticks is that many single ticks: counters, direction and all four statuses. */
  lemma {:induction false} AdvanceTicksIsPulses(st: Settings, up: bool, c: Counters, n: nat)
    requires c.encoder.velocity < WORD
    ensures AdvanceTicks(st, up, c, n) == Pulses(st, up, c, n)
  {
    hide AdvanceTicks, Pulse;
    if n == 0 {
      NoTicks(st, up, c);
    } else {
      AdvanceTicksIsPulses(st, up, c, n - 1);
      CountersNext(st, up, c, n - 1);
    }
  }

  lemma NoTicks(st: Settings, up: bool, c: Counters)
    requires c.encoder.velocity < WORD
    ensures AdvanceTicks(st, up, c, 0) == c
  {
  }

  // ---------------------------------------------------------------------------------------
  // The compare output
  // ---------------------------------------------------------------------------------------

  predicate OutputHigh(mode: nat, p: Position, high: Position, low: Position) {
    || (mode == 1 && Signed(p) >= Signed(high))
    || (mode == 2 && Signed(p) <= Signed(low))
    || (mode == 3 && Signed(high) <= Signed(p) <= Signed(low))
  }

  function Candidates(high: Position, low: Position): (candidates: seq<Position>)
    ensures |candidates| == 6
  {
    [high, Moved(high, false, 1, TURN), low, Moved(low, true, 1, TURN), HALF, HALF - 1]
  }

  /** The ticks to a position; a whole turn to the present one. */
  function TicksTo(p: Position, up: bool, q: Position): (ticks: nat)
    ensures 0 < ticks <= TURN
  {
    var distance := if up then Moved(q, false, p, TURN) else Moved(p, false, q, TURN);
    if distance == 0 then TURN else distance
  }

  lemma TicksToReach(p: Position, up: bool, q: Position)
    ensures Moved(p, up, TicksTo(p, up, q), TURN) == q
    ensures forall n: nat :: 0 < n <= TURN && Moved(p, up, n, TURN) == q ==> n == TicksTo(p, up, q)
  {
    hide Moved;
    MovedWithinTurn(q, false, p, TURN);
    MovedWithinTurn(p, false, q, TURN);
    MovedWithinTurn(p, up, TicksTo(p, up, q), TURN);
    forall n: nat | 0 < n <= TURN && Moved(p, up, n, TURN) == q ensures n == TicksTo(p, up, q) {
      MovedWithinTurn(p, up, n, TURN);
    }
  }

  /** The output changes only on the way into one of the candidates. */
  lemma ChangesAtCandidate(mode: nat, p: Position, up: bool, high: Position, low: Position)
    requires OutputHigh(mode, Moved(p, up, 1, TURN), high, low) != OutputHigh(mode, p, high, low)
    ensures Moved(p, up, 1, TURN) in Candidates(high, low)
  {
    hide Moved;
    MovedWithinTurn(p, up, 1, TURN);
    MovedWithinTurn(high, false, 1, TURN);
    MovedWithinTurn(low, true, 1, TURN);
    var q, candidates := Moved(p, up, 1, TURN), Candidates(high, low);
    assert q == candidates[0] || q == candidates[1] || q == candidates[2] || q == candidates[3] || q == candidates[4] || q == candidates[5];
  }

  /** The output as it will be after `n` ticks. */
  predicate OutputAfter(mode: nat, p: Position, up: bool, high: Position, low: Position, n: nat) {
    OutputHigh(mode, Moved(p, up, n, TURN), high, low)
  }

  /** No candidate nearer than `ticks` has a different output. */
  ghost predicate NoneNearer(mode: nat, p: Position, up: bool, high: Position, low: Position, ticks: nat) {
    forall q :: q in Candidates(high, low) && OutputHigh(mode, q, high, low) != OutputHigh(mode, p, high, low)
                ==> TicksTo(p, up, q) >= ticks
  }

  lemma {:induction false} OutputStays(mode: nat, p: Position, up: bool, high: Position, low: Position, ticks: nat, n: nat)
    requires NoneNearer(mode, p, up, high, low, ticks) && n < ticks && n <= TURN
    ensures OutputAfter(mode, p, up, high, low, n) == OutputHigh(mode, p, high, low)
  {
    hide Moved, OutputHigh, Candidates;
    MovedWithinTurn(p, up, 0, TURN);
    if n > 0 {
      OutputStays(mode, p, up, high, low, ticks, n - 1);
      MovedAgain(p, up, n - 1, TURN);
      var q := Moved(p, up, n, TURN);
      TicksToReach(p, up, q);
      if OutputHigh(mode, q, high, low) != OutputHigh(mode, p, high, low) {
        ChangesAtCandidate(mode, Moved(p, up, n - 1, TURN), up, high, low);
      }
    }
  }

  lemma WholeTurns(p: Position, up: bool, n: nat)
    ensures Moved(p, up, n, TURN) == Moved(p, up, n % TURN, TURN)
  {
    var q, r := n / TURN, n % TURN;
    if up {
      Division.MultiplesVanish(q, p + r, TURN);
    } else {
      Division.MultiplesVanish(-q, p - r, TURN);
    }
  }

  /**
  The next change of the output: after exactly so many ticks, and not before; or never, on the whole
  ring.
  */
  method TransitionTicks(mode: nat, p: Position, up: bool, high: Position, low: Position) returns (ticks: Option<nat>)
    ensures ticks.Some? ==> 0 < ticks.value < TURN
                            && OutputAfter(mode, p, up, high, low, ticks.value) != OutputHigh(mode, p, high, low)
                            && forall n: nat :: n < ticks.value ==>
                                 OutputAfter(mode, p, up, high, low, n) == OutputHigh(mode, p, high, low)
    ensures ticks.None? ==> forall n: nat :: OutputAfter(mode, p, up, high, low, n) == OutputHigh(mode, p, high, low)
  {
    hide OutputHigh, TicksTo, Moved;
    var candidates := Candidates(high, low);
    var isHigh := OutputHigh(mode, p, high, low);
    ticks := None;
    for k := 0 to |candidates|
      invariant ticks.Some? ==> exists q :: q in candidates && ticks.value == TicksTo(p, up, q) && OutputHigh(mode, q, high, low) != isHigh
      invariant forall i :: 0 <= i < k && OutputHigh(mode, candidates[i], high, low) != isHigh
                            ==> ticks.Some? && ticks.value <= TicksTo(p, up, candidates[i])
    {
      var distance := TicksTo(p, up, candidates[k]);
      if (ticks.None? || distance < ticks.value) && OutputHigh(mode, candidates[k], high, low) != isHigh {
        ticks := Some(distance);
      }
    }
    if ticks.Some? {
      var q :| q in candidates && ticks.value == TicksTo(p, up, q) && OutputHigh(mode, q, high, low) != isHigh;
      TransitionReached(mode, p, up, high, low, q);
      forall n: nat | n < ticks.value ensures OutputAfter(mode, p, up, high, low, n) == isHigh {
        OutputStays(mode, p, up, high, low, ticks.value, n);
      }
    } else {
      forall n: nat ensures OutputAfter(mode, p, up, high, low, n) == isHigh {
        WholeTurns(p, up, n);
        OutputStays(mode, p, up, high, low, TURN, n % TURN);
      }
    }
  }

  lemma TransitionReached(mode: nat, p: Position, up: bool, high: Position, low: Position, q: Position)
    requires OutputHigh(mode, q, high, low) != OutputHigh(mode, p, high, low)
    ensures TicksTo(p, up, q) < TURN && OutputAfter(mode, p, up, high, low, TicksTo(p, up, q)) == OutputHigh(mode, q, high, low)
  {
    hide Moved, OutputHigh;
    TicksToReach(p, up, q);
    MovedWithinTurn(p, up, TURN, TURN);
  }

  // ---------------------------------------------------------------------------------------
  // How far the device may advance
  // ---------------------------------------------------------------------------------------

  /** A divided clock and the cycles since its last tick. */
  datatype Clock = Clock(divider: nat, fraction: nat)

  ghost predicate ValidClock(clock: Clock) {
    clock.fraction < clock.divider
  }

  function TicksIn(clock: Clock, cycles: nat): nat
    requires ValidClock(clock)
  {
    (clock.fraction + cycles) / clock.divider
  }

  /** A channel with a mapped output: whether its position counts, and its input filter if that has work to do. */
  datatype Channel = Channel(
    mode: nat,
    up: bool,
    position: Position,
    high: Position,
    low: Position,
    counts: bool,
    counter: Clock,
    filter: Option<Clock>)

  ghost predicate ValidChannel(ch: Channel) {
    ValidClock(ch.counter) && (ch.filter.Some? ==> ValidClock(ch.filter.value))
  }

  predicate SteadyAt(ch: Channel, ticks: nat) {
    OutputAfter(ch.mode, ch.position, ch.up, ch.high, ch.low, ticks) == OutputHigh(ch.mode, ch.position, ch.high, ch.low)
  }

  /** The output does not change before `cycles` cycles have passed, nor does the filter take a sample. */
  ghost predicate SteadyFor(ch: Channel, cycles: nat)
    requires ValidChannel(ch)
  {
    && (ch.counts ==> forall c: nat :: c < cycles ==> SteadyAt(ch, TicksIn(ch.counter, c)))
    && (ch.filter.Some? ==> ch.filter.value.fraction + cycles <= ch.filter.value.divider)
  }

  lemma ShorterIsSteady(ch: Channel, cycles: nat, fewer: nat)
    requires ValidChannel(ch) && SteadyFor(ch, cycles) && fewer <= cycles
    ensures SteadyFor(ch, fewer)
  {
    hide SteadyAt, TicksIn;
  }

  /** The cycles up to a tick, as far as the limit goes. */
  method CyclesToTick(clock: Clock, ticks: nat, limit: nat) returns (cycles: nat)
    requires ValidClock(clock) && ticks > 0
    ensures cycles <= limit && (cycles == 0 <==> limit == 0) && forall c: nat :: c < cycles ==> TicksIn(clock, c) < ticks
  {
    Division.MultipleCrossed(clock.fraction, clock.divider, ticks, 0);
    var distance := ticks * clock.divider - clock.fraction;
    cycles := if distance < limit then distance else limit;
    forall c: nat | c < cycles ensures TicksIn(clock, c) < ticks {
      Division.MultipleCrossed(clock.fraction, clock.divider, ticks, c);
    }
  }

  /** The cycles for which one channel is steady. */
  method SteadyCycles(ch: Channel, limit: nat) returns (cycles: nat)
    requires ValidChannel(ch)
    ensures cycles <= limit && (cycles == 0 <==> limit == 0) && SteadyFor(ch, cycles)
  {
    hide OutputHigh, OutputAfter, TicksIn;
    cycles := limit;
    if ch.filter.Some? && ch.filter.value.divider - ch.filter.value.fraction < cycles {
      cycles := ch.filter.value.divider - ch.filter.value.fraction;
    }
    if ch.counts {
      var ticks := TransitionTicks(ch.mode, ch.position, ch.up, ch.high, ch.low);
      if ticks.Some? {
        cycles := CyclesToTick(ch.counter, ticks.value, cycles);
      }
    }
  }

  /** The boundary reported to the event loop: no output changes within it, and it is zero only for a limit of zero. */
  method BoundaryCycles(channels: seq<Channel>, limit: nat) returns (boundary: nat)
    requires forall i :: 0 <= i < |channels| ==> ValidChannel(channels[i])
    ensures boundary <= limit && (boundary == 0 <==> limit == 0)
    ensures forall i :: 0 <= i < |channels| ==> SteadyFor(channels[i], boundary)
  {
    hide SteadyFor;
    boundary := limit;
    for k := 0 to |channels|
      invariant boundary <= limit && (boundary == 0 <==> limit == 0)
      invariant forall i :: 0 <= i < k ==> SteadyFor(channels[i], boundary)
    {
      var cycles := SteadyCycles(channels[k], boundary);
      forall i | 0 <= i < k ensures SteadyFor(channels[i], cycles) {
        ShorterIsSteady(channels[i], boundary, cycles);
      }
      boundary := cycles;
    }
  }

  // ---------------------------------------------------------------------------------------
  // The channel
  // ---------------------------------------------------------------------------------------

  class CounterUnit {
    var position: Position
    var velocity: nat
    var index: Position
    var interval: Position
    var up: bool
    var overflow: bool
    var highStatus: bool
    var lowStatus: bool
    var velocityOverflow: bool
    var fraction: nat

    function View(): Counters
      reads this
    {
      Counters(Encoder(position, velocity, up, overflow, highStatus, lowStatus, velocityOverflow), index, interval)
    }

    constructor ()
      ensures View() == Counters(Encoder(0, 0, true, false, false, false, false), 0, 0) && fraction == 0
    {
      position, velocity, index, interval, up, fraction := 0, 0, 0, 0, true, 0;
      overflow, highStatus, lowStatus, velocityOverflow := false, false, false, false;
    }

    method AdvancePosition(st: Settings, direction: bool, ticks: nat)
      requires velocity < WORD && ticks > 0
      modifies this`position, this`velocity, this`up, this`overflow, this`highStatus, this`lowStatus, this`velocityOverflow
      ensures View().encoder == AdvanceEncoder(st, direction, old(View()).encoder, ticks)
    {
      hide PathHits, PathCrossesWord, Moved, Key;
      var key := Key(position);
      var first, firstWord := if direction then HALF else HALF - 1, if direction then WORD / 2 else WORD / 2 - 1;
      overflow := overflow || PathHits(position, direction, ticks, first, first);
      highStatus := highStatus || PathHits(key, direction, ticks, Key(st.high), TURN - 1);
      lowStatus := lowStatus || PathHits(key, direction, ticks, 0, Key(st.low));
      velocityOverflow := velocityOverflow || PathCrossesWord(velocity, direction, ticks, firstWord);
      position := Moved(position, direction, ticks, TURN);
      velocity := Moved(velocity, direction, ticks, WORD);
      up := direction;
    }

    method AdvanceTimerTicks(st: Settings, direction: bool, ticks: nat)
      requires velocity < WORD
      modifies this
      ensures View() == Pulses(st, direction, old(View()), ticks) && fraction == old(fraction)
    {
      AdvanceTicksIsPulses(st, direction, View(), ticks);
      hide AdvanceEncoder, Moved, Pulses;
      if ticks == 0 {
        return;
      }
      if st.gate {
        AdvancePosition(st, direction, ticks);
      }
      if st.countsIndex {
        index := Moved(index, direction, ticks, TURN);
      }
      if st.countsInterval {
        interval := Moved(interval, true, ticks, TURN);
      }
    }

    method AccumulateTicks(cycles: nat, divider: nat) returns (ticks: nat)
      requires fraction < divider
      modifies this`fraction
      ensures ticks == (old(fraction) + cycles) / divider && fraction == (old(fraction) + cycles) % divider
    {
      Division.SumSplits(cycles, fraction, divider);
      ticks := cycles / divider;
      var remainder := cycles % divider;
      if remainder != 0 && fraction >= divider - remainder {
        Division.Unique(remainder + fraction, divider, 1, fraction - (divider - remainder));
        ticks := ticks + 1;
        fraction := fraction - (divider - remainder);
      } else {
        Division.Unique(remainder + fraction, divider, 0, remainder + fraction);
        fraction := fraction + remainder;
      }
    }
  }
}
