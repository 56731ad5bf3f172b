/**
The data converter interface: time slots of a frame that use a short ring of buffers in turn, the
prediction of the buffers that will ever be sent, and the transfers between ring and registers.
*/
module Dci {
  import Division

  type Word = x: nat | x < 0x10000

  const BUFFERS: nat := 4

  datatype Config = Config(bufferCount: nat, frameCount: nat, wordWidth: nat, transmitSlots: set<nat>,
                           receiveSlots: set<nat>, loopback: bool, repeatLast: bool)

  ghost predicate ValidConfig(cfg: Config) {
    1 <= cfg.bufferCount <= BUFFERS && 1 <= cfg.frameCount <= 16 && 4 <= cfg.wordWidth <= 16
  }

  predicate Active(cfg: Config, slot: nat) {
    slot in cfg.transmitSlots || slot in cfg.receiveSlots
  }

  // ---------------------------------------------------------------------------------------
  // Slots and buffers
  // ---------------------------------------------------------------------------------------

  datatype Position = Position(buffer: nat, slot: nat)

  function Next(cfg: Config, p: Position): Position
    requires ValidConfig(cfg)
  {
    Position(if Active(cfg, p.slot) then (if p.buffer + 1 == cfg.bufferCount then 0 else p.buffer + 1) else p.buffer,
             if p.slot + 1 == cfg.frameCount then 0 else p.slot + 1)
  }

  /** Where the interface is after `n` words. */
  function At(cfg: Config, n: nat): (p: Position)
    requires ValidConfig(cfg)
    ensures p.buffer < cfg.bufferCount && p.slot < cfg.frameCount
  {
    if n == 0 then Position(0, 0) else Next(cfg, At(cfg, n - 1))
  }

  /** The buffers that transmit slots use during the first `n` words. */
  function UsedBefore(cfg: Config, n: nat): set<nat>
    requires ValidConfig(cfg)
  {
    if n == 0 then {}
    else UsedBefore(cfg, n - 1) + if At(cfg, n - 1).slot in cfg.transmitSlots then {At(cfg, n - 1).buffer} else {}
  }

  function Period(cfg: Config): nat {
    cfg.bufferCount * cfg.frameCount
  }

  /** The prediction: what as many frames as there are buffers use. */
  function Predicted(cfg: Config): set<nat>
    requires ValidConfig(cfg)
  {
    UsedBefore(cfg, Period(cfg))
  }

  function ActiveBefore(cfg: Config, slot: nat): nat {
    if slot == 0 then 0 else ActiveBefore(cfg, slot - 1) + if Active(cfg, slot - 1) then 1 else 0
  }

  /** Within a frame, the buffer index has advanced by the active slots passed. */
  lemma {:induction false} AtWithinFrame(cfg: Config, start: nat, slot: nat)
    requires ValidConfig(cfg) && slot <= cfg.frameCount && At(cfg, start).slot == 0
    ensures At(cfg, start + slot).slot == if slot == cfg.frameCount then 0 else slot
    ensures At(cfg, start + slot).buffer == (At(cfg, start).buffer + ActiveBefore(cfg, slot)) % cfg.bufferCount
  {
    if slot > 0 {
      AtWithinFrame(cfg, start, slot - 1);
      var before := At(cfg, start).buffer + ActiveBefore(cfg, slot - 1);
      if Active(cfg, slot - 1) {
        Division.NextModulo(before, cfg.bufferCount);
      }
    } else {
      Division.Unique(At(cfg, start).buffer, cfg.bufferCount, 0, At(cfg, start).buffer);
    }
  }

  /** After `f` frames the buffer index has advanced by `f` times the active slots of a frame. */
  lemma {:induction false} AtFrame(cfg: Config, f: nat)
    requires ValidConfig(cfg)
    ensures At(cfg, f * cfg.frameCount) == Position(f * ActiveBefore(cfg, cfg.frameCount) % cfg.bufferCount, 0)
  {
    if f > 0 {
      AtFrame(cfg, f - 1);
      var a := ActiveBefore(cfg, cfg.frameCount);
      Division.Distributes(f - 1, 1, cfg.frameCount);
      AtWithinFrame(cfg, (f - 1) * cfg.frameCount, cfg.frameCount);
      Division.StepModulo(0, a, f, cfg.bufferCount);
    }
  }

  lemma PeriodReturns(cfg: Config)
    requires ValidConfig(cfg)
    ensures At(cfg, Period(cfg)) == Position(0, 0)
  {
    AtFrame(cfg, cfg.bufferCount);
    var a := ActiveBefore(cfg, cfg.frameCount);
    Division.Unique(cfg.bufferCount * a, cfg.bufferCount, a, 0);
  }

  lemma {:induction false} AtRepeats(cfg: Config, n: nat)
    requires ValidConfig(cfg)
    ensures At(cfg, n + Period(cfg)) == At(cfg, n)
  {
    if n == 0 {
      PeriodReturns(cfg);
    } else {
      AtRepeats(cfg, n - 1);
    }
  }

  lemma {:induction false} UsedContains(cfg: Config, n: nat, m: nat)
    requires ValidConfig(cfg) && m < n && At(cfg, m).slot in cfg.transmitSlots
    ensures At(cfg, m).buffer in UsedBefore(cfg, n)
  {
    if m < n - 1 {
      UsedContains(cfg, n - 1, m);
    }
  }

  lemma {:induction false} UsedHasWord(cfg: Config, n: nat, b: nat)
    requires ValidConfig(cfg) && b in UsedBefore(cfg, n)
    ensures exists m: nat :: m < n && At(cfg, m).slot in cfg.transmitSlots && At(cfg, m).buffer == b
  {
    if b in UsedBefore(cfg, n - 1) {
      UsedHasWord(cfg, n - 1, b);
    } else {
      assert At(cfg, n - 1).buffer == b;
    }
  }

  /** Each word of an unbounded run has a word of the first period in the same position. */
  lemma {:induction false} PositionInFirstPeriod(cfg: Config, n: nat) returns (m: nat)
    requires ValidConfig(cfg)
    ensures m < Period(cfg) && At(cfg, m) == At(cfg, n)
    decreases n
  {
    if n < Period(cfg) {
      m := n;
    } else {
      PeriodIsPositive(cfg);
      m := PositionInFirstPeriod(cfg, n - Period(cfg));
      AtRepeats(cfg, n - Period(cfg));
    }
  }

  lemma PeriodIsPositive(cfg: Config)
    requires ValidConfig(cfg)
    ensures Period(cfg) > 0
  {
    Division.Monotone(1, cfg.bufferCount, cfg.frameCount);
  }

  lemma PositionIsPredicted(cfg: Config, n: nat)
    requires ValidConfig(cfg) && At(cfg, n).slot in cfg.transmitSlots
    ensures At(cfg, n).buffer in Predicted(cfg)
  {
    var m := PositionInFirstPeriod(cfg, n);
    UsedContains(cfg, Period(cfg), m);
  }

  /** The prediction is exact: a buffer is in it if and only if some word of an unbounded run sends it. */
  lemma PredictionIsExact(cfg: Config, b: nat)
    requires ValidConfig(cfg)
    ensures b in Predicted(cfg) <==> exists n: nat :: At(cfg, n).slot in cfg.transmitSlots && At(cfg, n).buffer == b
  {
    if b in Predicted(cfg) {
      UsedHasWord(cfg, Period(cfg), b);
    } else if n: nat :| At(cfg, n).slot in cfg.transmitSlots && At(cfg, n).buffer == b {
      PositionIsPredicted(cfg, n);
    }
  }

  /** The prediction as the source computes it, frame by frame and slot by slot. */
  method ActiveTransmitBuffers(cfg: Config) returns (mask: set<nat>)
    requires ValidConfig(cfg)
    ensures mask == Predicted(cfg)
  {
    hide FrameStart, Period, FollowingBuffer;
    var index: nat := 0;
    mask := {};
    FrameStartsFollow(cfg, 0);
    for frame := 0 to cfg.bufferCount
      invariant At(cfg, FrameStart(cfg, frame)) == Position(index, 0)
      invariant mask == UsedBefore(cfg, FrameStart(cfg, frame))
    {
      ghost var start := FrameStart(cfg, frame);
      for slot := 0 to cfg.frameCount
        invariant At(cfg, start + slot) == Position(index, if slot == cfg.frameCount then 0 else slot)
        invariant mask == UsedBefore(cfg, start + slot)
      {
        if slot in cfg.transmitSlots {
          mask := mask + {index};
        }
        if Active(cfg, slot) {
          FollowingBufferWraps(cfg, index);
          index := FollowingBuffer(cfg, index);
        }
      }
      FrameStartsFollow(cfg, frame);
    }
  }

  function FollowingBuffer(cfg: Config, index: nat): nat
    requires ValidConfig(cfg)
  {
    (index + 1) % cfg.bufferCount
  }

  lemma FollowingBufferWraps(cfg: Config, index: nat)
    requires ValidConfig(cfg) && index < cfg.bufferCount
    ensures FollowingBuffer(cfg, index) == if index + 1 == cfg.bufferCount then 0 else index + 1
  {
    Division.NextModulo(index, cfg.bufferCount);
    Division.Unique(index, cfg.bufferCount, 0, index);
  }

  function FrameStart(cfg: Config, frame: nat): nat {
    frame * cfg.frameCount
  }

  lemma FrameStartsFollow(cfg: Config, frame: nat)
    ensures FrameStart(cfg, frame + 1) == FrameStart(cfg, frame) + cfg.frameCount
    ensures FrameStart(cfg, 0) == 0 && FrameStart(cfg, cfg.bufferCount) == Period(cfg)
  {
  }

  // ---------------------------------------------------------------------------------------
  // The data path
  // ---------------------------------------------------------------------------------------

  /** The ring buffers, the registers that software sees, and one bit per buffer in each of the masks. */
  datatype State = State(buffer: nat, slot: nat,
                         transmit: seq<Word>, lastTransmit: seq<Word>, receive: seq<Word>,
                         transmitRegisters: seq<Word>, receiveRegisters: seq<Word>,
                         transmitBuffered: set<nat>, transmitWritten: set<nat>, transmitUnderflow: set<nat>,
                         receiveBuffered: set<nat>, receiveUnread: set<nat>, receiveOverflow: set<nat>)

  ghost predicate Shaped(s: State) {
    |s.transmit| == |s.lastTransmit| == |s.receive| == |s.transmitRegisters| == |s.receiveRegisters| == BUFFERS
  }

  function PowerOfTwo(n: nat): (p: nat)
    ensures p > 0
  {
    if n == 0 then 1 else 2 * PowerOfTwo(n - 1)
  }

  /** The word bits of a value: the upper ones. */
  function Masked(cfg: Config, value: Word): Word
    requires ValidConfig(cfg)
  {
    var unused := PowerOfTwo(16 - cfg.wordWidth);
    Division.RemainderIsSmall(value, unused);
    value - value % unused
  }

  /** The value that a transfer loads into buffer `b`: the register if software wrote it since the last load. */
  function LoadValue(cfg: Config, s: State, b: nat): Word
    requires Shaped(s) && b < BUFFERS
  {
    if b in s.transmitWritten then s.transmitRegisters[b] else if cfg.repeatLast then s.lastTransmit[b] else 0
  }

  function Loads(s: State, count: nat): set<nat> {
    set b | b in s.transmitBuffered && b < count
  }

  function Deliveries(s: State, count: nat): set<nat> {
    set b | b in s.receiveBuffered && b < count
  }

  /** The used ones of the first `count` buffers are loaded again. */
  function LoadTransmit(cfg: Config, s: State, count: nat): (t: State)
    requires Shaped(s)
    ensures Shaped(t)
  {
    var loads := Loads(s, count);
    s.(transmit := seq(BUFFERS, b requires 0 <= b < BUFFERS => if b in loads then LoadValue(cfg, s, b) else s.transmit[b]),
       lastTransmit := seq(BUFFERS, b requires 0 <= b < BUFFERS =>
         if b in loads && b in s.transmitWritten then s.transmitRegisters[b] else s.lastTransmit[b]),
       transmitUnderflow := s.transmitUnderflow + (loads - s.transmitWritten),
       transmitWritten := s.transmitWritten - loads)
  }

  /** The used ones of the first `count` buffers go to the registers. */
  function DeliverReceive(s: State, count: nat): (t: State)
    requires Shaped(s)
    ensures Shaped(t)
  {
    var deliveries := Deliveries(s, count);
    s.(receiveRegisters := seq(BUFFERS, b requires 0 <= b < BUFFERS =>
         if b in deliveries then s.receive[b] else s.receiveRegisters[b]),
       receiveOverflow := s.receiveOverflow + deliveries * s.receiveUnread,
       receiveUnread := s.receiveUnread + deliveries)
  }

  function TransferUpTo(cfg: Config, s: State, receive: bool, transmit: bool, count: nat): (t: State)
    requires Shaped(s)
    ensures Shaped(t)
  {
    var delivered := if receive then DeliverReceive(s, count) else s;
    if transmit then LoadTransmit(cfg, delivered, count) else delivered
  }

  function TransferBuffers(cfg: Config, s: State, receive: bool, transmit: bool): (t: State)
    requires Shaped(s)
    ensures Shaped(t)
  {
    TransferUpTo(cfg, s, receive, transmit, cfg.bufferCount).(receiveBuffered := {}, transmitBuffered := {})
  }

  /** Enabling the interface, some time before it starts up; software may use the registers in between. */
  function Enable(s: State): (t: State)
    requires Shaped(s)
    ensures Shaped(t)
  {
    s.(buffer := 0, slot := 0, receiveBuffered := {}, transmitBuffered := {})
  }

  /** Starting up: the buffers that will ever be sent are loaded first. */
  function StartUp(cfg: Config, s: State): (t: State)
    requires ValidConfig(cfg) && Shaped(s)
    ensures Shaped(t)
  {
    var ready := s.(buffer := 0, slot := 0, transmitBuffered := Predicted(cfg));
    if Predicted(cfg) == {} then ready else TransferBuffers(cfg, ready, false, true)
  }

  /** The word that goes out in the current slot. */
  function Output(cfg: Config, s: State): Word
    requires ValidConfig(cfg) && Shaped(s) && s.buffer < BUFFERS
  {
    if s.slot in cfg.transmitSlots then Masked(cfg, s.transmit[s.buffer]) else 0
  }

  function Accept(cfg: Config, s: State, input: Word): (t: State)
    requires ValidConfig(cfg) && Shaped(s) && s.buffer < BUFFERS
    ensures Shaped(t)
  {
    var sent := if s.slot in cfg.transmitSlots then s.(transmitBuffered := s.transmitBuffered + {s.buffer}) else s;
    if s.slot in cfg.receiveSlots then
      var value := if cfg.loopback then Output(cfg, s) else Masked(cfg, input);
      sent.(receive := s.receive[s.buffer := value], receiveBuffered := s.receiveBuffered + {s.buffer})
    else
      sent
  }

  predicate TransferDue(cfg: Config, s: State) {
    Active(cfg, s.slot) && s.buffer + 1 == cfg.bufferCount
  }

  function Advance(cfg: Config, s: State): (t: State)
    requires ValidConfig(cfg) && Shaped(s)
    ensures Shaped(t)
  {
    var moved := if TransferDue(cfg, s) then TransferBuffers(cfg, s, s.receiveBuffered != {}, s.transmitBuffered != {}) else s;
    var next := Next(cfg, Position(s.buffer, s.slot));
    moved.(buffer := next.buffer, slot := next.slot)
  }

  function ProcessWord(cfg: Config, s: State, input: Word): (t: State)
    requires ValidConfig(cfg) && Shaped(s) && s.buffer < BUFFERS
    ensures Shaped(t)
  {
    Advance(cfg, Accept(cfg, s, input))
  }

  /** A word on the line, or software writing a transmit register or reading a receive register. */
  datatype Act = LineWord(input: Word) | Write(register: nat, value: Word) | Read(register: nat)

  function Perform(cfg: Config, s: State, act: Act): (t: State)
    requires ValidConfig(cfg) && Shaped(s) && s.buffer < BUFFERS
    ensures Shaped(t)
  {
    match act
    case LineWord(input) => ProcessWord(cfg, s, input)
    case Write(b, value) =>
      if b >= BUFFERS then s
      else
        var written := s.(transmitRegisters := s.transmitRegisters[b := value]);
        if b < cfg.bufferCount then
          written.(transmitWritten := s.transmitWritten + {b}, transmitUnderflow := s.transmitUnderflow - {b})
        else written
    case Read(b) => s.(receiveUnread := s.receiveUnread - {b}, receiveOverflow := s.receiveOverflow - {b})
  }

  // ---------------------------------------------------------------------------------------
  // What is sent and what is received, buffer by buffer
  // ---------------------------------------------------------------------------------------

  /** For each buffer, the values loaded into it, sent from it, received in it, and delivered from it. */
  datatype History = History(loaded: seq<seq<Word>>, sent: seq<seq<Word>>,
                             stored: seq<seq<Word>>, delivered: seq<seq<Word>>)

  ghost predicate Wide(h: History) {
    |h.loaded| == |h.sent| == |h.stored| == |h.delivered| == BUFFERS
  }

  /** Each listed buffer's history grows by the value it has in `values`. */
  function Grown(histories: seq<seq<Word>>, buffers: set<nat>, values: seq<Word>): (g: seq<seq<Word>>)
    requires |histories| == |values| == BUFFERS
    ensures |g| == BUFFERS
  {
    seq(BUFFERS, b requires 0 <= b < BUFFERS => if b in buffers then histories[b] + [values[b]] else histories[b])
  }

  function RecordTransfer(cfg: Config, s: State, h: History): (g: History)
    requires ValidConfig(cfg) && Shaped(s) && Wide(h)
    ensures Wide(g)
  {
    var t := TransferBuffers(cfg, s, s.receiveBuffered != {}, s.transmitBuffered != {});
    h.(loaded := Grown(h.loaded, Loads(s, cfg.bufferCount), t.transmit),
       delivered := Grown(h.delivered, Deliveries(s, cfg.bufferCount), t.receiveRegisters))
  }

  function RecordLine(cfg: Config, s: State, h: History, input: Word): (g: History)
    requires ValidConfig(cfg) && Shaped(s) && s.buffer < BUFFERS && Wide(h)
    ensures Wide(g)
  {
    var t := Accept(cfg, s, input);
    h.(sent := if s.slot in cfg.transmitSlots then Grown(h.sent, {s.buffer}, s.transmit) else h.sent,
       stored := if s.slot in cfg.receiveSlots then Grown(h.stored, {s.buffer}, t.receive) else h.stored)
  }

  datatype Traced = Traced(state: State, history: History, words: nat)

  function PerformTraced(cfg: Config, r: Traced, act: Act): Traced
    requires ValidConfig(cfg) && Shaped(r.state) && r.state.buffer < BUFFERS && Wide(r.history)
  {
    if act.LineWord? then
      var line := RecordLine(cfg, r.state, r.history, act.input);
      var t := Accept(cfg, r.state, act.input);
      Traced(Perform(cfg, r.state, act), if TransferDue(cfg, t) then RecordTransfer(cfg, t, line) else line, r.words + 1)
    else
      Traced(Perform(cfg, r.state, act), r.history, r.words)
  }

  /** What `buffered` buffers hold is still on its way from one history to the other. */
  ghost predicate InFlight(from: seq<seq<Word>>, to: seq<seq<Word>>, buffers: set<nat>, values: seq<Word>) {
    && |from| == |to| == |values| == BUFFERS
    && forall b: nat :: b < BUFFERS ==> from[b] == to[b] + if b in buffers then [values[b]] else []
  }

  ghost predicate Below(buffers: set<nat>, limit: nat) {
    forall b :: b in buffers ==> b < limit
  }

  /** What holds up to a bound on the buffers used since the last transfer. */
  ghost predicate Flowing(cfg: Config, s: State, h: History, limit: nat)
    requires ValidConfig(cfg)
  {
    && Shaped(s) && Below(s.transmitBuffered, limit) && Below(s.receiveBuffered, limit)
    && s.transmitBuffered <= Predicted(cfg)
    && InFlight(h.loaded, h.sent, Predicted(cfg) - s.transmitBuffered, s.transmit)
    && InFlight(h.stored, h.delivered, s.receiveBuffered, s.receive)
  }

  ghost predicate Consistent(cfg: Config, r: Traced) {
    && ValidConfig(cfg) && Wide(r.history)
    && Position(r.state.buffer, r.state.slot) == At(cfg, r.words)
    && Flowing(cfg, r.state, r.history, r.state.buffer)
  }

  function EmptyHistory(): (h: History)
    ensures Wide(h)
  {
    var none: seq<seq<Word>> := [[], [], [], []];
    History(none, none, none, none)
  }

  /** Enabled and started up, with the first loads as its history. */
  function Started(cfg: Config, s: State): Traced
    requires ValidConfig(cfg) && Shaped(s)
  {
    var started := StartUp(cfg, Enable(s));
    Traced(started, EmptyHistory().(loaded := Grown(EmptyHistory().loaded, Predicted(cfg), started.transmit)), 0)
  }

  lemma {:induction false} UsedInRange(cfg: Config, n: nat)
    requires ValidConfig(cfg)
    ensures Below(UsedBefore(cfg, n), cfg.bufferCount)
  {
    if n > 0 {
      UsedInRange(cfg, n - 1);
    }
  }

  lemma StartedIsConsistent(cfg: Config, s: State)
    requires ValidConfig(cfg) && Shaped(s)
    ensures Consistent(cfg, Started(cfg, s))
  {
    UsedInRange(cfg, Period(cfg));
    hide Predicted;
  }

  lemma AcceptFlows(cfg: Config, s: State, h: History, input: Word)
    requires ValidConfig(cfg) && Wide(h) && Flowing(cfg, s, h, s.buffer) && s.buffer < cfg.bufferCount
    requires s.slot in cfg.transmitSlots ==> s.buffer in Predicted(cfg)
    ensures Flowing(cfg, Accept(cfg, s, input), RecordLine(cfg, s, h, input),
                    if Active(cfg, s.slot) then s.buffer + 1 else s.buffer)
  {
    hide Predicted, Masked;
  }

  lemma TransferFlows(cfg: Config, s: State, h: History)
    requires ValidConfig(cfg) && Wide(h) && Flowing(cfg, s, h, cfg.bufferCount)
    ensures Flowing(cfg, TransferBuffers(cfg, s, s.receiveBuffered != {}, s.transmitBuffered != {}),
                    RecordTransfer(cfg, s, h), 0)
  {
    hide Predicted, LoadValue;
  }

  lemma PerformKeepsConsistent(cfg: Config, r: Traced, act: Act)
    requires Consistent(cfg, r)
    ensures Consistent(cfg, PerformTraced(cfg, r, act))
  {
    hide Predicted, Masked, TransferBuffers, Accept, RecordLine, RecordTransfer, InFlight;
    if act.LineWord? {
      if r.state.slot in cfg.transmitSlots {
        PositionIsPredicted(cfg, r.words);
      }
      AcceptFlows(cfg, r.state, r.history, act.input);
      AcceptStays(cfg, r.state, act.input);
      var t := Accept(cfg, r.state, act.input);
      if TransferDue(cfg, t) {
        TransferFlows(cfg, t, RecordLine(cfg, r.state, r.history, act.input));
      }
    }
  }

  lemma AcceptStays(cfg: Config, s: State, input: Word)
    requires ValidConfig(cfg) && Shaped(s) && s.buffer < BUFFERS
    ensures Accept(cfg, s, input).buffer == s.buffer && Accept(cfg, s, input).slot == s.slot
  {
  }

  function RunTraced(cfg: Config, s: State, acts: seq<Act>): (r: Traced)
    requires ValidConfig(cfg) && Shaped(s)
    ensures Consistent(cfg, r)
  {
    if acts == [] then
      StartedIsConsistent(cfg, s);
      Started(cfg, s)
    else
      var before := RunTraced(cfg, s, acts[..|acts| - 1]);
      PerformKeepsConsistent(cfg, before, acts[|acts| - 1]);
      PerformTraced(cfg, before, acts[|acts| - 1])
  }

  /**
  From start-up on, whatever the line and software do: the buffer index stays below the count; the
  values sent from a buffer are the values loaded into it, each once and in order, and a transmit
  slot always has a loaded value to send; the values received reach the registers, each once and in
  order.
  */
  lemma NothingLostOrRepeated(cfg: Config, s: State, acts: seq<Act>, b: nat)
    requires ValidConfig(cfg) && Shaped(s) && b < BUFFERS
    ensures var r := RunTraced(cfg, s, acts);
            && r.state.buffer < cfg.bufferCount
            && r.history.sent[b] <= r.history.loaded[b] && |r.history.loaded[b]| <= |r.history.sent[b]| + 1
            && r.history.delivered[b] <= r.history.stored[b] && |r.history.stored[b]| <= |r.history.delivered[b]| + 1
    ensures var r := RunTraced(cfg, s, acts);
            r.state.slot in cfg.transmitSlots && r.state.buffer == b ==>
              r.history.loaded[b] == r.history.sent[b] + [r.state.transmit[b]]
  {
    hide Predicted, RunTraced;
    var r := RunTraced(cfg, s, acts);
    if r.state.slot in cfg.transmitSlots && r.state.buffer == b {
      PositionIsPredicted(cfg, r.words);
    }
  }

  /** A buffer that no transmit slot will ever use is never loaded. */
  lemma UnusedBuffersStayEmpty(cfg: Config, s: State, acts: seq<Act>, b: nat)
    requires ValidConfig(cfg) && Shaped(s) && b < BUFFERS
    requires forall n: nat :: !(At(cfg, n).slot in cfg.transmitSlots && At(cfg, n).buffer == b)
    ensures RunTraced(cfg, s, acts).history.loaded[b] == []
  {
    PredictionIsExact(cfg, b);
    hide Predicted, RunTraced, PerformTraced;
    SentNothing(cfg, s, acts, b);
  }

  lemma {:induction false} SentNothing(cfg: Config, s: State, acts: seq<Act>, b: nat)
    requires ValidConfig(cfg) && Shaped(s) && b < BUFFERS
    requires forall n: nat :: !(At(cfg, n).slot in cfg.transmitSlots && At(cfg, n).buffer == b)
    ensures RunTraced(cfg, s, acts).history.sent[b] == []
  {
    hide Predicted, Perform, RecordTransfer, Accept;
    if acts != [] {
      SentNothing(cfg, s, acts[..|acts| - 1], b);
      var r := RunTraced(cfg, s, acts[..|acts| - 1]);
      assert At(cfg, r.words).slot in cfg.transmitSlots ==> At(cfg, r.words).buffer != b;
      if acts[|acts| - 1].LineWord? {
        SentAfterLine(cfg, r, acts[|acts| - 1], b);
      }
    }
  }

  lemma SentAfterLine(cfg: Config, r: Traced, act: Act, b: nat)
    requires Consistent(cfg, r) && b < BUFFERS && act.LineWord?
    requires r.state.slot in cfg.transmitSlots ==> r.state.buffer != b
    ensures PerformTraced(cfg, r, act).history.sent[b] == r.history.sent[b]
  {
    hide Predicted, Perform, TransferBuffers, Accept;
  }

  // ---------------------------------------------------------------------------------------
  // The interface
  // ---------------------------------------------------------------------------------------

  function DeliverOne(s: State, b: nat): State
    requires Shaped(s) && b < BUFFERS
  {
    s.(receiveRegisters := s.receiveRegisters[b := s.receive[b]], receiveUnread := s.receiveUnread + {b},
       receiveOverflow := s.receiveOverflow + if b in s.receiveUnread then {b} else {})
  }

  function LoadOne(cfg: Config, s: State, b: nat): State
    requires Shaped(s) && b < BUFFERS
  {
    s.(transmit := s.transmit[b := LoadValue(cfg, s, b)],
       lastTransmit := s.lastTransmit[b := if b in s.transmitWritten then s.transmitRegisters[b] else s.lastTransmit[b]],
       transmitUnderflow := s.transmitUnderflow + (if b in s.transmitWritten then {} else {b}),
       transmitWritten := s.transmitWritten - {b})
  }

  lemma NothingTransferred(cfg: Config, s: State, receive: bool, transmit: bool)
    requires Shaped(s)
    ensures TransferUpTo(cfg, s, receive, transmit, 0) == s
  {
  }

  lemma LoadExtends(cfg: Config, s: State, b: nat)
    requires Shaped(s) && b < BUFFERS
    ensures LoadTransmit(cfg, s, b + 1)
         == if b in s.transmitBuffered then LoadOne(cfg, LoadTransmit(cfg, s, b), b) else LoadTransmit(cfg, s, b)
  {
    assert Loads(s, b + 1) == Loads(s, b) + if b in s.transmitBuffered then {b} else {};
  }

  lemma DeliverExtends(s: State, b: nat)
    requires Shaped(s) && b < BUFFERS
    ensures DeliverReceive(s, b + 1)
         == if b in s.receiveBuffered then DeliverOne(DeliverReceive(s, b), b) else DeliverReceive(s, b)
  {
    assert Deliveries(s, b + 1) == Deliveries(s, b) + if b in s.receiveBuffered then {b} else {};
  }

  /** Delivering one buffer and loading others do not disturb each other. */
  lemma DeliverCommutes(cfg: Config, s: State, b: nat, count: nat)
    requires Shaped(s) && b < BUFFERS
    ensures LoadTransmit(cfg, DeliverOne(s, b), count) == DeliverOne(LoadTransmit(cfg, s, count), b)
  {
  }

  lemma TransferStays(cfg: Config, s: State, receive: bool, transmit: bool, count: nat)
    requires Shaped(s)
    ensures var t := TransferUpTo(cfg, s, receive, transmit, count);
            && t.buffer == s.buffer && t.slot == s.slot
            && t.transmitBuffered == s.transmitBuffered && t.receiveBuffered == s.receiveBuffered
  {
  }

  /** Transferring one more buffer, first its received and then its transmitted value. */
  lemma TransferExtends(cfg: Config, s: State, receive: bool, transmit: bool, b: nat)
    requires Shaped(s) && b < BUFFERS
    ensures var now := TransferUpTo(cfg, s, receive, transmit, b);
            var delivered := (if receive && b in now.receiveBuffered then DeliverOne(now, b) else now);
            TransferUpTo(cfg, s, receive, transmit, b + 1)
              == if transmit && b in now.transmitBuffered then LoadOne(cfg, delivered, b) else delivered
  {
    hide LoadTransmit, DeliverReceive, LoadOne;
    TransferStays(cfg, s, receive, transmit, b);
    TransferStays(cfg, s, receive, false, b + 1);
    DeliverExtends(s, b);
    DeliverCommutes(cfg, if receive then DeliverReceive(s, b) else s, b, b);
    LoadExtends(cfg, TransferUpTo(cfg, s, receive, false, b + 1), b);
  }

  class Interface {
    const config: Config
    var buffer: nat
    var slot: nat
    const transmit: array<Word>
    const lastTransmit: array<Word>
    const receive: array<Word>
    const transmitRegisters: array<Word>
    const receiveRegisters: array<Word>
    var transmitBuffered: set<nat>
    var transmitWritten: set<nat>
    var transmitUnderflow: set<nat>
    var receiveBuffered: set<nat>
    var receiveUnread: set<nat>
    var receiveOverflow: set<nat>

    ghost predicate Ready()
      reads this
    {
      && ValidConfig(config)
      && transmit.Length == lastTransmit.Length == receive.Length == transmitRegisters.Length == receiveRegisters.Length == BUFFERS
      && transmit != lastTransmit && transmit != receive && transmit != transmitRegisters && transmit != receiveRegisters
      && lastTransmit != receive && lastTransmit != transmitRegisters && lastTransmit != receiveRegisters
      && receive != transmitRegisters && receive != receiveRegisters && transmitRegisters != receiveRegisters
    }

    function View(): State
      reads this, transmit, lastTransmit, receive, transmitRegisters, receiveRegisters
    {
      State(buffer, slot, transmit[..], lastTransmit[..], receive[..], transmitRegisters[..], receiveRegisters[..],
            transmitBuffered, transmitWritten, transmitUnderflow, receiveBuffered, receiveUnread, receiveOverflow)
    }

    constructor (config: Config)
      requires ValidConfig(config)
      ensures Ready() && this.config == config && Shaped(View())
      ensures fresh(transmit) && fresh(lastTransmit) && fresh(receive) && fresh(transmitRegisters) && fresh(receiveRegisters)
    {
      this.config := config;
      buffer, slot := 0, 0;
      transmit := new Word[BUFFERS](_ => 0);
      lastTransmit := new Word[BUFFERS](_ => 0);
      receive := new Word[BUFFERS](_ => 0);
      transmitRegisters := new Word[BUFFERS](_ => 0);
      receiveRegisters := new Word[BUFFERS](_ => 0);
      transmitBuffered, transmitWritten, transmitUnderflow := {}, {}, {};
      receiveBuffered, receiveUnread, receiveOverflow := {}, {}, {};
    }

    method TransferAll(receiving: bool, transmitting: bool)
      requires Ready()
      modifies this, transmit, lastTransmit, receiveRegisters
      ensures View() == TransferBuffers(config, old(View()), receiving, transmitting)
    {
      hide TransferUpTo;
      ghost var before := View();
      NothingTransferred(config, before, receiving, transmitting);
      for b := 0 to config.bufferCount
        invariant View() == TransferUpTo(config, before, receiving, transmitting, b)
      {
        ghost var now := View();
        if receiving && b in receiveBuffered {
          Deliver(b);
        }
        assert View() == if receiving && b in now.receiveBuffered then DeliverOne(now, b) else now;
        ghost var delivered := View();
        if transmitting && b in transmitBuffered {
          Load(b);
        }
        assert View() == if transmitting && b in now.transmitBuffered then LoadOne(config, delivered, b) else delivered;
        TransferExtends(config, before, receiving, transmitting, b);
      }
      receiveBuffered := {};
      transmitBuffered := {};
    }

    method Start()
      requires Ready()
      modifies this
      ensures View() == Enable(old(View()))
    {
      buffer, slot := 0, 0;
      receiveBuffered := {};
      transmitBuffered := {};
    }

    method StartUpTransfer()
      requires Ready()
      modifies this, transmit, lastTransmit, receiveRegisters
      ensures View() == StartUp(config, old(View()))
    {
      hide Predicted, TransferBuffers;
      var mask := ActiveTransmitBuffers(config);
      buffer, slot := 0, 0;
      transmitBuffered := mask;
      if mask != {} {
        TransferAll(false, true);
      }
    }

    method ProcessLineWord(input: Word) returns (output: Word)
      requires Ready() && buffer < config.bufferCount
      modifies this, transmit, lastTransmit, receive, receiveRegisters
      ensures output == Output(config, old(View()))
      ensures View() == ProcessWord(config, old(View()), input)
    {
      hide Masked, TransferUpTo;
      var isTransmitSlot, isReceiveSlot := slot in config.transmitSlots, slot in config.receiveSlots;
      output := if isTransmitSlot then Masked(config, transmit[buffer]) else 0;
      if isTransmitSlot {
        transmitBuffered := transmitBuffered + {buffer};
      }
      if isReceiveSlot {
        receive[buffer] := if config.loopback then output else Masked(config, input);
        receiveBuffered := receiveBuffered + {buffer};
      }
      assert View() == Accept(config, old(View()), input);
      if isTransmitSlot || isReceiveSlot {
        if buffer + 1 == config.bufferCount {
          TransferStays(config, View(), receiveBuffered != {}, transmitBuffered != {}, config.bufferCount);
          TransferAll(receiveBuffered != {}, transmitBuffered != {});
          buffer := 0;
        } else {
          buffer := buffer + 1;
        }
      }
      slot := slot + 1;
      if slot == config.frameCount {
        slot := 0;
      }
    }

    method Deliver(b: nat)
      requires Ready() && b < BUFFERS
      modifies this`receiveUnread, this`receiveOverflow, receiveRegisters
      ensures View() == DeliverOne(old(View()), b)
    {
      if b in receiveUnread {
        receiveOverflow := receiveOverflow + {b};
      }
      receiveRegisters[b] := receive[b];
      receiveUnread := receiveUnread + {b};
    }

    method Load(b: nat)
      requires Ready() && b < BUFFERS
      modifies this`transmitWritten, this`transmitUnderflow, transmit, lastTransmit
      ensures View() == LoadOne(config, old(View()), b)
    {
      if b in transmitWritten {
        var value := transmitRegisters[b];
        transmit[b] := value;
        lastTransmit[b] := value;
      } else {
        transmitUnderflow := transmitUnderflow + {b};
        transmit[b] := if config.repeatLast then lastTransmit[b] else 0;
      }
      transmitWritten := transmitWritten - {b};
    }

    method WriteTransmitRegister(b: nat, value: Word)
      requires Ready() && b < BUFFERS && buffer < BUFFERS
      modifies this, transmitRegisters
      ensures View() == Perform(config, old(View()), Write(b, value))
    {
      transmitRegisters[b] := value;
      if b < config.bufferCount {
        transmitWritten := transmitWritten + {b};
        transmitUnderflow := transmitUnderflow - {b};
      }
    }

    method ReadReceiveRegister(b: nat) returns (value: Word)
      requires Ready() && b < BUFFERS && buffer < BUFFERS
      modifies this
      ensures value == receiveRegisters[b] && View() == Perform(config, old(View()), Read(b))
    {
      value := receiveRegisters[b];
      receiveUnread := receiveUnread - {b};
      receiveOverflow := receiveOverflow - {b};
    }
  }
}
