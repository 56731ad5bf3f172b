/**
What a run of the data converter interface does, seen from outside: which bits of which value are on
the line in each slot, when buffers are transferred, which value a transfer loads, and which marks
the registers carry.
*/
module DciRuns {
  import opened Dci
  import opened Wrappers
  import Division

  /** `bits` are the upper `width` bits of the 16-bit value, in place. */
  predicate UpperBits(bits: Word, value: Word, width: nat)
    requires 4 <= width <= 16
  {
    var unused := [0x1000, 0x800, 0x400, 0x200, 0x100, 0x80, 0x40, 0x20, 0x10, 8, 4, 2, 1][width - 4];
    bits <= value < bits + unused && bits % unused == 0
  }

  lemma UnusedBits(width: nat)
    requires 4 <= width <= 16
    ensures PowerOfTwo(16 - width) == [0x1000, 0x800, 0x400, 0x200, 0x100, 0x80, 0x40, 0x20, 0x10, 8, 4, 2, 1][width - 4]
  {
    assert PowerOfTwo(3) == 8 && PowerOfTwo(6) == 0x40 && PowerOfTwo(9) == 0x200 && PowerOfTwo(12) == 0x1000;
  }

  lemma MaskedIsUpperBits(cfg: Config, value: Word)
    requires ValidConfig(cfg)
    ensures UpperBits(Masked(cfg, value), value, cfg.wordWidth)
  {
    hide PowerOfTwo;
    UnusedBits(cfg.wordWidth);
    var unused := PowerOfTwo(16 - cfg.wordWidth);
    Division.Unique(value - value % unused, unused, value / unused, 0);
  }

  /** The run with one more word on the line. */
  function WithWord(cfg: Config, s: State, acts: seq<Act>, input: Word): Traced
    requires ValidConfig(cfg) && Shaped(s)
  {
    RunTraced(cfg, s, acts + [LineWord(input)])
  }

  lemma WithWordPerforms(cfg: Config, s: State, acts: seq<Act>, input: Word)
    requires ValidConfig(cfg) && Shaped(s)
    ensures WithWord(cfg, s, acts, input) == PerformTraced(cfg, RunTraced(cfg, s, acts), LineWord(input))
  {
    assert (acts + [LineWord(input)])[..|acts|] == acts;
  }

  /** In a transmit slot the upper bits of the value last loaded into the buffer go out; otherwise zero does. */
  lemma LineShowsLoaded(cfg: Config, s: State, acts: seq<Act>)
    requires ValidConfig(cfg) && Shaped(s)
    ensures var r := RunTraced(cfg, s, acts);
            var out, loaded := Output(cfg, r.state), r.history.loaded[r.state.buffer];
            if r.state.slot in cfg.transmitSlots then loaded != [] && UpperBits(out, loaded[|loaded| - 1], cfg.wordWidth)
            else out == 0
  {
    hide Predicted, Masked, RunTraced, UpperBits;
    var r := RunTraced(cfg, s, acts);
    NothingLostOrRepeated(cfg, s, acts, r.state.buffer);
    MaskedIsUpperBits(cfg, r.state.transmit[r.state.buffer]);
  }

  /** A receive slot stores the upper bits of the word on the line, or in loopback of the word sent; no other slot stores. */
  lemma WordIsStored(cfg: Config, s: State, acts: seq<Act>, input: Word, b: nat)
    requires ValidConfig(cfg) && Shaped(s) && b < BUFFERS
    ensures var r := RunTraced(cfg, s, acts);
            var before, after := r.history.stored[b], WithWord(cfg, s, acts, input).history.stored[b];
            if r.state.slot in cfg.receiveSlots && b == r.state.buffer then
              && |after| == |before| + 1 && before <= after
              && (if cfg.loopback then after[|before|] == Output(cfg, r.state) else UpperBits(after[|before|], input, cfg.wordWidth))
            else after == before
  {
    hide Predicted, Masked, Output, RunTraced, UpperBits, Perform, RecordTransfer;
    WithWordPerforms(cfg, s, acts, input);
    MaskedIsUpperBits(cfg, input);
    var r := RunTraced(cfg, s, acts);
    TransferRecordsFlow(cfg, Accept(cfg, r.state, input), RecordLine(cfg, r.state, r.history, input));
  }

  lemma TransferRecordsFlow(cfg: Config, s: State, h: History)
    requires ValidConfig(cfg) && Shaped(s) && Wide(h)
    ensures RecordTransfer(cfg, s, h).stored == h.stored && RecordTransfer(cfg, s, h).sent == h.sent
  {
  }

  /**
  Buffers are transferred only by the word that completes the ring, in the last buffer; it leaves
  nothing undelivered, and a new value in every buffer that is ever sent.
  */
  lemma TransferCompletesRing(cfg: Config, s: State, acts: seq<Act>, input: Word, b: nat)
    requires ValidConfig(cfg) && Shaped(s) && b < BUFFERS
    ensures var r, after := RunTraced(cfg, s, acts), WithWord(cfg, s, acts, input);
            if r.state.slot in cfg.transmitSlots + cfg.receiveSlots && r.state.buffer == cfg.bufferCount - 1 then
              && after.history.delivered[b] == after.history.stored[b]
              && (b in Predicted(cfg) ==> |after.history.loaded[b]| == |after.history.sent[b]| + 1)
            else
              after.history.delivered[b] == r.history.delivered[b] && after.history.loaded[b] == r.history.loaded[b]
  {
    hide Predicted, Masked, Output, RunTraced, Accept, TransferBuffers;
    WithWordPerforms(cfg, s, acts, input);
    var r, after := RunTraced(cfg, s, acts), WithWord(cfg, s, acts, input);
    AcceptStays(cfg, r.state, input);
    assert Consistent(cfg, after);
  }

  // ---------------------------------------------------------------------------------------
  // The registers and marks of one buffer
  // ---------------------------------------------------------------------------------------

  /**
  The book of one buffer: the values loaded and delivered, what software has written since the last
  load, the value to repeat, and the marks.
  */
  datatype Book = Book(loaded: seq<Word>, delivered: seq<Word>, written: Option<Word>, repeated: Word,
                       underflow: bool, unread: bool, overflow: bool)

  /** A load takes what was written since the last one; without a write it repeats, or takes zero, and marks that. */
  function LoadBook(repeatLast: bool, k: Book): Book {
    match k.written
    case Some(value) => k.(loaded := k.loaded + [value], written := None, repeated := value)
    case None => k.(loaded := k.loaded + [if repeatLast then k.repeated else 0], underflow := true)
  }

  /** A delivery on top of an unread value marks the overflow. */
  function DeliverBook(k: Book, value: Word): Book {
    k.(delivered := k.delivered + [value], overflow := k.overflow || k.unread, unread := true)
  }

  function SoftwareBook(k: Book, act: Act, b: nat): Book {
    if act.Write? && act.register == b then k.(written := Some(act.value), underflow := false)
    else if act.Read? && act.register == b then k.(unread := false, overflow := false)
    else k
  }

  /** The book after an act that takes the histories from `h` to `g`. */
  ghost function NextBook(cfg: Config, k: Book, h: History, act: Act, g: History, b: nat): Book
    requires b < BUFFERS && Wide(h) && Wide(g)
  {
    var software := SoftwareBook(k, act, b);
    var delivered := if |g.delivered[b]| > |h.delivered[b]| then DeliverBook(software, g.delivered[b][|h.delivered[b]|]) else software;
    if |g.loaded[b]| > |h.loaded[b]| then LoadBook(cfg.repeatLast, delivered) else delivered
  }

  /** The book of a whole run, from the marks that the interface started with. */
  ghost function BookOf(cfg: Config, s: State, acts: seq<Act>, b: nat): Book
    requires ValidConfig(cfg) && Shaped(s) && b < BUFFERS
  {
    if acts == [] then
      var started := Book([], [], if b in s.transmitWritten then Some(s.transmitRegisters[b]) else None, s.lastTransmit[b],
                          b in s.transmitUnderflow, b in s.receiveUnread, b in s.receiveOverflow);
      if b in Predicted(cfg) then LoadBook(cfg.repeatLast, started) else started
    else
      var before := acts[..|acts| - 1];
      NextBook(cfg, BookOf(cfg, s, before, b), RunTraced(cfg, s, before).history, acts[|acts| - 1],
               RunTraced(cfg, s, acts).history, b)
  }

  /** The registers and marks of the buffer are those of its book. */
  ghost predicate Books(s: State, h: History, k: Book, b: nat)
    requires Shaped(s) && Wide(h) && b < BUFFERS
  {
    && h.loaded[b] == k.loaded && h.delivered[b] == k.delivered
    && (b in s.transmitWritten <==> k.written.Some?) && (k.written.Some? ==> s.transmitRegisters[b] == k.written.value)
    && s.lastTransmit[b] == k.repeated
    && (b in s.transmitUnderflow <==> k.underflow)
    && (b in s.receiveUnread <==> k.unread) && (b in s.receiveOverflow <==> k.overflow)
    && (k.delivered != [] ==> s.receiveRegisters[b] == k.delivered[|k.delivered| - 1])
  }

  /** What a transfer does to one buffer that it covers. */
  ghost predicate Delivered(s: State, t: State, b: nat)
    requires Shaped(s) && Shaped(t) && b < BUFFERS
  {
    var moved := b in s.receiveBuffered;
    && t.receiveRegisters[b] == (if moved then s.receive[b] else s.receiveRegisters[b])
    && (b in t.receiveOverflow <==> b in s.receiveOverflow || (moved && b in s.receiveUnread))
    && (b in t.receiveUnread <==> b in s.receiveUnread || moved)
  }

  ghost predicate Loaded(cfg: Config, s: State, t: State, b: nat)
    requires Shaped(s) && Shaped(t) && b < BUFFERS
  {
    var moved, written := b in s.transmitBuffered, b in s.transmitWritten;
    && t.transmitRegisters == s.transmitRegisters
    && t.transmit[b] == (if moved then LoadValue(cfg, s, b) else s.transmit[b])
    && t.lastTransmit[b] == (if moved && written then s.transmitRegisters[b] else s.lastTransmit[b])
    && (b in t.transmitUnderflow <==> b in s.transmitUnderflow || (moved && !written))
    && (b in t.transmitWritten <==> written && !moved)
  }

  lemma TransferDelivers(cfg: Config, s: State, b: nat)
    requires ValidConfig(cfg) && Shaped(s) && b < cfg.bufferCount
    ensures Delivered(s, TransferBuffers(cfg, s, s.receiveBuffered != {}, s.transmitBuffered != {}), b)
  {
  }

  lemma TransferLoads(cfg: Config, s: State, b: nat)
    requires ValidConfig(cfg) && Shaped(s) && b < cfg.bufferCount
    ensures Loaded(cfg, s, TransferBuffers(cfg, s, s.receiveBuffered != {}, s.transmitBuffered != {}), b)
  {
  }

  lemma TransferRecorded(cfg: Config, s: State, h: History, b: nat)
    requires ValidConfig(cfg) && Shaped(s) && Wide(h) && b < cfg.bufferCount
    ensures var g, t := RecordTransfer(cfg, s, h), TransferBuffers(cfg, s, s.receiveBuffered != {}, s.transmitBuffered != {});
            && g.loaded[b] == h.loaded[b] + (if b in s.transmitBuffered then [t.transmit[b]] else [])
            && g.delivered[b] == h.delivered[b] + (if b in s.receiveBuffered then [t.receiveRegisters[b]] else [])
  {
    hide TransferBuffers;
  }

  lemma TransferBooks(cfg: Config, s: State, h: History, k: Book, act: Act, b: nat)
    requires ValidConfig(cfg) && Shaped(s) && Wide(h) && b < cfg.bufferCount && Books(s, h, k, b) && act.LineWord?
    ensures var g := RecordTransfer(cfg, s, h);
            Books(TransferBuffers(cfg, s, s.receiveBuffered != {}, s.transmitBuffered != {}), g, NextBook(cfg, k, h, act, g, b), b)
  {
    hide TransferBuffers, RecordTransfer;
    TransferDelivers(cfg, s, b);
    TransferLoads(cfg, s, b);
    TransferRecorded(cfg, s, h, b);
  }

  lemma AcceptBooks(cfg: Config, s: State, h: History, k: Book, input: Word, b: nat)
    requires ValidConfig(cfg) && Shaped(s) && s.buffer < BUFFERS && Wide(h) && b < BUFFERS && Books(s, h, k, b)
    ensures var g := RecordLine(cfg, s, h, input);
            g.loaded == h.loaded && g.delivered == h.delivered && Books(Accept(cfg, s, input), g, k, b)
  {
    hide Output, Masked;
  }

  lemma ActBooks(cfg: Config, r: Traced, act: Act, k: Book, b: nat)
    requires ValidConfig(cfg) && Consistent(cfg, r) && b < cfg.bufferCount && Books(r.state, r.history, k, b)
    ensures var t := PerformTraced(cfg, r, act);
            Books(t.state, t.history, NextBook(cfg, k, r.history, act, t.history, b), b)
  {
    hide Predicted, Output, Masked, TransferBuffers, Accept, RecordLine, RecordTransfer, LoadBook, DeliverBook;
    if act.LineWord? {
      AcceptBooks(cfg, r.state, r.history, k, act.input, b);
      var t, h := Accept(cfg, r.state, act.input), RecordLine(cfg, r.state, r.history, act.input);
      if TransferDue(cfg, t) {
        TransferBooks(cfg, t, h, k, act, b);
      }
    }
  }

  /**
  Through every run the registers and marks of a buffer keep its book: each load takes the last value
  written since the load before, and without one repeats or sends zero with the underflow mark; each
  delivery replaces the receive register and marks an unread value as lost.
  */
  lemma {:induction false} RunKeepsBooks(cfg: Config, s: State, acts: seq<Act>, b: nat)
    requires ValidConfig(cfg) && Shaped(s) && b < cfg.bufferCount
    ensures var r := RunTraced(cfg, s, acts);
            Books(r.state, r.history, BookOf(cfg, s, acts, b), b)
  {
    hide NextBook, PerformTraced, Books;
    if acts == [] {
      StartBooks(cfg, s, b);
    } else {
      var before := acts[..|acts| - 1];
      RunKeepsBooks(cfg, s, before, b);
      ActBooks(cfg, RunTraced(cfg, s, before), acts[|acts| - 1], BookOf(cfg, s, before, b), b);
    }
  }

  lemma StartBooks(cfg: Config, s: State, b: nat)
    requires ValidConfig(cfg) && Shaped(s) && b < cfg.bufferCount
    ensures Books(Started(cfg, s).state, Started(cfg, s).history, BookOf(cfg, s, [], b), b)
  {
    UsedInRange(cfg, Period(cfg));
    hide Predicted;
  }
}
