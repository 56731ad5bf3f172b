/**
The CRC unit: a sixteen-slot ring of data words, shifted two bits per device cycle through a
feedback register. A machine word is the set of the positions of its one bits.
*/
module Crc {
  import opened Gf2

  const RING_SIZE: nat := 16
  const BITS_PER_CYCLE: nat := 2

  /** The configuration registers: both widths in bits, the polynomial without its leading term. */
  datatype Config = Config(dataWidth: nat, polynomialWidth: nat, polynomial: Poly, littleEndian: bool)

  ghost predicate ValidConfig(cfg: Config) {
    1 <= cfg.dataWidth <= 32 && 1 <= cfg.polynomialWidth <= 32
  }

  function Mask(a: Poly, width: nat): (b: Poly)
    ensures Below(b, width) && (Below(a, width) ==> b == a)
  {
    set i | i in a && i < width
  }

  function Capacity(cfg: Config): nat {
    if cfg.dataWidth <= 8 then 16 else if cfg.dataWidth <= 16 then 8 else 4
  }

  /** The feedback taps: the low bit is always one. */
  function Taps(cfg: Config): (taps: Poly)
    ensures Below(taps, cfg.polynomialWidth)
  {
    Mask(cfg.polynomial + {0}, cfg.polynomialWidth)
  }

  /** The modulus: the taps below the leading term. */
  function Modulus(cfg: Config): Poly {
    Taps(cfg) + {cfg.polynomialWidth}
  }

  // ---------------------------------------------------------------------------------------
  // One bit, and a string of bits
  // ---------------------------------------------------------------------------------------

  function ShiftBit(cfg: Config, r: Poly, bit: bool): (s: Poly)
    requires cfg.polynomialWidth > 0
    ensures Below(s, cfg.polynomialWidth)
  {
    var feedback := (cfg.polynomialWidth - 1 in r) != bit;
    var shifted := Mask(Shift(r, 1), cfg.polynomialWidth);
    if feedback then Add(shifted, Taps(cfg)) else shifted
  }

  function Feed(cfg: Config, r: Poly, bits: seq<bool>): Poly
    requires cfg.polynomialWidth > 0
  {
    if bits == [] then r else ShiftBit(cfg, Feed(cfg, r, bits[..|bits| - 1]), bits[|bits| - 1])
  }

  lemma {:induction false} FeedAppend(cfg: Config, r: Poly, a: seq<bool>, b: seq<bool>)
    requires cfg.polynomialWidth > 0
    ensures Feed(cfg, r, a + b) == Feed(cfg, Feed(cfg, r, a), b)
  {
    if b == [] {
      assert a + b == a;
    } else {
      assert (a + b)[..|a + b| - 1] == a + b[..|b| - 1];
      FeedAppend(cfg, r, a, b[..|b| - 1]);
    }
  }

  lemma FeedFirst(cfg: Config, r: Poly, bit: bool, rest: seq<bool>)
    requires cfg.polynomialWidth > 0
    ensures Feed(cfg, r, [bit] + rest) == Feed(cfg, ShiftBit(cfg, r, bit), rest)
  {
    FeedAppend(cfg, r, [bit], rest);
    assert Feed(cfg, r, [bit]) == ShiftBit(cfg, Feed(cfg, r, [bit][..0]), bit);
  }

  lemma ShiftBitMember(cfg: Config, r: Poly, bit: bool, i: nat)
    requires cfg.polynomialWidth > 0 && Below(r, cfg.polynomialWidth)
    ensures var n := cfg.polynomialWidth;
            var shifted, feedback := i > 0 && i - 1 in r, (n - 1 in r) != bit;
            && (i in ShiftBit(cfg, r, bit) <==> i < n && shifted != (feedback && i in Taps(cfg)))
            && (i in Add(Shift(r, 1), if bit then {n} else {}) <==> shifted != (bit && i == n))
            && (shifted ==> i <= n) && (i in Modulus(cfg) <==> i in Taps(cfg) || i == n) && (i in Taps(cfg) ==> i < n)
  {
    hide Taps;
  }

  lemma ShiftBitMembers(cfg: Config, r: Poly, bit: bool)
    requires cfg.polynomialWidth > 0 && Below(r, cfg.polynomialWidth)
    ensures var n := cfg.polynomialWidth;
            var target := Add(Shift(r, 1), if bit then {n} else {});
            ShiftBit(cfg, r, bit) == if (n - 1 in r) != bit then Add(target, Modulus(cfg)) else target
  {
    hide ShiftBit, Shift, Add, Modulus, Taps;
    var n := cfg.polynomialWidth;
    var target := Add(Shift(r, 1), if bit then {n} else {});
    var result := if (n - 1 in r) != bit then Add(target, Modulus(cfg)) else target;
    forall i: nat ensures i in ShiftBit(cfg, r, bit) <==> i in result {
      ShiftBitMember(cfg, r, bit, i);
    }
  }

  /** One shift multiplies by x and adds the input bit at the leading term, modulo the modulus. */
  lemma ShiftBitIsCongruent(cfg: Config, r: Poly, bit: bool)
    requires cfg.polynomialWidth > 0 && Below(r, cfg.polynomialWidth)
    ensures Congruent(ShiftBit(cfg, r, bit), Add(Shift(r, 1), if bit then {cfg.polynomialWidth} else {}), Modulus(cfg))
  {
    hide ShiftBit, Modulus, Shift, Add, Congruent;
    var target := Add(Shift(r, 1), if bit then {cfg.polynomialWidth} else {});
    ShiftBitMembers(cfg, r, bit);
    if (cfg.polynomialWidth - 1 in r) != bit {
      ModulusIsZero(target, Modulus(cfg));
    } else {
      CongruentReflexive(target, Modulus(cfg));
    }
  }

  /** The dividend of a message: the register after the message bits, the message before n zeros. */
  function Dividend(cfg: Config, init: Poly, bits: seq<bool>): Poly {
    Add(Shift(init, |bits|), Shift(Message(bits), cfg.polynomialWidth))
  }

  lemma MessageGrows(bits: seq<bool>, bit: bool)
    ensures forall i: nat :: i in Message(bits + [bit]) <==> (i >= 1 && i - 1 in Message(bits)) || (i == 0 && bit)
  {
  }

  lemma DividendGrows(cfg: Config, init: Poly, bits: seq<bool>, bit: bool)
    ensures Dividend(cfg, init, bits + [bit])
         == Add(Shift(Dividend(cfg, init, bits), 1), if bit then {cfg.polynomialWidth} else {})
  {
    hide Message, Shift, Add, Coefficient;
    var n := cfg.polynomialWidth;
    MessageGrows(bits, bit);
    var left := Dividend(cfg, init, bits + [bit]);
    var right := Add(Shift(Dividend(cfg, init, bits), 1), if bit then {n} else {});
    forall i: nat ensures i in left <==> i in right {
      if i >= n + 1 {
        var j: nat := i - n;
        assert j in Message(bits + [bit]) <==> j - 1 in Message(bits);
      } else if i == n {
        var j: nat := 0;
        assert j in Message(bits + [bit]) <==> bit;
      }
    }
  }

  /** The register holds the remainder of the whole message, for all widths and any message. */
  lemma {:induction false} FeedIsRemainder(cfg: Config, init: Poly, bits: seq<bool>)
    requires cfg.polynomialWidth > 0 && Below(init, cfg.polynomialWidth)
    ensures IsRemainder(Feed(cfg, init, bits), Dividend(cfg, init, bits), Modulus(cfg), cfg.polynomialWidth)
    decreases |bits|
  {
    var p := Modulus(cfg);
    if bits == [] {
      assert Dividend(cfg, init, bits) == init;
      CongruentReflexive(init, p);
    } else {
      var before := bits[..|bits| - 1];
      var bit := bits[|bits| - 1];
      var r := Feed(cfg, init, before);
      var d := Dividend(cfg, init, before);
      var input: Poly := if bit then {cfg.polynomialWidth} else {};
      assert bits == before + [bit];
      FeedIsRemainder(cfg, init, before);
      ShiftBitIsCongruent(cfg, r, bit);
      CongruentShift(r, d, p);
      CongruentAdd(Shift(r, 1), Shift(d, 1), input, p);
      CongruentTransitive(ShiftBit(cfg, r, bit), Add(Shift(r, 1), input), Add(Shift(d, 1), input), p);
      DividendGrows(cfg, init, before, bit);
    }
  }

  // ---------------------------------------------------------------------------------------
  // The unit as a state machine
  // ---------------------------------------------------------------------------------------

  datatype State = State(
    queue: seq<Poly>,
    bitsRemaining: nat,
    shiftData: Poly,
    register: Poly,
    go: bool,
    active: bool)

  ghost predicate ValidState(cfg: Config, s: State) {
    && s.bitsRemaining <= cfg.dataWidth
    && |s.queue| <= RING_SIZE
    && (s.active ==> s.go)
    && (s.bitsRemaining > 0 ==> s.active)
  }

  function InputBit(cfg: Config, data: Poly, remaining: nat): bool
    requires 0 < remaining <= cfg.dataWidth
  {
    (if cfg.littleEndian then cfg.dataWidth - remaining else remaining - 1) in data
  }

  /** The last `remaining` bits of a word, in the order they are shifted. */
  function WordBits(cfg: Config, data: Poly, remaining: nat): (bits: seq<bool>)
    requires remaining <= cfg.dataWidth
    ensures |bits| == remaining
  {
    if remaining == 0 then [] else [InputBit(cfg, data, remaining)] + WordBits(cfg, data, remaining - 1)
  }

  function QueueBits(cfg: Config, queue: seq<Poly>): (bits: seq<bool>)
    ensures |bits| == cfg.dataWidth * |queue|
  {
    if queue == [] then [] else QueueBits(cfg, queue[..|queue| - 1]) + WordBits(cfg, queue[|queue| - 1], cfg.dataWidth)
  }

  /** All the bits that the unit still has to shift. */
  function PendingBits(cfg: Config, s: State): seq<bool>
    requires s.bitsRemaining <= cfg.dataWidth
  {
    WordBits(cfg, s.shiftData, s.bitsRemaining) + QueueBits(cfg, s.queue)
  }

  function Load(cfg: Config, s: State): State
    requires s.queue != []
  {
    s.(shiftData := s.queue[0], queue := s.queue[1..], bitsRemaining := cfg.dataWidth)
  }

  function ShiftBits(cfg: Config, data: Poly, r: Poly, remaining: nat, count: nat): (t: (Poly, nat))
    requires remaining <= cfg.dataWidth && cfg.polynomialWidth > 0
    ensures t.1 == if count < remaining then remaining - count else 0
    decreases count
  {
    if count == 0 || remaining == 0 then (r, remaining)
    else ShiftBits(cfg, data, ShiftBit(cfg, r, InputBit(cfg, data, remaining)), remaining - 1, count - 1)
  }

  /** One device cycle of a running unit whose clock is not stopped. */
  function Cycle(cfg: Config, s: State): State
    requires ValidConfig(cfg) && ValidState(cfg, s)
  {
    if !s.active then s
    else if s.bitsRemaining == 0 && s.queue == [] then s.(active := false, go := false)
    else
      var loaded := if s.bitsRemaining == 0 then Load(cfg, s) else s;
      var (register, remaining) := ShiftBits(cfg, loaded.shiftData, Mask(s.register, cfg.polynomialWidth),
                                             loaded.bitsRemaining, BITS_PER_CYCLE);
      var running := remaining != 0 || loaded.queue != [];
      loaded.(register := register, bitsRemaining := remaining, active := running, go := running)
  }

  function Start(s: State): State {
    if s.go && !s.active && s.queue != [] then s.(active := true) else s
  }

  function Push(cfg: Config, s: State, value: Poly): State {
    if |s.queue| >= Capacity(cfg) then s
    else Start(s.(queue := s.queue + [Mask(value, cfg.dataWidth)]))
  }

  datatype Action = PushWord(value: Poly) | SetGo | RunCycle(stalled: bool)

  function Act(cfg: Config, s: State, action: Action): State
    requires ValidConfig(cfg) && ValidState(cfg, s)
  {
    match action
    case PushWord(value) => Push(cfg, s, value)
    case SetGo => if s.go then s else Start(s.(go := true))
    case RunCycle(stalled) => if stalled then s else Cycle(cfg, s)
  }

  lemma ActKeepsValid(cfg: Config, s: State, action: Action)
    requires ValidConfig(cfg) && ValidState(cfg, s)
    ensures ValidState(cfg, Act(cfg, s, action))
  {
  }

  function Run(cfg: Config, s: State, actions: seq<Action>): (t: State)
    requires ValidConfig(cfg) && ValidState(cfg, s)
    ensures ValidState(cfg, t)
    decreases |actions|
  {
    if actions == [] then s
    else
      ActKeepsValid(cfg, s, actions[0]);
      Run(cfg, Act(cfg, s, actions[0]), actions[1..])
  }

  /** The bits that an action adds: those of a word pushed into a queue that is not full. */
  function AcceptedBits(cfg: Config, s: State, action: Action): seq<bool> {
    if action.PushWord? && |s.queue| < Capacity(cfg) then
      WordBits(cfg, Mask(action.value, cfg.dataWidth), cfg.dataWidth)
    else []
  }

  function RunBits(cfg: Config, s: State, actions: seq<Action>): seq<bool>
    requires ValidConfig(cfg) && ValidState(cfg, s)
    decreases |actions|
  {
    if actions == [] then []
    else
      ActKeepsValid(cfg, s, actions[0]);
      AcceptedBits(cfg, s, actions[0]) + RunBits(cfg, Act(cfg, s, actions[0]), actions[1..])
  }

  // ---------------------------------------------------------------------------------------
  // Grouping, stalls and the moment of a push do not matter
  // ---------------------------------------------------------------------------------------

  /** The register that shifting everything pending would leave. */
  function Residue(cfg: Config, s: State): Poly
    requires ValidConfig(cfg) && ValidState(cfg, s)
  {
    Feed(cfg, Mask(s.register, cfg.polynomialWidth), PendingBits(cfg, s))
  }

  lemma {:induction false} ShiftBitsFeeds(cfg: Config, data: Poly, r: Poly, remaining: nat, count: nat)
    requires remaining <= cfg.dataWidth && cfg.polynomialWidth > 0 && Below(r, cfg.polynomialWidth)
    ensures var (after, left) := ShiftBits(cfg, data, r, remaining, count);
            Below(after, cfg.polynomialWidth)
            && Feed(cfg, after, WordBits(cfg, data, left)) == Feed(cfg, r, WordBits(cfg, data, remaining))
    decreases count
  {
    hide ShiftBit, Feed, InputBit;
    if count > 0 && remaining > 0 {
      var bit := InputBit(cfg, data, remaining);
      ShiftBitsFeeds(cfg, data, ShiftBit(cfg, r, bit), remaining - 1, count - 1);
      FeedFirst(cfg, r, bit, WordBits(cfg, data, remaining - 1));
      assert WordBits(cfg, data, remaining) == [bit] + WordBits(cfg, data, remaining - 1);
    }
  }

  lemma {:induction false} QueueBitsFront(cfg: Config, queue: seq<Poly>)
    requires queue != []
    ensures QueueBits(cfg, queue) == WordBits(cfg, queue[0], cfg.dataWidth) + QueueBits(cfg, queue[1..])
  {
    if |queue| > 1 {
      QueueBitsFront(cfg, queue[..|queue| - 1]);
      assert queue[..|queue| - 1][1..] == queue[1..][..|queue| - 2];
    }
  }

  lemma CycleKeepsResidue(cfg: Config, s: State)
    requires ValidConfig(cfg) && ValidState(cfg, s)
    ensures ValidState(cfg, Cycle(cfg, s)) && Residue(cfg, Cycle(cfg, s)) == Residue(cfg, s)
  {
    if s.active && (s.bitsRemaining > 0 || s.queue != []) {
      var loaded := if s.bitsRemaining == 0 then Load(cfg, s) else s;
      if s.bitsRemaining == 0 {
        QueueBitsFront(cfg, s.queue);
      }
      assert PendingBits(cfg, loaded) == PendingBits(cfg, s);
      var r := Mask(s.register, cfg.polynomialWidth);
      var (register, remaining) := ShiftBits(cfg, loaded.shiftData, r, loaded.bitsRemaining, BITS_PER_CYCLE);
      ShiftBitsFeeds(cfg, loaded.shiftData, r, loaded.bitsRemaining, BITS_PER_CYCLE);
      FeedAppend(cfg, r, WordBits(cfg, loaded.shiftData, loaded.bitsRemaining), QueueBits(cfg, loaded.queue));
      FeedAppend(cfg, register, WordBits(cfg, loaded.shiftData, remaining), QueueBits(cfg, loaded.queue));
    }
  }

  lemma PushFeedsResidue(cfg: Config, s: State, value: Poly)
    requires ValidConfig(cfg) && ValidState(cfg, s) && |s.queue| < Capacity(cfg)
    ensures ValidState(cfg, Push(cfg, s, value))
    ensures Residue(cfg, Push(cfg, s, value))
         == Feed(cfg, Residue(cfg, s), WordBits(cfg, Mask(value, cfg.dataWidth), cfg.dataWidth))
  {
    hide Feed, Mask;
    var word := Mask(value, cfg.dataWidth);
    var after := Push(cfg, s, value);
    assert (s.queue + [word])[..|s.queue|] == s.queue;
    assert PendingBits(cfg, after) == PendingBits(cfg, s) + WordBits(cfg, word, cfg.dataWidth);
    FeedAppend(cfg, Mask(s.register, cfg.polynomialWidth), PendingBits(cfg, s), WordBits(cfg, word, cfg.dataWidth));
  }

  lemma ActFeedsResidue(cfg: Config, s: State, action: Action)
    requires ValidConfig(cfg) && ValidState(cfg, s)
    ensures ValidState(cfg, Act(cfg, s, action))
    ensures Residue(cfg, Act(cfg, s, action)) == Feed(cfg, Residue(cfg, s), AcceptedBits(cfg, s, action))
  {
    hide ShiftBits, Mask, WordBits, QueueBits;
    if action.PushWord? && |s.queue| < Capacity(cfg) {
      PushFeedsResidue(cfg, s, action.value);
    } else if action.RunCycle? {
      CycleKeepsResidue(cfg, s);
    }
  }

  lemma {:induction false} RunFeedsResidue(cfg: Config, s: State, actions: seq<Action>)
    requires ValidConfig(cfg) && ValidState(cfg, s)
    ensures Residue(cfg, Run(cfg, s, actions)) == Feed(cfg, Residue(cfg, s), RunBits(cfg, s, actions))
    decreases |actions|
  {
    if actions != [] {
      ActFeedsResidue(cfg, s, actions[0]);
      var next := Act(cfg, s, actions[0]);
      RunFeedsResidue(cfg, next, actions[1..]);
      FeedAppend(cfg, Residue(cfg, s), AcceptedBits(cfg, s, actions[0]), RunBits(cfg, next, actions[1..]));
    }
  }

  // ---------------------------------------------------------------------------------------
  // What the message is
  // ---------------------------------------------------------------------------------------

  /**
  The last `remaining` bits of a word as a polynomial. Big-endian, the word below its width is its
  own polynomial, and its low bits go last; little-endian it is reversed, and its high bits go last.
  */
  function WordPoly(cfg: Config, word: Poly, remaining: nat): Poly
    requires remaining <= cfg.dataWidth
  {
    if cfg.littleEndian then set i | i in word && cfg.dataWidth - remaining <= i < cfg.dataWidth :: cfg.dataWidth - 1 - i
    else set i | i in word && i < remaining
  }

  /** Words one behind the other. */
  function Concatenation(cfg: Config, words: seq<Poly>): Poly {
    if words == [] then {}
    else
      Add(Shift(Concatenation(cfg, words[..|words| - 1]), cfg.dataWidth), WordPoly(cfg, words[|words| - 1], cfg.dataWidth))
  }

  lemma {:induction false} MessageOfWord(cfg: Config, word: Poly, remaining: nat)
    requires remaining <= cfg.dataWidth
    ensures Message(WordBits(cfg, word, remaining)) == WordPoly(cfg, word, remaining)
  {
    forall i: nat ensures i in Message(WordBits(cfg, word, remaining)) <==> i in WordPoly(cfg, word, remaining) {
      if i < remaining {
        BitOfWord(cfg, word, remaining, i);
        if cfg.littleEndian {
          var j: nat := cfg.dataWidth - 1 - i;
          assert cfg.dataWidth - 1 - j == i;
        }
      }
    }
  }

  /** The bit that goes `i` before the last one. */
  lemma {:induction false} BitOfWord(cfg: Config, word: Poly, remaining: nat, i: nat)
    requires i < remaining <= cfg.dataWidth
    ensures WordBits(cfg, word, remaining)[remaining - 1 - i] == ((if cfg.littleEndian then cfg.dataWidth - 1 - i else i) in word)
  {
    if i < remaining - 1 {
      BitOfWord(cfg, word, remaining - 1, i);
    }
  }

  lemma MessageAppend(a: seq<bool>, b: seq<bool>)
    ensures Message(a + b) == Add(Shift(Message(a), |b|), Message(b))
  {
    forall i: nat ensures i in Message(a + b) <==> i in Add(Shift(Message(a), |b|), Message(b)) {
      if i >= |b| {
        var j: nat := i - |b|;
        assert Coefficient(a + b, i) <==> Coefficient(a, j);
      }
    }
  }

  lemma {:induction false} MessageOfQueue(cfg: Config, queue: seq<Poly>)
    ensures Message(QueueBits(cfg, queue)) == Concatenation(cfg, queue)
  {
    if queue != [] {
      var front, last := queue[..|queue| - 1], queue[|queue| - 1];
      MessageOfQueue(cfg, front);
      MessageOfWord(cfg, last, cfg.dataWidth);
      MessageAppend(QueueBits(cfg, front), WordBits(cfg, last, cfg.dataWidth));
    }
  }

  /** The words that a run pushes while fewer than the buffer holds are waiting. */
  function AcceptedWords(cfg: Config, s: State, actions: seq<Action>): seq<Poly>
    requires ValidConfig(cfg) && ValidState(cfg, s)
    decreases |actions|
  {
    if actions == [] then []
    else
      ActKeepsValid(cfg, s, actions[0]);
      (if actions[0].PushWord? && |s.queue| < Capacity(cfg) then [actions[0].value] else [])
      + AcceptedWords(cfg, Act(cfg, s, actions[0]), actions[1..])
  }

  /** The buffer is sixteen bytes: that many words of one, two or four bytes, the fewest that hold the data width. */
  lemma BufferIsSixteenBytes(cfg: Config, bytes: nat)
    requires ValidConfig(cfg) && bytes in {1, 2, 4} && cfg.dataWidth <= 8 * bytes && (bytes > 1 ==> cfg.dataWidth > 4 * bytes)
    ensures Capacity(cfg) * bytes == 16
  {
  }

  lemma {:induction false} ConcatenationAppend(cfg: Config, a: seq<Poly>, b: seq<Poly>)
    ensures Concatenation(cfg, a + b) == Add(Shift(Concatenation(cfg, a), cfg.dataWidth * |b|), Concatenation(cfg, b))
  {
    hide WordPoly, Add, Shift;
    if b == [] {
      assert a + b == a;
      SumOfParts(Concatenation(cfg, a), {}, {}, 0, 0);
    } else {
      var front, last := b[..|b| - 1], WordPoly(cfg, b[|b| - 1], cfg.dataWidth);
      assert (a + b)[..|a + b| - 1] == a + front;
      ConcatenationAppend(cfg, a, front);
      SumOfParts(Concatenation(cfg, a), Concatenation(cfg, front), last, cfg.dataWidth * |front|, cfg.dataWidth);
      assert cfg.dataWidth * |b| == cfg.dataWidth * |front| + cfg.dataWidth;
    }
  }

  lemma SumOfParts(a: Poly, b: Poly, c: Poly, m: nat, n: nat)
    ensures Add(Shift(Add(Shift(a, m), b), n), c) == Add(Shift(a, m + n), Add(Shift(b, n), c))
    ensures Add(Shift(a, 0), {}) == a
  {
  }

  lemma {:induction false} MessageOfRun(cfg: Config, s: State, actions: seq<Action>)
    requires ValidConfig(cfg) && ValidState(cfg, s)
    ensures Message(RunBits(cfg, s, actions)) == Concatenation(cfg, AcceptedWords(cfg, s, actions))
    ensures |RunBits(cfg, s, actions)| == cfg.dataWidth * |AcceptedWords(cfg, s, actions)|
    decreases |actions|
  {
    hide Act, Capacity, Message, WordPoly, Mask, Concatenation, WordBits, Add, Shift;
    if actions == [] {
      NoMessage(cfg);
      OneWordMore(cfg.dataWidth, 0);
    } else {
      ActKeepsValid(cfg, s, actions[0]);
      var next := Act(cfg, s, actions[0]);
      MessageOfRun(cfg, next, actions[1..]);
      var rest, more := RunBits(cfg, next, actions[1..]), AcceptedWords(cfg, next, actions[1..]);
      if actions[0].PushWord? && |s.queue| < Capacity(cfg) {
        var word := actions[0].value;
        MessageOfPush(cfg, word);
        MessageAppend(WordBits(cfg, Mask(word, cfg.dataWidth), cfg.dataWidth), rest);
        ConcatenationAppend(cfg, [word], more);
        OneWordMore(cfg.dataWidth, |more|);
      } else {
        assert [] + rest == rest && [] + more == more;
      }
    }
  }

  lemma OneWordMore(width: nat, n: nat)
    ensures width * (1 + n) == width + width * n && width * 0 == 0
  {
  }

  lemma NoMessage(cfg: Config)
    ensures Message([]) == {} && Concatenation(cfg, []) == {}
  {
  }

  /** Only the bits of a word below the data width matter. */
  lemma MessageOfPush(cfg: Config, word: Poly)
    ensures Message(WordBits(cfg, Mask(word, cfg.dataWidth), cfg.dataWidth)) == Concatenation(cfg, [word])
  {
    hide Message;
    MessageOfWord(cfg, Mask(word, cfg.dataWidth), cfg.dataWidth);
    MaskedWord(cfg, word);
    assert [word][..0] == [];
    assert Concatenation(cfg, [word]) == Add(Shift({}, cfg.dataWidth), WordPoly(cfg, word, cfg.dataWidth));
  }

  lemma MaskedWord(cfg: Config, word: Poly)
    ensures WordPoly(cfg, Mask(word, cfg.dataWidth), cfg.dataWidth) == WordPoly(cfg, word, cfg.dataWidth)
  {
    var n, masked := cfg.dataWidth, Mask(word, cfg.dataWidth);
    if cfg.littleEndian {
      forall i | i in word && i < n ensures n - 1 - i in WordPoly(cfg, masked, n) && n - 1 - i in WordPoly(cfg, word, n) {
        assert i in masked;
      }
    }
  }

  /** The rest of the word being shifted, then the words queued at first, then those accepted on the way. */
  function WholeMessage(cfg: Config, s: State, actions: seq<Action>): Poly
    requires ValidConfig(cfg) && ValidState(cfg, s)
  {
    var words := s.queue + AcceptedWords(cfg, s, actions);
    Add(Shift(WordPoly(cfg, s.shiftData, s.bitsRemaining), cfg.dataWidth * |words|), Concatenation(cfg, words))
  }

  /**
  Whatever the interleaving of pushes, starts, cycles and stalls, a unit that has drained holds the
  remainder of init * x^L + M * x^n by the polynomial x^n + ... + 1, where M of length L is
  everything queued at first or pushed on the way, word behind word.
  */
  lemma DrainedIsRemainder(cfg: Config, s: State, actions: seq<Action>)
    requires ValidConfig(cfg) && ValidState(cfg, s)
    requires var t := Run(cfg, s, actions); t.bitsRemaining == 0 && t.queue == []
    ensures var n := cfg.polynomialWidth;
            var length := s.bitsRemaining + cfg.dataWidth * |s.queue + AcceptedWords(cfg, s, actions)|;
            var modulus := (set i | i in cfg.polynomial && i < n) + {0, n};
            var init := (set i | i in s.register && i < n);
            var register := (set i | i in Run(cfg, s, actions).register && i < n);
            IsRemainder(register, Add(Shift(init, length), Shift(WholeMessage(cfg, s, actions), n)), modulus, n)
  {
    hide Run, Mask, RunBits, AcceptedWords, WholeMessage, PendingBits, IsRemainder, Feed, Add, Shift, Message, Modulus;
    var n, init := cfg.polynomialWidth, Mask(s.register, cfg.polynomialWidth);
    DrainedFeedsAll(cfg, s, actions);
    MessageOfAll(cfg, s, actions);
    FeedIsRemainder(cfg, init, PendingBits(cfg, s) + RunBits(cfg, s, actions));
    MaskIs(s.register, n);
    MaskIs(Run(cfg, s, actions).register, n);
    ModulusIs(cfg);
  }

  lemma MaskIs(a: Poly, n: nat)
    ensures Mask(a, n) == set i | i in a && i < n
  {
  }

  lemma ModulusIs(cfg: Config)
    requires cfg.polynomialWidth > 0
    ensures Modulus(cfg) == (set i | i in cfg.polynomial && i < cfg.polynomialWidth) + {0, cfg.polynomialWidth}
  {
  }

  lemma DrainedFeedsAll(cfg: Config, s: State, actions: seq<Action>)
    requires ValidConfig(cfg) && ValidState(cfg, s)
    requires var t := Run(cfg, s, actions); t.bitsRemaining == 0 && t.queue == []
    ensures Mask(Run(cfg, s, actions).register, cfg.polynomialWidth)
         == Feed(cfg, Mask(s.register, cfg.polynomialWidth), PendingBits(cfg, s) + RunBits(cfg, s, actions))
  {
    hide Run, Mask, RunBits;
    RunFeedsResidue(cfg, s, actions);
    assert PendingBits(cfg, Run(cfg, s, actions)) == [];
    FeedAppend(cfg, Mask(s.register, cfg.polynomialWidth), PendingBits(cfg, s), RunBits(cfg, s, actions));
  }

  lemma MessageOfAll(cfg: Config, s: State, actions: seq<Action>)
    requires ValidConfig(cfg) && ValidState(cfg, s)
    ensures var bits := PendingBits(cfg, s) + RunBits(cfg, s, actions);
            && Message(bits) == WholeMessage(cfg, s, actions)
            && |bits| == s.bitsRemaining + cfg.dataWidth * |s.queue + AcceptedWords(cfg, s, actions)|
  {
    hide Message, Concatenation, WordPoly, RunBits, AcceptedWords, WordBits, QueueBits, Add, Shift;
    var part, queued, run := WordBits(cfg, s.shiftData, s.bitsRemaining), QueueBits(cfg, s.queue), RunBits(cfg, s, actions);
    var accepted := AcceptedWords(cfg, s, actions);
    MessageOfWord(cfg, s.shiftData, s.bitsRemaining);
    MessageOfQueue(cfg, s.queue);
    MessageOfRun(cfg, s, actions);
    ConcatenationAppend(cfg, s.queue, accepted);
    MessageAppend(queued, run);
    MessageAppend(part, queued + run);
    assert part + queued + run == part + (queued + run);
    assert cfg.dataWidth * |s.queue + accepted| == cfg.dataWidth * |s.queue| + cfg.dataWidth * |accepted|;
  }

  // ---------------------------------------------------------------------------------------
  // How long draining takes
  // ---------------------------------------------------------------------------------------

  function WordCycles(width: nat): nat {
    (width + 1) / 2
  }

  /** The unstalled cycles that the pending words need. */
  function CyclesLeft(cfg: Config, s: State): nat {
    WordCycles(s.bitsRemaining) + |s.queue| * WordCycles(cfg.dataWidth)
  }

  function Cycles(cfg: Config, s: State, count: nat): (t: State)
    requires ValidConfig(cfg) && ValidState(cfg, s)
    ensures ValidState(cfg, t)
    decreases count
  {
    if count == 0 then s
    else
      ActKeepsValid(cfg, s, RunCycle(false));
      Cycles(cfg, Cycle(cfg, s), count - 1)
  }

  lemma MultipleIsLarger(count: nat, cycles: nat)
    ensures count > 0 ==> count * cycles >= cycles
  {
  }

  lemma CycleTakesOne(cfg: Config, s: State)
    requires ValidConfig(cfg) && ValidState(cfg, s) && s.active && CyclesLeft(cfg, s) > 0
    ensures CyclesLeft(cfg, Cycle(cfg, s)) == CyclesLeft(cfg, s) - 1
    ensures (Cycle(cfg, s).active <==> CyclesLeft(cfg, s) > 1) && Cycle(cfg, s).go == Cycle(cfg, s).active
  {
    hide ShiftBits, Mask;
    var rest := if s.bitsRemaining == 0 && s.queue != [] then |s.queue| - 1 else |s.queue|;
    assert rest > 0 ==> rest * WordCycles(cfg.dataWidth) >= WordCycles(cfg.dataWidth) by {
      MultipleIsLarger(rest, WordCycles(cfg.dataWidth));
    }
    if s.bitsRemaining == 0 {
      assert |s.queue| * WordCycles(cfg.dataWidth) == rest * WordCycles(cfg.dataWidth) + WordCycles(cfg.dataWidth);
    }
  }

  lemma DrainedTakesNoCycles(cfg: Config, s: State)
    requires ValidConfig(cfg) && ValidState(cfg, s)
    ensures PendingBits(cfg, s) == [] <==> CyclesLeft(cfg, s) == 0
  {
    if s.queue != [] {
      MultipleIsLarger(|s.queue|, WordCycles(cfg.dataWidth));
      MultipleIsLarger(|s.queue|, cfg.dataWidth);
    }
  }

  /** A started unit runs for exactly ceil(width / 2) unstalled cycles per word, then stops. */
  lemma {:induction false} DrainTime(cfg: Config, s: State, count: nat)
    requires ValidConfig(cfg) && ValidState(cfg, s) && s.active
    requires count <= CyclesLeft(cfg, s) && CyclesLeft(cfg, s) > 0
    ensures var t := Cycles(cfg, s, count);
            && CyclesLeft(cfg, t) == CyclesLeft(cfg, s) - count
            && (t.active <==> count < CyclesLeft(cfg, s)) && t.go == t.active
            && (PendingBits(cfg, t) == [] <==> count == CyclesLeft(cfg, s))
    decreases count
  {
    hide Cycle, CyclesLeft, PendingBits;
    DrainedTakesNoCycles(cfg, Cycles(cfg, s, count));
    if count > 0 {
      CycleTakesOne(cfg, s);
      ActKeepsValid(cfg, s, RunCycle(false));
      if count > 1 {
        DrainTime(cfg, Cycle(cfg, s), count - 1);
      }
    }
  }

  /** The unit is active exactly when it is started and has something to shift. */
  ghost predicate Working(s: State) {
    s.active <==> s.go && (s.queue != [] || s.bitsRemaining > 0)
  }

  /** In every run, whatever comes first of words and start, and however it stalls. */
  lemma {:induction false} RunWorks(cfg: Config, s: State, actions: seq<Action>)
    requires ValidConfig(cfg) && ValidState(cfg, s) && Working(s)
    ensures Working(Run(cfg, s, actions))
    decreases |actions|
  {
    hide Act;
    if actions != [] {
      ActWorks(cfg, s, actions[0]);
      ActKeepsValid(cfg, s, actions[0]);
      RunWorks(cfg, Act(cfg, s, actions[0]), actions[1..]);
    }
  }

  lemma ActWorks(cfg: Config, s: State, action: Action)
    requires ValidConfig(cfg) && ValidState(cfg, s) && Working(s)
    ensures Working(Act(cfg, s, action))
  {
    hide ShiftBits, Mask;
  }

  /** Once started, waiting words take half the data width, rounded up, cycles each; then the unit is stopped and empty. */
  lemma StartDrains(cfg: Config, s: State, n: nat)
    requires ValidConfig(cfg) && ValidState(cfg, s) && Working(s) && s.queue != [] && s.bitsRemaining == 0
    requires n <= |s.queue| * ((cfg.dataWidth + 1) / 2)
    ensures var started := Act(cfg, s, SetGo);
            ValidState(cfg, started) && started.go && started.active && started.queue == s.queue
    ensures var started := Act(cfg, s, SetGo);
            ValidState(cfg, started) ==>
              var t := Cycles(cfg, started, n);
              if n < |s.queue| * ((cfg.dataWidth + 1) / 2) then t.active
              else !t.active && !t.go && t.queue == [] && t.bitsRemaining == 0
  {
    hide Cycles;
    var started := Act(cfg, s, SetGo);
    MultipleIsLarger(|s.queue|, WordCycles(cfg.dataWidth));
    DrainTime(cfg, started, n);
    NothingPending(cfg, Cycles(cfg, started, n));
  }

  lemma NothingPending(cfg: Config, s: State)
    requires ValidConfig(cfg) && ValidState(cfg, s)
    ensures PendingBits(cfg, s) == [] ==> s.queue == [] && s.bitsRemaining == 0
  {
    if s.queue != [] {
      MultipleIsLarger(|s.queue|, cfg.dataWidth);
    }
  }

  // ---------------------------------------------------------------------------------------
  // The unit
  // ---------------------------------------------------------------------------------------

  function RingIndex(head: nat, offset: nat): (index: nat)
    ensures index < RING_SIZE
  {
    (head + offset) % RING_SIZE
  }

  class CrcUnit {
    const cfg: Config
    const words: array<Poly>
    var head: nat
    var count: nat
    var bitsRemaining: nat
    var shiftData: Poly
    var register: Poly
    var go: bool
    var active: bool
    var generation: nat

    ghost predicate Valid()
      reads this, words
    {
      && ValidConfig(cfg)
      && words.Length == RING_SIZE
      && head < RING_SIZE && count <= RING_SIZE
      && ValidState(cfg, View())
    }

    ghost function Queue(): (queue: seq<Poly>)
      requires words.Length == RING_SIZE
      reads this, words
      ensures |queue| == count
    {
      seq(count, i requires 0 <= i && words.Length == RING_SIZE reads this, words => words[RingIndex(head, i)])
    }

    ghost function View(): State
      requires words.Length == RING_SIZE
      reads this, words
    {
      State(Queue(), bitsRemaining, shiftData, register, go, active)
    }

    constructor (cfg: Config)
      requires ValidConfig(cfg)
      ensures Valid() && this.cfg == cfg && View() == State([], 0, {}, {}, false, false)
      ensures fresh(words) && generation == 0
    {
      this.cfg := cfg;
      words := new Poly[RING_SIZE](_ => {});
      head, count, bitsRemaining, shiftData, register := 0, 0, 0, {}, {};
      go, active, generation := false, false, 0;
      new;
      assert Queue() == [];
    }

    method StartIfReady()
      requires words.Length == RING_SIZE
      modifies this`active
      ensures View() == Start(old(View()))
    {
      if go && !active && count != 0 {
        active := true;
      }
    }

    method SetGo()
      requires Valid()
      modifies this`go, this`active
      ensures Valid() && View() == Act(cfg, old(View()), Action.SetGo)
    {
      if !go {
        go := true;
        StartIfReady();
      }
    }

    method Push(value: Poly)
      requires Valid()
      modifies this`count, this`active, words
      ensures Valid() && View() == Act(cfg, old(View()), PushWord(value))
    {
      if count >= Capacity(cfg) {
        return;
      }
      var index := RingIndex(head, count);
      ghost var before := Queue();
      assert forall i :: 0 <= i < count ==> RingIndex(head, i) != index;
      words[index] := Mask(value, cfg.dataWidth);
      count := count + 1;
      assert Queue() == before + [Mask(value, cfg.dataWidth)];
      StartIfReady();
    }

    method LoadShiftData()
      requires Valid() && count > 0
      modifies this`head, this`count, this`bitsRemaining, this`shiftData
      ensures words.Length == RING_SIZE && head < RING_SIZE && count <= RING_SIZE
      ensures View() == Load(cfg, old(View()))
    {
      ghost var before := Queue();
      assert forall i :: 0 <= i ==> RingIndex(RingIndex(head, 1), i) == RingIndex(head, i + 1);
      shiftData := words[head];
      head := RingIndex(head, 1);
      count := count - 1;
      bitsRemaining := cfg.dataWidth;
      assert Queue() == before[1..];
    }

    method ShiftRegister()
      requires ValidConfig(cfg) && bitsRemaining <= cfg.dataWidth
      modifies this`bitsRemaining, this`register
      ensures (register, bitsRemaining) == ShiftBits(cfg, shiftData, Mask(old(register), cfg.polynomialWidth),
                                                     old(bitsRemaining), BITS_PER_CYCLE)
    {
      hide ShiftBit;
      var remainder := Mask(register, cfg.polynomialWidth);
      var cycleBit := 0;
      while cycleBit < BITS_PER_CYCLE && bitsRemaining != 0
        invariant 0 <= cycleBit <= BITS_PER_CYCLE && bitsRemaining <= cfg.dataWidth
        invariant ShiftBits(cfg, shiftData, remainder, bitsRemaining, BITS_PER_CYCLE - cycleBit)
               == ShiftBits(cfg, shiftData, Mask(old(register), cfg.polynomialWidth), old(bitsRemaining), BITS_PER_CYCLE)
      {
        remainder := ShiftedOnce(remainder, InputBit(cfg, shiftData, bitsRemaining));
        bitsRemaining := bitsRemaining - 1;
        cycleBit := cycleBit + 1;
      }
      register := remainder;
    }

    method ShiftedOnce(remainder: Poly, bit: bool) returns (next: Poly)
      requires cfg.polynomialWidth > 0
      ensures next == ShiftBit(cfg, remainder, bit)
    {
      var feedback := cfg.polynomialWidth - 1 in remainder;
      feedback := feedback != bit;
      next := Mask(Shift(remainder, 1), cfg.polynomialWidth);
      if feedback {
        next := Add(next, Taps(cfg));
      }
    }

    /** The event of one device cycle; a stale event, or one of a stopped clock, changes nothing. */
    method RunCrc(eventGeneration: nat, stalled: bool)
      requires Valid()
      modifies this`head, this`count, this`bitsRemaining, this`shiftData, this`register, this`go, this`active
      ensures Valid()
      ensures View() == if eventGeneration != generation then old(View())
                        else Act(cfg, old(View()), RunCycle(stalled))
    {
      hide ShiftBits;
      ActKeepsValid(cfg, View(), RunCycle(stalled));
      if eventGeneration != generation || !active || !go || stalled {
        return;
      }
      if bitsRemaining == 0 {
        if count == 0 {
          active, go := false, false;
          return;
        }
        LoadShiftData();
      }
      ShiftRegister();
      if bitsRemaining == 0 && count == 0 {
        active, go := false, false;
      }
    }
  }
}
