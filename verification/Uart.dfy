/**
Asynchronous serial frames: the level a transmitter puts on the line at each cycle, and the
receiver that samples the line at its own rate and votes on each bit.
*/
module Uart {
  import Division
  import opened Wrappers

  datatype Parity = NoParity | Even | Odd

  /** What both ends are configured for. */
  datatype Format = Format(dataBits: nat, stopBits: nat, parity: Parity)

  /** How often and when the receiver samples a bit, in sixteenths or quarters of it. */
  datatype Sampling = Sampling(clocks: nat, first: nat, samples: nat)

  const STANDARD: Sampling := Sampling(16, 7, 3)
  const HIGH_SPEED: Sampling := Sampling(4, 2, 1)

  predicate ValidFormat(f: Format) {
    (f.dataBits == 8 || f.dataBits == 9) && (f.stopBits == 1 || f.stopBits == 2)
  }

  predicate ValidSampling(m: Sampling) {
    m == STANDARD || m == HIGH_SPEED
  }

  // ---------------------------------------------------------------------------------------
  // Transmitting
  // ---------------------------------------------------------------------------------------

  function Ones(data: seq<bool>): nat {
    if data == [] then 0 else Ones(data[..|data| - 1]) + if data[|data| - 1] then 1 else 0
  }

  /** The parity bit: it makes the number of ones even or odd. */
  function ParityBit(f: Format, data: seq<bool>): bool {
    if f.parity == Even then Ones(data) % 2 == 1 else Ones(data) % 2 == 0
  }

  function ParityBits(f: Format): nat {
    if f.parity == NoParity then 0 else 1
  }

  function FrameBits(f: Format): nat {
    1 + f.dataBits + f.stopBits + ParityBits(f)
  }

  /** Bit `index` of a frame: start bit, data from the low end, parity, stop bits. */
  function LogicalBit(f: Format, data: seq<bool>, index: nat): bool
    requires |data| == f.dataBits
  {
    if index == 0 then false
    else if index - 1 < f.dataBits then data[index - 1]
    else if f.parity != NoParity && index - 1 == f.dataBits then ParityBit(f, data)
    else true
  }

  /** The level on the line `elapsed` cycles after the frame started. */
  function LineLevel(f: Format, data: seq<bool>, unit: nat, clocks: nat, inverted: bool, elapsed: nat): bool
    requires |data| == f.dataBits && unit * clocks > 0
  {
    var index := elapsed / (unit * clocks);
    (if index < FrameBits(f) then LogicalBit(f, data, index) else true) != inverted
  }

  /** The positions of the ones among the first `n` bits. */
  function OnePositions(data: seq<bool>, n: nat): set<nat>
    requires n <= |data|
  {
    set i: nat | i < n && data[i]
  }

  lemma {:induction false} OnesArePositions(data: seq<bool>)
    ensures Ones(data) == |OnePositions(data, |data|)|
  {
    if data != [] {
      var last := |data| - 1;
      OnesArePositions(data[..last]);
      assert OnePositions(data, last) == OnePositions(data[..last], last);
      assert OnePositions(data, |data|) == OnePositions(data, last) + if data[last] then {last} else {};
    }
  }

  /** With the parity bit the number of ones is even for even parity and odd for odd parity. */
  lemma ParityMakesEvenOrOdd(f: Format, data: seq<bool>)
    requires f.parity != NoParity
    ensures var ones := |set i: nat | i < |data| && data[i]|;
            (ones + if ParityBit(f, data) then 1 else 0) % 2 == if f.parity == Even then 0 else 1
  {
    OnesArePositions(data);
    assert OnePositions(data, |data|) == set i: nat | i < |data| && data[i];
  }

  /** A frame is a low start bit, the data from its low end, the parity bit if there is one, and high stop bits. */
  lemma FrameIsItsParts(f: Format, data: seq<bool>)
    requires |data| == f.dataBits
    ensures var parity := if f.parity == NoParity then [] else [ParityBit(f, data)];
            seq(FrameBits(f), i requires 0 <= i => LogicalBit(f, data, i))
              == [false] + data + parity + seq(f.stopBits, _ => true)
  {
    hide ParityBit;
  }

  /** The line shows bit after bit, each for its whole cell, and then idles high; inverted, it shows the opposite. */
  lemma LineShowsFrame(f: Format, data: seq<bool>, unit: nat, clocks: nat, index: nat, within: nat)
    requires |data| == f.dataBits && unit * clocks > 0 && within < unit * clocks
    ensures var level := if index < FrameBits(f) then LogicalBit(f, data, index) else true;
            LineLevel(f, data, unit, clocks, false, index * (unit * clocks) + within) == level
            && LineLevel(f, data, unit, clocks, true, index * (unit * clocks) + within) == !level
  {
    hide LogicalBit, FrameBits;
    Division.Unique(index * (unit * clocks) + within, unit * clocks, index, within);
  }

  // ---------------------------------------------------------------------------------------
  // Receiving
  // ---------------------------------------------------------------------------------------

  datatype Received = Received(data: seq<bool>, parityError: bool, framingError: bool)

  datatype Receiver = Receiver(active: bool, votes: nat, frame: Received, completed: Option<Received>)

  function Begin(f: Format): Receiver {
    Receiver(true, 0, Received(seq(f.dataBits, _ => false), false, false), None)
  }

  /** The decision on one whole bit of the frame. */
  function TakeBit(f: Format, r: Receiver, index: nat, high: bool): Receiver
    requires |r.frame.data| == f.dataBits
  {
    if index == 0 then if high then r.(active := false, frame := Received([], false, false)) else r
    else if index - 1 < f.dataBits then
      if high then r.(frame := r.frame.(data := r.frame.data[index - 1 := true])) else r
    else if f.parity != NoParity && index - 1 == f.dataBits then
      r.(frame := r.frame.(parityError := high != ParityBit(f, r.frame.data)))
    else
      var frame := if high then r.frame else r.frame.(framingError := true);
      if index - 1 - f.dataBits - ParityBits(f) + 1 == f.stopBits then
        r.(frame := frame, active := false, completed := Some(frame))
      else r.(frame := frame)
  }

  /** One sample, taken in phase 3 * bit + sample; the last sample of a bit decides it by majority. */
  function Sample(f: Format, m: Sampling, r: Receiver, phase: nat, level: bool): Receiver
    requires r.active ==> |r.frame.data| == f.dataBits
  {
    if !r.active then r
    else
      var votes := if level then r.votes + 1 else r.votes;
      if phase % 3 + 1 < m.samples then r.(votes := votes)
      else TakeBit(f, r.(votes := 0), phase / 3, votes > m.samples / 2)
  }

  /** The receiver after the first `bits` bits, sample by sample; `level` gives each sample. */
  function ReceiveBit(f: Format, m: Sampling, r: Receiver, bit: nat, level: (nat, nat) -> bool, samples: nat): (t: Receiver)
    requires r.active ==> |r.frame.data| == f.dataBits
    ensures t.active ==> |t.frame.data| == f.dataBits
  {
    if samples == 0 then r
    else
      var before := ReceiveBit(f, m, r, bit, level, samples - 1);
      Sample(f, m, before, 3 * bit + (samples - 1), level(bit, samples - 1))
  }

  function Receive(f: Format, m: Sampling, level: (nat, nat) -> bool, bits: nat): (t: Receiver)
    ensures t.active ==> |t.frame.data| == f.dataBits
  {
    if bits == 0 then Begin(f) else ReceiveBit(f, m, Receive(f, m, level, bits - 1), bits - 1, level, m.samples)
  }

  /** The cycle of a sample, counted from the start of reception. */
  function SampleCycle(m: Sampling, unit: nat, bit: nat, sample: nat): nat {
    (bit * m.clocks + m.first + sample) * unit
  }

  // ---------------------------------------------------------------------------------------
  // Majority voting
  // ---------------------------------------------------------------------------------------

  function Votes(level: (nat, nat) -> bool, bit: nat, samples: nat): nat {
    if samples == 0 then 0 else Votes(level, bit, samples - 1) + if level(bit, samples - 1) then 1 else 0
  }

  /** All the samples of a bit make one decision. */
  lemma ReceiveBitDecides(f: Format, m: Sampling, r: Receiver, bit: nat, level: (nat, nat) -> bool)
    requires ValidSampling(m) && (r.active ==> |r.frame.data| == f.dataBits && r.votes == 0)
    ensures ReceiveBit(f, m, r, bit, level, m.samples)
         == if r.active then TakeBit(f, r, bit, Votes(level, bit, m.samples) > m.samples / 2) else r
  {
    hide TakeBit;
    var r1 := ReceiveBit(f, m, r, bit, level, 1);
    assert r1 == Sample(f, m, ReceiveBit(f, m, r, bit, level, 0), 3 * bit, level(bit, 0));
    if m == STANDARD {
      var r2 := ReceiveBit(f, m, r, bit, level, 2);
      assert r2 == Sample(f, m, r1, 3 * bit + 1, level(bit, 1));
      assert ReceiveBit(f, m, r, bit, level, 3) == Sample(f, m, r2, 3 * bit + 2, level(bit, 2));
      assert Votes(level, bit, 3) == Votes(level, bit, 2) + if level(bit, 2) then 1 else 0;
      assert Votes(level, bit, 2) == Votes(level, bit, 1) + if level(bit, 1) then 1 else 0;
    }
    assert Votes(level, bit, 1) == Votes(level, bit, 0) + if level(bit, 0) then 1 else 0;
  }

  /** The samples of each bit show it, but for at most one of the three. */
  ghost predicate Shows(f: Format, m: Sampling, data: seq<bool>, level: (nat, nat) -> bool, flipped: nat -> nat)
    requires |data| == f.dataBits
  {
    && (m.samples == 1 ==> forall bit: nat :: bit < FrameBits(f) ==> flipped(bit) >= 3)
    && forall bit: nat, sample: nat :: bit < FrameBits(f) && sample < m.samples
         ==> level(bit, sample) == (LogicalBit(f, data, bit) != (sample == flipped(bit)))
  }

  lemma MajorityShowsBit(f: Format, m: Sampling, data: seq<bool>, level: (nat, nat) -> bool, flipped: nat -> nat, bit: nat)
    requires ValidSampling(m) && |data| == f.dataBits && Shows(f, m, data, level, flipped) && bit < FrameBits(f)
    ensures (Votes(level, bit, m.samples) > m.samples / 2) == LogicalBit(f, data, bit)
  {
    assert Votes(level, bit, 1) == Votes(level, bit, 0) + if level(bit, 0) then 1 else 0;
    if m == STANDARD {
      assert Votes(level, bit, 2) == Votes(level, bit, 1) + if level(bit, 1) then 1 else 0;
      assert Votes(level, bit, 3) == Votes(level, bit, 2) + if level(bit, 2) then 1 else 0;
    }
  }

  /** The receiver after the first `bits` bits of a frame. */
  function Expected(f: Format, data: seq<bool>, bits: nat): Receiver
    requires |data| == f.dataBits
  {
    var taken := if bits == 0 then 0 else if bits - 1 < f.dataBits then bits - 1 else f.dataBits;
    var frame := Received(data[..taken] + seq(f.dataBits - taken, _ => false), false, false);
    if bits < FrameBits(f) then Receiver(true, 0, frame, None)
    else Receiver(false, 0, Received(data, false, false), Some(Received(data, false, false)))
  }

  lemma TakeExpectedBit(f: Format, data: seq<bool>, bit: nat)
    requires ValidFormat(f) && |data| == f.dataBits && bit < FrameBits(f)
    ensures TakeBit(f, Expected(f, data, bit), bit, LogicalBit(f, data, bit)) == Expected(f, data, bit + 1)
  {
    var before := Expected(f, data, bit);
    var after := Expected(f, data, bit + 1);
    if bit > f.dataBits {
      assert before.frame.data == data;
    }
    if 0 < bit <= f.dataBits {
      assert after.frame.data == if data[bit - 1] then before.frame.data[bit - 1 := true] else before.frame.data;
    }
    if bit + 1 == FrameBits(f) {
      assert after.frame.data == data;
    }
  }

  /** A receiver that is shown a frame, with any one sample of each bit wrong, completes that frame. */
  lemma {:induction false} ShownFrameIsReceived(f: Format, m: Sampling, data: seq<bool>,
                                                level: (nat, nat) -> bool, flipped: nat -> nat, bits: nat)
    requires ValidFormat(f) && ValidSampling(m) && |data| == f.dataBits && bits <= FrameBits(f)
    requires Shows(f, m, data, level, flipped)
    ensures Receive(f, m, level, bits) == Expected(f, data, bits)
  {
    if bits == 0 {
      assert Expected(f, data, 0).frame.data == seq(f.dataBits, _ => false);
    } else {
      hide TakeBit;
      ShownFrameIsReceived(f, m, data, level, flipped, bits - 1);
      ReceiveBitDecides(f, m, Expected(f, data, bits - 1), bits - 1, level);
      MajorityShowsBit(f, m, data, level, flipped, bits - 1);
      TakeExpectedBit(f, data, bits - 1);
    }
  }

  // ---------------------------------------------------------------------------------------
  // Timing
  // ---------------------------------------------------------------------------------------

  /** The last bit is still sampled within its own cell. */
  predicate ClocksAgree(f: Format, m: Sampling, txUnit: nat, rxUnit: nat) {
    var k := FrameBits(f);
    && m.clocks * (k - 1) * txUnit <= (m.clocks * (k - 1) + m.first) * rxUnit
    && (m.clocks * (k - 1) + m.first + m.samples - 1) * rxUnit < m.clocks * k * txUnit
  }

  function Times(a: int, b: int): int {
    a * b
  }

  lemma TimesAdds(a: int, b: int, c: int)
    ensures Times(a + b, c) == Times(a, c) + Times(b, c)
  {
  }

  lemma TimesGrows(a: nat, b: nat, c: nat)
    requires a <= b
    ensures 0 <= Times(a, c) <= Times(b, c)
  {
    Division.Monotone(a, b, c);
  }

  lemma TimesOfGap(a: nat, small: nat, large: nat)
    requires small <= large
    ensures Times(a, large) == Times(a, small) + Times(a, large - small)
  {
    TimesAdds(small, large - small, a);
  }

  lemma EarlierCells(clocks: nat, first: nat, late: nat, last: nat, cell: nat, txUnit: nat, rxUnit: nat)
    requires cell <= last && late < clocks && rxUnit > 0
    requires Times(last, txUnit) <= Times(last + first, rxUnit)
    requires Times(last + late, rxUnit) < Times(last + clocks, txUnit)
    ensures Times(cell, txUnit) <= Times(cell + first, rxUnit)
    ensures Times(cell + late, rxUnit) < Times(cell + clocks, txUnit)
  {
    TimesGrows(1, 1, rxUnit);
    assert Times(1, rxUnit) == rxUnit;
    hide Times;
    TimesAdds(last, first, rxUnit);
    TimesAdds(last, late, rxUnit);
    TimesAdds(last, clocks, txUnit);
    TimesAdds(cell, first, rxUnit);
    TimesAdds(cell, late, rxUnit);
    TimesAdds(cell, clocks, txUnit);
    var small, large := if txUnit <= rxUnit then txUnit else rxUnit, if txUnit <= rxUnit then rxUnit else txUnit;
    TimesOfGap(cell, small, large);
    TimesOfGap(last, small, large);
    TimesOfGap(clocks, small, large);
    TimesGrows(cell, last, large - small);
    TimesGrows(0, clocks, large - small);
    TimesGrows(0, first, rxUnit);
    TimesAdds(late, 1, rxUnit);
    TimesGrows(late + 1, clocks, rxUnit);
  }

  /** With cells starting at `cell` and `last` sixteenths: if the last is sampled in time, so is this one. */
  lemma EarlierBitsInCell(clocks: nat, first: nat, late: nat, last: nat, cell: nat, txUnit: nat, rxUnit: nat)
    requires cell <= last && late < clocks && rxUnit > 0
    requires last * txUnit <= (last + first) * rxUnit
    requires (last + late) * rxUnit < (last + clocks) * txUnit
    ensures cell * txUnit <= (cell + first) * rxUnit
    ensures (cell + late) * rxUnit < (cell + clocks) * txUnit
  {
    EarlierCells(clocks, first, late, last, cell, txUnit, rxUnit);
  }

  lemma QuotientInCell(elapsed: nat, cell: nat, bit: nat)
    requires cell > 0 && bit * cell <= elapsed < (bit + 1) * cell
    ensures elapsed / cell == bit
  {
    if elapsed / cell < bit {
      Division.Monotone(elapsed / cell + 1, bit, cell);
    } else if elapsed / cell > bit {
      Division.Monotone(bit + 1, elapsed / cell, cell);
    }
  }

  lemma CellStart(bit: nat, txUnit: nat, clocks: nat)
    ensures bit * (txUnit * clocks) == clocks * bit * txUnit
  {
  }

  /** When the clocks agree, every sample is taken while its own bit is on the line. */
  lemma SampleInCell(f: Format, m: Sampling, txUnit: nat, rxUnit: nat, bit: nat, sample: nat)
    requires ValidSampling(m) && txUnit > 0 && rxUnit > 0 && ClocksAgree(f, m, txUnit, rxUnit)
    requires bit < FrameBits(f) && sample < m.samples
    ensures SampleCycle(m, rxUnit, bit, sample) / (txUnit * m.clocks) == bit
  {
    hide FrameBits;
    var last := FrameBits(f) - 1;
    var late := m.first + m.samples - 1;
    assert m.clocks * FrameBits(f) == m.clocks * last + m.clocks;
    EarlierBitsInCell(m.clocks, m.first, late, m.clocks * last, m.clocks * bit, txUnit, rxUnit);
    var elapsed := SampleCycle(m, rxUnit, bit, sample);
    Division.Monotone(m.clocks * bit + m.first, m.clocks * bit + m.first + sample, rxUnit);
    Division.Monotone(m.clocks * bit + m.first + sample, m.clocks * bit + late, rxUnit);
    CellStart(bit, txUnit, m.clocks);
    CellStart(bit + 1, txUnit, m.clocks);
    assert m.clocks * (bit + 1) == m.clocks * bit + m.clocks;
    QuotientInCell(elapsed, txUnit * m.clocks, bit);
  }

  lemma FrameIsNotEmpty(f: Format)
    ensures FrameBits(f) > 0
  {
  }

  /** The samples of the last bit alone decide whether the clocks agree. */
  lemma LastBitDecides(f: Format, m: Sampling, txUnit: nat, rxUnit: nat)
    requires ValidFormat(f) && ValidSampling(m) && txUnit > 0
    requires FrameBits(f) > 0
    requires SampleCycle(m, rxUnit, FrameBits(f) - 1, 0) / (txUnit * m.clocks) == FrameBits(f) - 1
    requires SampleCycle(m, rxUnit, FrameBits(f) - 1, m.samples - 1) / (txUnit * m.clocks) == FrameBits(f) - 1
    ensures ClocksAgree(f, m, txUnit, rxUnit)
  {
    FrameIsNotEmpty(f);
    hide FrameBits;
    var last := FrameBits(f) - 1;
    var cell := txUnit * m.clocks;
    DivisionBounds(SampleCycle(m, rxUnit, last, 0), cell);
    DivisionBounds(SampleCycle(m, rxUnit, last, m.samples - 1), cell);
    CellStart(last, txUnit, m.clocks);
    CellStart(last + 1, txUnit, m.clocks);
  }

  ghost predicate SamplesInCells(f: Format, m: Sampling, txUnit: nat, rxUnit: nat)
    requires txUnit * m.clocks > 0
  {
    forall bit: nat, sample: nat :: bit < FrameBits(f) && sample < m.samples
      ==> SampleCycle(m, rxUnit, bit, sample) / (txUnit * m.clocks) == bit
  }

  /** Every sample is taken in its own cell exactly when the clocks agree. */
  lemma ClocksAgreeExactly(f: Format, m: Sampling, txUnit: nat, rxUnit: nat)
    requires ValidFormat(f) && ValidSampling(m) && txUnit > 0 && rxUnit > 0 && txUnit * m.clocks > 0
    ensures ClocksAgree(f, m, txUnit, rxUnit) <==> SamplesInCells(f, m, txUnit, rxUnit)
  {
    hide SampleCycle;
    if ClocksAgree(f, m, txUnit, rxUnit) {
      forall bit: nat, sample: nat | bit < FrameBits(f) && sample < m.samples
        ensures SampleCycle(m, rxUnit, bit, sample) / (txUnit * m.clocks) == bit
      {
        SampleInCell(f, m, txUnit, rxUnit, bit, sample);
      }
    }
    if SamplesInCells(f, m, txUnit, rxUnit) {
      LastBitDecides(f, m, txUnit, rxUnit);
    }
  }

  lemma DivisionBounds(elapsed: nat, cell: nat)
    requires cell > 0
    ensures elapsed / cell * cell <= elapsed < (elapsed / cell + 1) * cell
  {
  }

  /** What the receiver reads at each sample, with the samples `flipped` disturbed. */
  function LineReader(f: Format, m: Sampling, data: seq<bool>, txUnit: nat, rxUnit: nat, inverted: bool,
                      flipped: nat -> nat): (nat, nat) -> bool
    requires |data| == f.dataBits && txUnit * m.clocks > 0
  {
    (bit: nat, sample: nat) =>
      var physical := LineLevel(f, data, txUnit, m.clocks, inverted, SampleCycle(m, rxUnit, bit, sample));
      (physical != inverted) != (sample == flipped(bit))
  }

  /**
  Transmitting and receiving is the identity: a receiver with the same format and polarity, whose
  clock agrees, completes the frame that was sent, with its data and without errors, even when any
  one of the three samples of each bit is wrong.
  */
  lemma FrameSurvivesLine(f: Format, m: Sampling, data: seq<bool>, txUnit: nat, rxUnit: nat, inverted: bool,
                          flipped: nat -> nat)
    requires ValidFormat(f) && ValidSampling(m) && |data| == f.dataBits && txUnit > 0 && rxUnit > 0
    requires txUnit * m.clocks > 0 && ClocksAgree(f, m, txUnit, rxUnit)
    requires m.samples == 1 ==> forall bit: nat :: flipped(bit) >= 3
    ensures Receive(f, m, LineReader(f, m, data, txUnit, rxUnit, inverted, flipped), FrameBits(f)).completed
         == Some(Received(data, false, false))
  {
    hide Receive, LogicalBit, ClocksAgree, SampleCycle;
    var level := LineReader(f, m, data, txUnit, rxUnit, inverted, flipped);
    forall bit: nat, sample: nat | bit < FrameBits(f) && sample < m.samples
      ensures level(bit, sample) == (LogicalBit(f, data, bit) != (sample == flipped(bit)))
    {
      SampleInCell(f, m, txUnit, rxUnit, bit, sample);
    }
    ShownFrameIsReceived(f, m, data, level, flipped, FrameBits(f));
  }

  // ---------------------------------------------------------------------------------------
  // The receiver
  // ---------------------------------------------------------------------------------------

  class ReceiverUnit {
    const format: Format
    const sampling: Sampling
    var active: bool
    var votes: nat
    var data: seq<bool>
    var parityError: bool
    var framingError: bool
    var completed: Option<Received>

    function View(): Receiver
      reads this
    {
      Receiver(active, votes, Received(data, parityError, framingError), completed)
    }

    constructor (format: Format, sampling: Sampling)
      ensures this.format == format && this.sampling == sampling && View() == Begin(format)
    {
      this.format, this.sampling := format, sampling;
      active, votes, data := true, 0, seq(format.dataBits, _ => false);
      parityError, framingError, completed := false, false, None;
    }

    method SamplePhysicalReceive(phase: nat, level: bool)
      requires active ==> |data| == format.dataBits
      modifies this
      ensures View() == Sample(format, sampling, old(View()), phase, level)
    {
      if !active {
        return;
      }
      if level {
        votes := votes + 1;
      }
      if phase % 3 + 1 < sampling.samples {
        return;
      }
      var high := votes > sampling.samples / 2;
      votes := 0;
      var frameBit := phase / 3;
      if frameBit == 0 {
        if high {
          active, data, parityError, framingError := false, [], false, false;
        }
        return;
      }
      frameBit := frameBit - 1;
      if frameBit < format.dataBits {
        if high {
          data := data[frameBit := true];
        }
        return;
      }
      frameBit := frameBit - format.dataBits;
      if format.parity != NoParity {
        if frameBit == 0 {
          parityError := high != ParityBit(format, data);
          return;
        }
        frameBit := frameBit - 1;
      }
      if !high {
        framingError := true;
      }
      if frameBit + 1 == format.stopBits {
        completed := Some(Received(data, parityError, framingError));
        active := false;
      }
    }
  }
}
