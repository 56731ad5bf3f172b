/** What the receiver makes of any samples at all: the frame they spell, and the errors in it. */
module UartReceive {
  import opened Uart
  import opened Wrappers

  /** The value heard for a bit: of its one sample, or of at least two of its three. */
  function HeardBit(m: Sampling, level: (nat, nat) -> bool, bit: nat): bool {
    if m.samples == 1 then level(bit, 0)
    else (level(bit, 0) && level(bit, 1)) || (level(bit, 2) && (level(bit, 0) || level(bit, 1)))
  }

  lemma VotesHear(m: Sampling, level: (nat, nat) -> bool, bit: nat)
    requires ValidSampling(m)
    ensures (Votes(level, bit, m.samples) > m.samples / 2) == HeardBit(m, level, bit)
  {
    assert Votes(level, bit, 1) == Votes(level, bit, 0) + if level(bit, 0) then 1 else 0;
    assert Votes(level, bit, 2) == Votes(level, bit, 1) + if level(bit, 1) then 1 else 0;
    assert Votes(level, bit, 3) == Votes(level, bit, 2) + if level(bit, 2) then 1 else 0;
  }

  function HeardBits(f: Format, m: Sampling, level: (nat, nat) -> bool): (heard: seq<bool>)
    ensures |heard| == FrameBits(f)
  {
    seq(FrameBits(f), bit requires 0 <= bit => HeardBit(m, level, bit))
  }

  /** The frame that the first `bits` heard bits spell: data bits not yet heard are low. */
  ghost function Spelled(f: Format, heard: seq<bool>, bits: nat): (r: Received)
    requires |heard| == FrameBits(f) && bits <= |heard|
    ensures |r.data| == f.dataBits
  {
    var taken := if bits == 0 then 0 else if bits - 1 < f.dataBits then bits - 1 else f.dataBits;
    var data := heard[1..1 + taken] + seq(f.dataBits - taken, _ => false);
    Received(data,
             f.parity != NoParity && bits > 1 + f.dataBits && heard[1 + f.dataBits] != ParityBit(f, data),
             exists k :: FrameBits(f) - f.stopBits <= k < bits && !heard[k])
  }

  ghost function Hearing(f: Format, heard: seq<bool>, bits: nat): Receiver
    requires |heard| == FrameBits(f) && bits <= |heard|
  {
    var frame := Spelled(f, heard, bits);
    if bits < FrameBits(f) then Receiver(true, 0, frame, None) else Receiver(false, 0, frame, Some(frame))
  }

  lemma DataIsHeard(f: Format, heard: seq<bool>, bit: nat)
    requires ValidFormat(f) && |heard| == FrameBits(f) && bit < |heard|
    ensures var before, after := Spelled(f, heard, bit).data, Spelled(f, heard, bit + 1).data;
            after == if 0 < bit <= f.dataBits && heard[bit] then before[bit - 1 := true] else before
  {
  }

  lemma HearNext(f: Format, heard: seq<bool>, bit: nat)
    requires ValidFormat(f) && |heard| == FrameBits(f) && bit < |heard| && !heard[0]
    ensures TakeBit(f, Hearing(f, heard, bit), bit, heard[bit]) == Hearing(f, heard, bit + 1)
  {
    hide ParityBit;
    DataIsHeard(f, heard, bit);
    var before, after := Spelled(f, heard, bit), Spelled(f, heard, bit + 1);
    assert after.framingError <==> before.framingError || (bit >= FrameBits(f) - f.stopBits && !heard[bit]);
  }

  lemma {:induction false} HearAll(f: Format, m: Sampling, level: (nat, nat) -> bool, bits: nat)
    requires ValidFormat(f) && ValidSampling(m) && bits <= FrameBits(f) && !HeardBit(m, level, 0)
    ensures Receive(f, m, level, bits) == Hearing(f, HeardBits(f, m, level), bits)
  {
    hide TakeBit, Spelled;
    var heard := HeardBits(f, m, level);
    if bits == 0 {
      NothingSpelled(f, heard);
    } else {
      HearAll(f, m, level, bits - 1);
      ReceiveBitDecides(f, m, Receive(f, m, level, bits - 1), bits - 1, level);
      VotesHear(m, level, bits - 1);
      HearNext(f, heard, bits - 1);
    }
  }

  lemma NothingSpelled(f: Format, heard: seq<bool>)
    requires |heard| == FrameBits(f)
    ensures Spelled(f, heard, 0) == Received(seq(f.dataBits, _ => false), false, false)
  {
  }

  lemma {:induction false} FalseStart(f: Format, m: Sampling, level: (nat, nat) -> bool, bits: nat)
    requires ValidSampling(m) && bits > 0 && HeardBit(m, level, 0)
    ensures !Receive(f, m, level, bits).active && Receive(f, m, level, bits).completed == None
  {
    if bits > 1 {
      FalseStart(f, m, level, bits - 1);
      ReceiveBitDecides(f, m, Receive(f, m, level, bits - 1), bits - 1, level);
    } else {
      ReceiveBitDecides(f, m, Begin(f), 0, level);
      VotesHear(m, level, 0);
    }
  }

  /**
  Whatever the line does, a high start bit cancels the reception; otherwise the frame completed holds
  the data bits heard, a parity error exactly if the parity bit heard is not that of the data, and a
  framing error exactly if a stop bit is heard low.
  */
  lemma ReceivedExactly(f: Format, m: Sampling, level: (nat, nat) -> bool)
    requires ValidFormat(f) && ValidSampling(m)
    ensures var r := Receive(f, m, level, FrameBits(f));
            var firstStop := 1 + f.dataBits + if f.parity == NoParity then 0 else 1;
            if HeardBit(m, level, 0) then r.completed == None
            else
              && r.completed.Some?
              && |r.completed.value.data| == f.dataBits
              && (forall i :: 0 <= i < f.dataBits ==> r.completed.value.data[i] == HeardBit(m, level, 1 + i))
              && (r.completed.value.parityError
                  <==> f.parity != NoParity && HeardBit(m, level, 1 + f.dataBits) != ParityBit(f, r.completed.value.data))
              && (r.completed.value.framingError
                  <==> !HeardBit(m, level, firstStop) || (f.stopBits == 2 && !HeardBit(m, level, firstStop + 1)))
  {
    hide Receive, ParityBit, TakeBit;
    if HeardBit(m, level, 0) {
      FalseStart(f, m, level, FrameBits(f));
    } else {
      HearAll(f, m, level, FrameBits(f));
      var heard := HeardBits(f, m, level);
      var firstStop := FrameBits(f) - f.stopBits;
      assert heard[firstStop] == HeardBit(m, level, firstStop);
      assert f.stopBits == 2 ==> heard[firstStop + 1] == HeardBit(m, level, firstStop + 1);
    }
  }
}
