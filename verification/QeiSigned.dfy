/**
The encoder's counters, statuses and compare output in terms of signed numbers: where a number of
pulses leaves them, whatever turns of the ring lie between.
*/
module QeiSigned {
  import opened Qei
  import Division

  /** The number that many pulses away, without any ring. */
  function Passed(value: int, up: bool, n: nat): int {
    if up then value + n else value - n
  }

  /** The signed 32-bit number of this residue. */
  function Wrapped(value: int): (signed: int)
    ensures -0x8000_0000 <= signed < 0x8000_0000
  {
    (value + 0x8000_0000) % 0x1_0000_0000 - 0x8000_0000
  }

  lemma WrappedIsSigned(value: int)
    ensures Signed(value % TURN) == Wrapped(value)
  {
    var r := value % TURN;
    Division.AddModulo(value, HALF, TURN);
    Division.Unique(r + HALF, TURN, if r < HALF then 0 else 1, if r < HALF then r + HALF else r - HALF);
  }

  lemma WrappedPosition(p: Position)
    ensures Signed(p) == Wrapped(p) && p % TURN == p
  {
    Division.Unique(p, TURN, 0, p);
    WrappedIsSigned(p);
  }

  /** A pulse on the way leaves a signed number within these bounds. */
  ghost predicate Reached(start: int, up: bool, n: nat, from: int, to: int) {
    exists k: nat :: 1 <= k <= n && from <= Wrapped(Passed(start, up, k)) <= to
  }

  /** A pulse on the way crosses to the other sign, upwards behind the largest number, downwards behind the least. */
  ghost predicate Crossed(start: int, up: bool, n: nat, turn: nat)
    requires turn > 0
  {
    exists k: nat :: 1 <= k <= n && Passed(start, up, k) % turn == if up then turn / 2 else turn / 2 - 1
  }

  lemma ReachedNext(start: int, up: bool, n: nat, from: int, to: int)
    requires n > 0
    ensures Reached(start, up, n, from, to)
       <==> Reached(start, up, n - 1, from, to) || from <= Wrapped(Passed(start, up, n)) <= to
  {
    hide Wrapped, Passed;
  }

  lemma CrossedNext(start: int, up: bool, n: nat, turn: nat)
    requires n > 0 && turn > 0
    ensures Crossed(start, up, n, turn)
       <==> Crossed(start, up, n - 1, turn) || Passed(start, up, n) % turn == if up then turn / 2 else turn / 2 - 1
  {
    hide Passed;
  }

  /** Every counter that is let through moves by the number of pulses. */
  ghost predicate MovedBy(st: Settings, up: bool, c: Counters, n: nat, d: Counters) {
    && d.index == (if st.countsIndex then Passed(c.index, up, n) % 0x1_0000_0000 else c.index)
    && d.interval == (if st.countsInterval then (c.interval + n) % 0x1_0000_0000 else c.interval)
    && d.encoder.position == (if st.gate then Passed(c.encoder.position, up, n) % 0x1_0000_0000 else c.encoder.position)
    && d.encoder.velocity == (if st.gate then Passed(c.encoder.velocity, up, n) % 0x1_0000 else c.encoder.velocity)
    && d.encoder.up == (if st.gate && n > 0 then up else c.encoder.up)
  }

  lemma {:induction false} PulsesMove(st: Settings, up: bool, c: Counters, n: nat)
    requires c.encoder.velocity < WORD
    ensures MovedBy(st, up, c, n, Pulses(st, up, c, n))
  {
    hide Signed, LastBefore, Moved;
    if n == 0 {
      NoPulses(c);
    } else {
      PulsesMove(st, up, c, n - 1);
      MovedIsPassed(c.index, up, n, TURN);
      MovedIsPassed(c.interval, true, n, TURN);
      MovedIsPassed(c.encoder.position, up, n, TURN);
      MovedIsPassed(c.encoder.velocity, up, n, WORD);
    }
  }

  /**
  Pulses move every counter that is let through by their number, and raise a status exactly if one of
  them brings the position to the high register or above, to the low one or below, or across the sign.
  */
  lemma {:induction false} PulsesExactly(st: Settings, up: bool, c: Counters, n: nat)
    requires c.encoder.velocity < WORD
    ensures MovedBy(st, up, c, n, Pulses(st, up, c, n))
    ensures var d, e := Pulses(st, up, c, n).encoder, c.encoder;
            && (d.overflow <==> e.overflow || (st.gate && Crossed(e.position, up, n, 0x1_0000_0000)))
            && (d.velocityOverflow <==> e.velocityOverflow || (st.gate && Crossed(e.velocity, up, n, 0x1_0000)))
            && (d.highStatus <==> e.highStatus || (st.gate && Reached(e.position, up, n, Wrapped(st.high), 0x7fff_ffff)))
            && (d.lowStatus <==> e.lowStatus || (st.gate && Reached(e.position, up, n, -0x8000_0000, Wrapped(st.low))))
  {
    hide Wrapped, Signed, Reached, Crossed, LastBefore, Moved;
    PulsesMove(st, up, c, n);
    if n == 0 {
      NoPulses(c);
    } else {
      var e := c.encoder;
      PulsesExactly(st, up, c, n - 1);
      MovedIsPassed(e.position, up, n, TURN);
      MovedIsPassed(e.velocity, up, n, WORD);
      WrappedIsSigned(Passed(e.position, up, n));
      WrappedPosition(st.high);
      WrappedPosition(st.low);
      ReachedNext(e.position, up, n, Wrapped(st.high), 0x7fff_ffff);
      ReachedNext(e.position, up, n, -0x8000_0000, Wrapped(st.low));
      CrossedNext(e.position, up, n, TURN);
      CrossedNext(e.velocity, up, n, WORD);
    }
  }

  lemma NoPulses(c: Counters)
    requires c.encoder.velocity < WORD
    ensures c.index % TURN == c.index && c.interval % TURN == c.interval
    ensures c.encoder.position % TURN == c.encoder.position && c.encoder.velocity % WORD == c.encoder.velocity
    ensures forall up, start, from, to :: !Reached(start, up, 0, from, to)
    ensures forall up, start :: !Crossed(start, up, 0, TURN) && !Crossed(start, up, 0, WORD)
  {
    Division.Unique(c.index, TURN, 0, c.index);
    Division.Unique(c.interval, TURN, 0, c.interval);
    Division.Unique(c.encoder.position, TURN, 0, c.encoder.position);
    Division.Unique(c.encoder.velocity, WORD, 0, c.encoder.velocity);
  }

  lemma MovedIsPassed(value: nat, up: bool, n: nat, turn: nat)
    requires n > 0 && turn > 0 && turn % 2 == 0
    ensures var before := Passed(value, up, n - 1) % turn;
            && Moved(before, up, 1, turn) == Passed(value, up, n) % turn
            && (before == LastBefore(up, turn / 2) <==> Passed(value, up, n) % turn == if up then turn / 2 else turn / 2 - 1)
  {
    var before := Passed(value, up, n - 1) % turn;
    Division.AddModulo(Passed(value, up, n - 1), if up then 1 else -1, turn);
    LastTickCrosses(before, up, turn / 2);
  }

  /**
  The compare output on the way, with the position and both registers as signed numbers: high from the
  high register up, up to the low register, between the two, or never, as the mode says.
  */
  lemma OutputAlongPath(mode: nat, p: Position, up: bool, high: Position, low: Position, n: nat)
    ensures var position := Wrapped(Passed(p, up, n));
            (OutputAfter(mode, p, up, high, low, n)
             <==> if mode == 1 then position >= Wrapped(high)
                  else if mode == 2 then position <= Wrapped(low)
                  else mode == 3 && Wrapped(high) <= position <= Wrapped(low))
  {
    hide Wrapped, Signed;
    WrappedIsSigned(Passed(p, up, n));
    WrappedPosition(high);
    WrappedPosition(low);
  }
}
