/** Writing the loop registers byte by byte, and what the innermost loop does then. */
module LoopWrites {
  import opened DoLoop
  import opened LoopCode

  /** A write to one byte of DCOUNT leaves the other one. */
  lemma DcountByteWritten(s: State, high: bool, value: nat)
    requires value < 0x100
    ensures var t := WriteDcount(s, high, value);
            && (high ==> t.dcount % 0x100 == s.dcount % 0x100 && t.dcount / 0x100 == value)
            && (!high ==> t.dcount % 0x100 == value && t.dcount / 0x100 == s.dcount / 0x100)
            && (s.stack != [] ==> t.stack != [] && Top(t) == Top(s).(count := t.dcount))
  {
  }

  /** Both bytes written, in either order, make the count of the register and of the innermost loop. */
  lemma DcountWritten(s: State, lowFirst: bool, low: nat, high: nat)
    requires low < 0x100 && high < 0x100
    ensures var t := if lowFirst then WriteDcount(WriteDcount(s, false, low), true, high)
                     else WriteDcount(WriteDcount(s, true, high), false, low);
            && t.dcount == low + 0x100 * high
            && (s.stack != [] ==> t == s.(dcount := t.dcount, stack := t.stack) && |t.stack| == |s.stack|
                                  && t.stack[..|s.stack| - 1] == s.stack[..|s.stack| - 1]
                                  && Top(t) == Top(s).(count := low + 0x100 * high))
  {
    var first := if lowFirst then WriteDcount(s, false, low) else WriteDcount(s, true, high);
    DcountByteWritten(s, false, low);
    DcountByteWritten(s, true, high);
    DcountByteWritten(first, lowFirst, if lowFirst then high else low);
  }

  /** A loop whose count is written at the start of an iteration runs that many iterations and one more. */
  lemma WrittenCountRuns(program: Program, body: Block, s: State, lowFirst: bool, low: nat, high: nat)
    requires low < 0x100 && high < 0x100 && AtStart(program, body, s) && Left(body).Some?
    requires s.stack != [] && Top(s).terminate == 0
    ensures var t := if lowFirst then WriteDcount(WriteDcount(s, false, low), true, high)
                     else WriteDcount(WriteDcount(s, true, high), false, low);
            var n := low + 0x100 * high + 1;
            t.stack != [] && Steps(program, t, Scaled(n, StepCount(body, true))) == LoopEnded(t, body, n)
  {
    hide Runnable, Steps, LoopEnded, StepCount, Within, WriteDcount;
    var t := if lowFirst then WriteDcount(WriteDcount(s, false, low), true, high)
             else WriteDcount(WriteDcount(s, true, high), false, low);
    DcountWritten(s, lowFirst, low, high);
    RunnableIsShown(program, body, s);
    RecountedAtStart(program, body, s, t);
    LoopRuns(program, body, t);
    IterationsCount(Top(t).count, 0);
  }

  lemma RecountedAtStart(program: Program, body: Block, s: State, t: State)
    requires AtStart(program, body, s) && s.stack != [] && |t.stack| == |s.stack|
    requires t == s.(dcount := t.dcount, stack := t.stack) && Top(t) == Top(s).(count := t.dcount)
    ensures AtStart(program, body, t)
  {
    hide Placed, WellFormed, Clean, Size, EndsArmed;
  }

  // ---------------------------------------------------------------------------------------
  // DOEND
  // ---------------------------------------------------------------------------------------

  function Byte(value: nat, k: nat): (byte: nat)
    requires k < 4
    ensures byte < 0x100
  {
    value / [1, 0x100, 0x1_0000, 0x100_0000][k] % 0x100
  }

  /** What DOEND keeps of a byte: it is even and has 22 bits. */
  function Kept(k: nat, value: nat): nat {
    if k == 0 then value - value % 2 else if k == 1 then value else if k == 2 then value % 0x40 else 0
  }

  lemma BytesOf(x: nat, b0: nat, b1: nat, b2: nat)
    requires b0 < 0x100 && b1 < 0x100 && b2 < 0x40 && x == b0 + 0x100 * b1 + 0x1_0000 * b2
    ensures Byte(x, 0) == b0 && Byte(x, 1) == b1 && Byte(x, 2) == b2 && Byte(x, 3) == 0 && x < 0x40_0000
  {
  }

  /** The mask of DOEND, byte by byte. */
  lemma MaskedBytes(b0: nat, b1: nat, b2: nat, b3: nat)
    requires b0 < 0x100 && b1 < 0x100 && b2 < 0x100
    ensures var x := b0 + 0x100 * b1 + 0x1_0000 * b2 + 0x100_0000 * b3;
            (x - x % 2) % 0x40_0000 == Kept(0, b0) + 0x100 * b1 + 0x1_0000 * Kept(2, b2)
  {
    var x := b0 + 0x100 * b1 + 0x1_0000 * b2 + 0x100_0000 * b3;
    assert x % 2 == b0 % 2;
    assert b2 == b2 / 0x40 * 0x40 + b2 % 0x40;
    assert x - x % 2 == Kept(0, b0) + 0x100 * b1 + 0x1_0000 * Kept(2, b2) + 0x40_0000 * (b2 / 0x40 + 4 * b3);
  }

  /** A write to one byte of DOEND leaves the others. */
  lemma DoendByteWritten(s: State, k: nat, value: nat)
    requires k < 4 && value < 0x100 && s.doend < 0x40_0000 && s.doend % 2 == 0
    ensures var t := WriteDoend(s, k, value);
            && t.doend < 0x40_0000 && t.doend % 2 == 0
            && (forall j: nat :: j < 4 ==> Byte(t.doend, j) == if j == k then Kept(k, value) else Byte(s.doend, j))
            && (s.stack != [] ==> t.stack != [] && Top(t) == Top(s).(end := t.doend))
  {
    hide Kept, Byte, WriteDoend;
    var t := WriteDoend(s, k, value);
    var b0, b1, b2 := Byte(s.doend, 0), Byte(s.doend, 1), Byte(s.doend, 2);
    EvenBytes(s.doend);
    KeptBytes(value, b0, b2);
    DoendValue(s, k, value);
    BytesOf(t.doend, Kept(0, if k == 0 then value else b0), if k == 1 then value else b1, Kept(2, if k == 2 then value else b2));
    forall j: nat | j < 4 ensures Byte(t.doend, j) == if j == k then Kept(k, value) else Byte(s.doend, j) {
      assert j == 0 || j == 1 || j == 2 || j == 3;
    }
    EvenSum(Kept(0, if k == 0 then value else b0), if k == 1 then value else b1, Kept(2, if k == 2 then value else b2));
  }

  lemma EvenSum(b0: nat, b1: nat, b2: nat)
    requires b0 % 2 == 0
    ensures (b0 + 0x100 * b1 + 0x1_0000 * b2) % 2 == 0
  {
  }

  lemma DoendFormula(s: State, k: nat, value: nat)
    requires k < 4 && value < 0x100 && s.doend < 0x40_0000
    ensures var scale := [1, 0x100, 0x1_0000, 0x100_0000][k];
            var written := s.doend - s.doend / scale % 0x100 * scale + value * scale;
            var t := WriteDoend(s, k, value);
            t.doend == (written - written % 2) % 0x40_0000
            && (s.stack != [] ==> t.stack != [] && Top(t) == Top(s).(end := t.doend))
  {
  }

  lemma DoendValue(s: State, k: nat, value: nat)
    requires k < 4 && value < 0x100 && s.doend < 0x40_0000
    ensures var b0, b1, b2 := Byte(s.doend, 0), Byte(s.doend, 1), Byte(s.doend, 2);
            var t := WriteDoend(s, k, value);
            && t.doend == Kept(0, if k == 0 then value else b0) + 0x100 * (if k == 1 then value else b1)
                        + 0x1_0000 * Kept(2, if k == 2 then value else b2)
            && (s.stack != [] ==> t.stack != [] && Top(t) == Top(s).(end := t.doend))
  {
    hide Kept, Byte, WriteDoend;
    var b0, b1, b2 := Byte(s.doend, 0), Byte(s.doend, 1), Byte(s.doend, 2);
    DoendFormula(s, k, value);
    WrittenBytes(s.doend, k, value);
    MaskedBytes(if k == 0 then value else b0, if k == 1 then value else b1, if k == 2 then value else b2, if k == 3 then value else 0);
  }

  lemma EvenBytes(x: nat)
    requires x < 0x40_0000 && x % 2 == 0
    ensures Byte(x, 0) % 2 == 0 && Byte(x, 2) < 0x40 && Byte(x, 3) == 0
  {
  }

  lemma KeptBytes(value: nat, b0: nat, b2: nat)
    requires value < 0x100 && b0 % 2 == 0 && b2 < 0x40 && b0 < 0x100
    ensures Kept(0, b0) == b0 && Kept(2, b2) == b2 && Kept(1, value) == value && Kept(3, value) == 0
    ensures Kept(0, value) < 0x100 && Kept(2, value) < 0x40 && Kept(0, value) % 2 == 0
  {
  }

  lemma WrittenBytes(x: nat, k: nat, value: nat)
    requires k < 4 && x < 0x40_0000
    ensures var scale := [1, 0x100, 0x1_0000, 0x100_0000][k];
            x - x / scale % 0x100 * scale + value * scale
            == (if k == 0 then value else Byte(x, 0)) + 0x100 * (if k == 1 then value else Byte(x, 1))
             + 0x1_0000 * (if k == 2 then value else Byte(x, 2)) + 0x100_0000 * (if k == 3 then value else 0)
  {
    DoendOfBytes(x);
  }

  lemma DoendOfBytes(doend: nat)
    requires doend < 0x40_0000
    ensures doend == Byte(doend, 0) + 0x100 * Byte(doend, 1) + 0x1_0000 * Byte(doend, 2)
  {
  }

  /** All three bytes written, in any order, make the end of the innermost loop. */
  lemma DoendWritten(s: State, first: nat, second: nat, third: nat, value: nat -> nat)
    requires s.doend < 0x40_0000 && s.doend % 2 == 0 && {first, second, third} == {0, 1, 2}
    requires value(0) < 0x100 && value(1) < 0x100 && value(2) < 0x100
    ensures var t := WriteDoend(WriteDoend(WriteDoend(s, first, value(first)), second, value(second)), third, value(third));
            && t.doend == value(0) - value(0) % 2 + 0x100 * value(1) + 0x1_0000 * (value(2) % 0x40)
            && (s.stack != [] ==> t.stack != [] && Top(t).end == t.doend)
  {
    hide WriteDoend, Byte;
    assert first in {0, 1, 2} && second in {0, 1, 2} && third in {0, 1, 2};
    assert 0 in {first, second, third} && 1 in {first, second, third} && 2 in {first, second, third};
    var a := WriteDoend(s, first, value(first));
    var b := WriteDoend(a, second, value(second));
    var c := WriteDoend(b, third, value(third));
    DoendByteWritten(s, first, value(first));
    DoendByteWritten(a, second, value(second));
    DoendByteWritten(b, third, value(third));
    DoendOfBytes(c.doend);
  }
}
