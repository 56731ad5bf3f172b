/** Packed decimal addition: byte additions, each followed by a decimal adjust. */
module Bcd {
  import opened Arithmetic

  function Units(b: Word): nat {
    b % 0x10
  }

  function Tens(b: Word): nat {
    b / 0x10
  }

  /** A byte that holds two decimal digits. */
  predicate Packed(b: Word) {
    b < 0x100 && Units(b) <= 9 && Tens(b) <= 9
  }

  function Decimal(b: Word): nat {
    Tens(b) * 10 + Units(b)
  }

  lemma HalvesOfByte(b: Word)
    ensures b == 0x10 * Tens(b) + Units(b)
  {
  }

  /** The adjusted low byte, before its ninth bit is dropped. */
  function Adjustment(low: nat, carry: bool, digitCarry: bool): nat {
    var adjusted := if low % 0x10 > 9 || digitCarry then low + 6 else low;
    if adjusted > 0x9f || carry then adjusted + 0x60 else adjusted
  }

  /** DAW.B: adjusts the low byte of a register; the carry can be set but not cleared. */
  function DecimalAdjust(flags: Flags, register: Word): Result {
    var adjusted := Adjustment(register % 0x100, flags.carry, flags.digitCarry);
    Result(register / 0x100 * 0x100 + adjusted % 0x100, flags.(carry := flags.carry || adjusted > 0xff))
  }

  /** The lowest bytes with ADD.B, each further pair with ADDC.B, each sum adjusted. */
  function RunDecimalChain(flags: Flags, xs: seq<Word>, ys: seq<Word>): (c: Chain)
    requires |xs| == |ys|
    ensures |c.digits| == |xs|
  {
    if xs == [] then Chain([], flags)
    else
      var last := |xs| - 1;
      var before := RunDecimalChain(flags, xs[..last], ys[..last]);
      var sum := ExecuteBinary(before.flags, OperationAt(last, true), xs[last], ys[last], true);
      var adjusted := DecimalAdjust(sum.flags, sum.value);
      Chain(before.digits + [adjusted.value], adjusted.flags)
  }

  predicate PackedNumber(xs: seq<Word>) {
    forall i :: 0 <= i < |xs| ==> Packed(xs[i])
  }

  function Hundreds(n: nat): (p: nat)
    ensures p > 0
  {
    if n == 0 then 1 else 100 * Hundreds(n - 1)
  }

  function DecimalValue(xs: seq<Word>): nat {
    if xs == [] then 0 else Top(DecimalValue(xs[..|xs| - 1]), Decimal(xs[|xs| - 1]), Hundreds(|xs| - 1))
  }

  /** What the byte addition leaves for the adjustment. */
  lemma SumOfPacked(flags: Flags, op: Operation, a: Word, b: Word)
    requires Packed(a) && Packed(b) && Additive(op)
    ensures var r := ExecuteBinary(flags, op, a, b, true);
            var sum := a + b + Link(flags, op);
            && r.value == (if sum < 0x100 then sum else sum - 0x100) && (r.flags.carry <==> sum >= 0x100)
            && (r.flags.digitCarry <==> Units(a) + Units(b) + Link(flags, op) >= 0x10)
  {
    hide Signed, InSignedRange, Kept, LowDigit, Units, Tens;
    KeptWraps(a, true);
    KeptWraps(b, true);
    KeptWraps(a + b + Link(flags, op), true);
    UnitsAreLowDigit(a);
    UnitsAreLowDigit(b);
  }

  lemma UnitsAreLowDigit(b: Word)
    ensures LowDigit(b, true) == Units(b)
  {
  }

  /** On a byte, the adjustment is all there is to the instruction. */
  lemma AdjustOfByte(flags: Flags, b: Word)
    requires b < 0x100
    ensures var adjusted := Adjustment(b, flags.carry, flags.digitCarry);
            DecimalAdjust(flags, b) == Result(adjusted % 0x100, flags.(carry := flags.carry || adjusted > 0xff))
  {
    hide Adjustment;
    assert b % 0x100 == b;
  }

  function UnitsAfter(low: nat, digitCarry: bool): nat {
    if digitCarry then low + 6 else if low > 9 then low - 10 else low
  }

  function TensAfter(high: nat, low: nat, carry: bool): nat {
    var tens := if low > 9 then high + 1 else high;
    if tens > 9 || carry then tens + 6 else tens
  }

  /** The adjustment of a byte given by its two halves. */
  lemma AdjustmentOfHalves(high: nat, low: nat, carry: bool, digitCarry: bool)
    requires high < 0x10 && low < 0x10 && (digitCarry ==> low <= 3) && (carry ==> high <= 3)
    ensures Adjustment(0x10 * high + low, carry, digitCarry) == 0x10 * TensAfter(high, low, carry) + UnitsAfter(low, digitCarry)
  {
    assert (0x10 * high + low) % 0x10 == low;
  }

  /** A pair of digit sums, as the addition leaves it in a byte and the carries. */
  lemma DigitSumsAdjust(high: nat, low: nat)
    requires high <= 18 && low <= 19
    ensures var digitCarry := low >= 0x10;
            var lowHalf, top := if digitCarry then low - 0x10 else low, if digitCarry then high + 1 else high;
            var highHalf, carry := if top >= 0x10 then top - 0x10 else top, top >= 0x10;
            var tens, units := TensAfter(highHalf, lowHalf, carry), UnitsAfter(lowHalf, digitCarry);
            && highHalf < 0x10 && lowHalf < 0x10 && units <= 9 && tens < 0x20 && tens % 0x10 <= 9
            && (digitCarry ==> lowHalf <= 3) && (carry ==> highHalf <= 3)
            && tens % 0x10 * 10 + units + (if carry || tens >= 0x10 then 100 else 0) == high * 10 + low
  {
  }

  lemma PackedFromHalves(tens: nat, units: nat)
    requires units <= 9 && tens < 0x20 && tens % 0x10 <= 9
    ensures Packed((0x10 * tens + units) % 0x100)
    ensures Decimal((0x10 * tens + units) % 0x100) == tens % 0x10 * 10 + units
    ensures 0x10 * tens + units > 0xff <==> tens >= 0x10
  {
    var kept := if tens >= 0x10 then tens - 0x10 else tens;
    assert tens % 0x10 == kept;
    assert (0x10 * tens + units) % 0x100 == 0x10 * kept + units;
    HalvesAreUnique(kept, units);
  }

  lemma HalvesAreUnique(tens: nat, units: nat)
    requires tens < 0x10 && units < 0x10
    ensures Tens(0x10 * tens + units) == tens && Units(0x10 * tens + units) == units
  {
  }

  /** The adjusted sum of packed bytes, given by their digit sums. */
  lemma AdjustedIsDecimal(sum: nat, high: nat, low: nat)
    requires high <= 18 && low <= 19 && sum == 0x10 * high + low
    ensures var kept := if sum < 0x100 then sum else sum - 0x100;
            var adjusted := Adjustment(kept, sum >= 0x100, low >= 0x10);
            && Packed(adjusted % 0x100)
            && Decimal(adjusted % 0x100) + (if sum >= 0x100 || adjusted > 0xff then 100 else 0) == high * 10 + low
  {
    hide Adjustment, TensAfter, UnitsAfter, Packed, Decimal;
    var digitCarry := low >= 0x10;
    var lowHalf, top := if digitCarry then low - 0x10 else low, if digitCarry then high + 1 else high;
    var highHalf, carry := if top >= 0x10 then top - 0x10 else top, top >= 0x10;
    DigitSumsAdjust(high, low);
    AdjustmentOfHalves(highHalf, lowHalf, carry, digitCarry);
    PackedFromHalves(TensAfter(highHalf, lowHalf, carry), UnitsAfter(lowHalf, digitCarry));
  }

  lemma StepIsDecimal(flags: Flags, op: Operation, a: Word, b: Word)
    requires Packed(a) && Packed(b) && Additive(op)
    ensures var sum := ExecuteBinary(flags, op, a, b, true);
            var r := DecimalAdjust(sum.flags, sum.value);
            && Packed(r.value)
            && Decimal(r.value) + (if r.flags.carry then 100 else 0) == Decimal(a) + Decimal(b) + Link(flags, op)
  {
    hide ExecuteBinary, DecimalAdjust, Adjustment, Link, Units, Tens;
    var sum := ExecuteBinary(flags, op, a, b, true);
    SumOfPacked(flags, op, a, b);
    AdjustOfByte(sum.flags, sum.value);
    HalvesOfByte(a);
    HalvesOfByte(b);
    AdjustedIsDecimal(a + b + Link(flags, op), Tens(a) + Tens(b), Units(a) + Units(b) + Link(flags, op));
  }

  lemma DecimalTop(x: nat, y: nat, z: nat, a: nat, b: nat, link: nat, d: nat, carry: bool, p: nat)
    requires link <= 1 && z + (if link == 1 then p else 0) == x + y && d + (if carry then 100 else 0) == a + b + link
    ensures Top(z, d, p) + (if carry then 100 * p else 0) == Top(x, a, p) + Top(y, b, p)
  {
    hide Top;
    assert link * p == if link == 1 then p else 0;
    TopsCombine(x, y, z, a, b, link, p);
    TopCarries(z, d, p);
  }

  lemma TopCarries(z: int, d: int, p: int)
    ensures Top(z, d + 100, p) == Top(z, d, p) + 100 * p
  {
    assert (d + 100) * p == d * p + 100 * p;
  }

  lemma LinkIsCarry(flags: Flags, i: nat)
    ensures Link(flags, OperationAt(i, true)) == if i > 0 && flags.carry then 1 else 0
    ensures Additive(OperationAt(i, true))
  {
  }

  lemma DecimalValueGrows(xs: seq<Word>, d: Word)
    ensures DecimalValue(xs + [d]) == Top(DecimalValue(xs), Decimal(d), Hundreds(|xs|))
  {
    assert (xs + [d])[..|xs|] == xs;
  }

  ghost predicate ExactDecimal(xs: seq<Word>, ys: seq<Word>, c: Chain)
    requires |xs| == |ys| == |c.digits|
  {
    && PackedNumber(c.digits)
    && DecimalValue(c.digits) + (if xs != [] && c.flags.carry then Hundreds(|xs|) else 0) == DecimalValue(xs) + DecimalValue(ys)
  }

  lemma DecimalChainExtends(xs: seq<Word>, ys: seq<Word>, before: Chain, a: Word, b: Word, d: Word, flags: Flags)
    requires |xs| == |ys| == |before.digits| && ExactDecimal(xs, ys, before)
    requires Packed(d)
    requires Decimal(d) + (if flags.carry then 100 else 0)
          == Decimal(a) + Decimal(b) + (if xs != [] && before.flags.carry then 1 else 0)
    ensures ExactDecimal(xs + [a], ys + [b], Chain(before.digits + [d], flags))
  {
    hide DecimalValue, Decimal, Packed, Top;
    DecimalValueGrows(xs, a);
    DecimalValueGrows(ys, b);
    DecimalValueGrows(before.digits, d);
    DecimalTop(DecimalValue(xs), DecimalValue(ys), DecimalValue(before.digits), Decimal(a), Decimal(b),
               if xs != [] && before.flags.carry then 1 else 0, Decimal(d), flags.carry, Hundreds(|xs|));
  }

  lemma EmptyIsExact(c: Chain)
    requires c.digits == []
    ensures ExactDecimal([], [], c)
  {
  }

  /** The sum of packed numbers of any length is packed and exact, with C as the decimal carry. */
  lemma {:induction false} DecimalChainIsExact(flags: Flags, xs: seq<Word>, ys: seq<Word>)
    requires |xs| == |ys| && PackedNumber(xs) && PackedNumber(ys)
    ensures ExactDecimal(xs, ys, RunDecimalChain(flags, xs, ys))
  {
    hide ExecuteBinary, DecimalAdjust, Decimal, Packed, OperationAt, Link, DecimalValue, Hundreds, ExactDecimal;
    if xs == [] {
      EmptyIsExact(RunDecimalChain(flags, xs, ys));
    } else {
      var last := |xs| - 1;
      DecimalChainIsExact(flags, xs[..last], ys[..last]);
      var before := RunDecimalChain(flags, xs[..last], ys[..last]);
      var op := OperationAt(last, true);
      LinkIsCarry(before.flags, last);
      StepIsDecimal(before.flags, op, xs[last], ys[last]);
      var sum := ExecuteBinary(before.flags, op, xs[last], ys[last], true);
      var r := DecimalAdjust(sum.flags, sum.value);
      DecimalChainExtends(xs[..last], ys[..last], before, xs[last], ys[last], r.value, r.flags);
      assert xs == xs[..last] + [xs[last]] && ys == ys[..last] + [ys[last]];
    }
  }

  class Register {
    var value: Word
    var carry: bool
    const digitCarry: bool

    method DecimalAdjustByte()
      modifies this
      ensures var flags := Flags(old(carry), false, false, false, digitCarry);
              value == DecimalAdjust(flags, old(value)).value && carry == DecimalAdjust(flags, old(value)).flags.carry
    {
      var adjusted := value % 0x100;
      if adjusted % 0x10 > 9 || digitCarry {
        adjusted := adjusted + 6;
      }
      if adjusted > 0x9f || carry {
        adjusted := adjusted + 0x60;
      }
      value := value / 0x100 * 0x100 + adjusted % 0x100;
      carry := carry || adjusted > 0xff;
    }
  }
}
