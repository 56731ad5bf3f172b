/**
Addition, subtraction and comparison of bytes and words, the status flags they leave, and the branch
conditions that read the flags; then what chains of them compute on numbers of any length.
*/
module Arithmetic {
  import opened Wrappers

  type Word = x: nat | x < 0x10000

  datatype Flags = Flags(carry: bool, zero: bool, overflow: bool, negative: bool, digitCarry: bool)

  datatype Operation = Add | AddCarry | Sub | SubBorrow | SubReversed | SubBorrowReversed

  datatype Result = Result(value: Word, flags: Flags)

  function Base(byteMode: bool): nat {
    if byteMode then 0x100 else 0x10000
  }

  /** The weight of the sign bit. */
  function Half(byteMode: bool): nat {
    if byteMode then 0x80 else 0x8000
  }

  /** The operand bits that an operation works on. */
  function Kept(value: int, byteMode: bool): (kept: Word)
    ensures kept < Base(byteMode)
  {
    if byteMode then value % 0x100 else value % 0x10000
  }

  /** The low operand part that the digit carry is taken from. */
  function LowDigit(value: Word, byteMode: bool): nat {
    if byteMode then value % 0x10 else value % 0x100
  }

  function DigitBase(byteMode: bool): nat {
    if byteMode then 0x10 else 0x100
  }

  /** The two's complement reading of a value whose sign bit weighs `half`. */
  function Signed(value: int, half: int): int {
    if value >= half then value - 2 * half else value
  }

  predicate InSignedRange(value: int, half: int) {
    0 - half <= value < half
  }

  function AddFlags(flags: Flags, left: Word, right: Word, carryIn: nat, result: nat, byteMode: bool,
                    sticky: bool): Flags
  {
    var value, half := Kept(result, byteMode), Half(byteMode);
    var sum := Signed(Kept(left, byteMode), half) + Signed(Kept(right, byteMode), half) + carryIn;
    Flags(result >= Base(byteMode),
          value == 0 && (!sticky || flags.zero),
          !InSignedRange(sum, half),
          value >= half,
          LowDigit(left, byteMode) + LowDigit(right, byteMode) + carryIn >= DigitBase(byteMode))
  }

  function SubtractFlags(flags: Flags, left: Word, right: Word, borrow: nat, result: Word, byteMode: bool,
                         sticky: bool): Flags
  {
    var value, half := Kept(result, byteMode), Half(byteMode);
    var difference := Signed(Kept(left, byteMode), half) - Signed(Kept(right, byteMode), half) - borrow;
    Flags(Kept(left, byteMode) >= Kept(right, byteMode) + borrow,
          value == 0 && (!sticky || flags.zero),
          !InSignedRange(difference, half),
          value >= half,
          LowDigit(left, byteMode) >= LowDigit(right, byteMode) + borrow)
  }

  predicate Additive(op: Operation) {
    op == Add || op == AddCarry
  }

  predicate Reversed(op: Operation) {
    op == SubReversed || op == SubBorrowReversed
  }

  predicate WithCarry(op: Operation) {
    op == AddCarry || op == SubBorrow || op == SubBorrowReversed
  }

  function ExecuteBinary(flags: Flags, op: Operation, left: Word, right: Word, byteMode: bool): Result {
    var first, second := Kept(left, byteMode), Kept(right, byteMode);
    if Additive(op) then
      var carry := if WithCarry(op) && flags.carry then 1 else 0;
      var result := first + second + carry;
      Result(Kept(result, byteMode), AddFlags(flags, first, second, carry, result, byteMode, WithCarry(op)))
    else
      var borrow := if WithCarry(op) && !flags.carry then 1 else 0;
      var minuend, subtrahend := if Reversed(op) then second else first, if Reversed(op) then first else second;
      var result: Word := (minuend - subtrahend - borrow) % 0x10000;
      Result(Kept(result, byteMode), SubtractFlags(flags, minuend, subtrahend, borrow, result, byteMode, WithCarry(op)))
  }

  function ExecuteCompare(flags: Flags, left: Word, right: Word, byteMode: bool, withBorrow: bool): Flags {
    var first, second := Kept(left, byteMode), Kept(right, byteMode);
    var borrow := if withBorrow && !flags.carry then 1 else 0;
    SubtractFlags(flags, first, second, borrow, (first - second - borrow) % 0x10000, byteMode, withBorrow)
  }

  /** The decision of a conditional branch; codes without a condition have none. */
  function BranchCondition(flags: Flags, condition: nat): Option<bool> {
    match condition
    case 0 => Some(flags.overflow)
    case 1 => Some(flags.carry)
    case 2 => Some(flags.zero)
    case 3 => Some(flags.negative)
    case 4 => Some(flags.zero || flags.negative != flags.overflow)
    case 5 => Some(flags.negative != flags.overflow)
    case 6 => Some(!flags.carry || flags.zero)
    case 7 => Some(true)
    case 8 => Some(!flags.overflow)
    case 9 => Some(!flags.carry)
    case 10 => Some(!flags.zero)
    case 11 => Some(!flags.negative)
    case 12 => Some(!flags.zero && flags.negative == flags.overflow)
    case 13 => Some(flags.negative == flags.overflow)
    case 14 => Some(flags.carry && !flags.zero)
    case _ => None
  }

  // ---------------------------------------------------------------------------------------
  // Numbers of any length, lowest digit first
  // ---------------------------------------------------------------------------------------

  predicate Digits(xs: seq<Word>, byteMode: bool) {
    forall i :: 0 <= i < |xs| ==> xs[i] < Base(byteMode)
  }

  function Scale(byteMode: bool, n: nat): (p: nat)
    ensures p > 0
  {
    if n == 0 then 1 else Base(byteMode) * Scale(byteMode, n - 1)
  }

  /** A number with `d` on top of the digits that make up `low`. */
  function Top(low: int, d: int, p: int): (v: int)
    ensures low >= 0 && d >= 0 && p >= 0 ==> v >= 0
  {
    low + d * p
  }

  function Value(xs: seq<Word>, byteMode: bool): nat {
    if xs == [] then 0
    else Top(Value(xs[..|xs| - 1], byteMode), xs[|xs| - 1], Scale(byteMode, |xs| - 1))
  }

  /** The two's complement reading of a whole number. */
  function SignedValue(xs: seq<Word>, byteMode: bool): int
    requires xs != []
  {
    Signed(Value(xs, byteMode), SignWeight(byteMode, |xs|))
  }

  function Times(a: nat, b: nat): nat {
    a * b
  }

  function SignWeight(byteMode: bool, n: nat): (p: nat)
    requires n > 0
  {
    Times(Half(byteMode), Scale(byteMode, n - 1))
  }

  lemma ScaleIsTwiceSignWeight(byteMode: bool, n: nat)
    requires n > 0
    ensures Scale(byteMode, n) == 2 * SignWeight(byteMode, n)
  {
    var p := Scale(byteMode, n - 1);
    if byteMode {
      assert Scale(byteMode, n) == 0x100 * p;
      assert SignWeight(byteMode, n) == 0x80 * p;
    } else {
      assert Scale(byteMode, n) == 0x10000 * p;
      assert SignWeight(byteMode, n) == 0x8000 * p;
    }
  }

  datatype Chain = Chain(digits: seq<Word>, flags: Flags)

  /** The plain operation on the lowest digits, the operation with carry on each next pair. */
  function RunChain(flags: Flags, xs: seq<Word>, ys: seq<Word>, byteMode: bool, additive: bool): (c: Chain)
    requires |xs| == |ys|
    ensures |c.digits| == |xs|
  {
    if xs == [] then Chain([], flags)
    else
      var last := |xs| - 1;
      var before := RunChain(flags, xs[..last], ys[..last], byteMode, additive);
      var r := ExecuteBinary(before.flags, OperationAt(last, additive), xs[last], ys[last], byteMode);
      Chain(before.digits + [r.value], r.flags)
  }

  function OperationAt(i: nat, additive: bool): Operation {
    if additive then (if i == 0 then Add else AddCarry) else (if i == 0 then Sub else SubBorrow)
  }

  /** A comparison of the lowest digits, then comparisons with borrow. */
  function CompareChain(flags: Flags, xs: seq<Word>, ys: seq<Word>, byteMode: bool): Flags
    requires |xs| == |ys|
  {
    if xs == [] then flags
    else
      var last := |xs| - 1;
      ExecuteCompare(CompareChain(flags, xs[..last], ys[..last], byteMode), xs[last], ys[last], byteMode, last > 0)
  }

  /** What an operation leaves in the top digit, in terms of the flags. */
  ghost predicate ExactDigit(a: nat, b: nat, link: nat, d: nat, flags: Flags, half: nat, additive: bool) {
    && d < 2 * half
    && (if additive then d + (if flags.carry then 2 * half else 0) == a + b + link
        else d - (if flags.carry then 0 else 2 * half) == a - b - link)
    && (flags.negative <==> d >= half)
    && (flags.overflow <==> !InSignedRange(SignedDigits(a, b, link, half, additive), half))
  }

  function SignedDigits(a: int, b: int, link: int, half: int, additive: bool): int {
    if additive then Signed(a, half) + Signed(b, half) + link else Signed(a, half) - Signed(b, half) - link
  }

  /** N and OV together show the sign of the exact result. */
  lemma SignIsNegativeXorOverflow(a: nat, b: nat, link: nat, d: nat, flags: Flags, half: nat, additive: bool)
    requires half > 0 && a < 2 * half && b < 2 * half && link <= 1 && ExactDigit(a, b, link, d, flags, half, additive)
    ensures SignedDigits(a, b, link, half, additive) < 0 <==> flags.negative != flags.overflow
  {
  }

  lemma KeptWraps(x: nat, byteMode: bool)
    requires x < 2 * Base(byteMode)
    ensures Kept(x, byteMode) == if x < Base(byteMode) then x else x - Base(byteMode)
  {
  }

  lemma KeptIs(value: Word, byteMode: bool)
    ensures Kept(value, byteMode) == if byteMode then value % 0x100 else value
  {
  }

  lemma KeptBorrows(x: int, byteMode: bool)
    requires -0x10000 <= x < 0x10000 && 0 - Base(byteMode) <= x < Base(byteMode)
    ensures Kept(x % 0x10000, byteMode) == if x >= 0 then x else x + Base(byteMode)
  {
  }

  lemma AddFlagsAreExact(flags: Flags, a: Word, b: Word, link: nat, byteMode: bool, sticky: bool)
    requires a < Base(byteMode) && b < Base(byteMode) && link <= 1
    ensures var after := AddFlags(flags, a, b, link, a + b + link, byteMode, sticky);
            ExactDigit(a, b, link, Kept(a + b + link, byteMode), after, Half(byteMode), true)
            && (after.zero <==> Kept(a + b + link, byteMode) == 0 && (!sticky || flags.zero))
  {
    hide DigitBase, LowDigit, Kept;
    KeptWraps(a, byteMode);
    KeptWraps(b, byteMode);
    KeptWraps(a + b + link, byteMode);
  }

  lemma SubtractFlagsAreExact(flags: Flags, a: Word, b: Word, link: nat, value: Word, byteMode: bool, sticky: bool)
    requires a < Base(byteMode) && b < Base(byteMode) && link <= 1 && value == (a - b - link) % 0x10000
    ensures var after := SubtractFlags(flags, a, b, link, value, byteMode, sticky);
            ExactDigit(a, b, link, Kept(value, byteMode), after, Half(byteMode), false)
            && (after.zero <==> Kept(value, byteMode) == 0 && (!sticky || flags.zero))
  {
    hide DigitBase, LowDigit, Kept;
    KeptWraps(a, byteMode);
    KeptWraps(b, byteMode);
    KeptBorrows(a - b - link, byteMode);
  }

  lemma StepIsExact(flags: Flags, op: Operation, a: Word, b: Word, byteMode: bool)
    requires a < Base(byteMode) && b < Base(byteMode) && !Reversed(op)
    ensures var r := ExecuteBinary(flags, op, a, b, byteMode);
            && ExactDigit(a, b, Link(flags, op), r.value, r.flags, Half(byteMode), Additive(op))
            && (r.flags.zero <==> r.value == 0 && (!WithCarry(op) || flags.zero))
  {
    hide DigitBase, LowDigit, ExactDigit, AddFlags, SubtractFlags, Kept;
    KeptWraps(a, byteMode);
    KeptWraps(b, byteMode);
    if Additive(op) {
      AddFlagsAreExact(flags, a, b, Link(flags, op), byteMode, WithCarry(op));
    } else {
      SubtractFlagsAreExact(flags, a, b, Link(flags, op), (a - b - Link(flags, op)) % 0x10000, byteMode, WithCarry(op));
    }
  }

  /** Only the bytes or words kept of the operands matter, and a reversed operation swaps them. */
  lemma ReversedSwaps(flags: Flags, op: Operation, a: Word, b: Word, byteMode: bool)
    ensures var first, second := Kept(a, byteMode), Kept(b, byteMode);
            var plain := if op == SubReversed then Sub else if op == SubBorrowReversed then SubBorrow else op;
            ExecuteBinary(flags, op, a, b, byteMode) == if Reversed(op) then ExecuteBinary(flags, plain, second, first, byteMode)
                                                        else ExecuteBinary(flags, plain, first, second, byteMode)
  {
    hide AddFlags, SubtractFlags, Kept;
    KeptWraps(Kept(a, byteMode), byteMode);
    KeptWraps(Kept(b, byteMode), byteMode);
  }

  /** A digit that is exact up to the carry is the result modulo the digits, and the carry tells which. */
  lemma WrappedExactly(a: nat, b: nat, link: nat, d: nat, flags: Flags, byteMode: bool, additive: bool)
    requires ExactDigit(a, b, link, d, flags, Half(byteMode), additive)
    requires a < Base(byteMode) && b < Base(byteMode) && link <= 1
    ensures var exact := if additive then a + b + link else a - b - link;
            && d == (if byteMode then exact % 0x100 else exact % 0x1_0000)
            && (flags.carry <==> if additive then exact >= Base(byteMode) else exact >= 0)
            && (flags.negative <==> d >= Half(byteMode))
  {
    hide InSignedRange, SignedDigits;
  }

  /** The exact whole number of an operation, the difference in either direction. */
  function Exact(op: Operation, first: int, second: int, carry: int): int {
    match op
    case Add => first + second
    case AddCarry => first + second + carry
    case Sub => first - second
    case SubBorrow => first - second - (1 - carry)
    case SubReversed => second - first
    case SubBorrowReversed => second - first - (1 - carry)
  }

  lemma LowDigitOfKept(value: Word, byteMode: bool)
    ensures LowDigit(Kept(value, byteMode), byteMode) == if byteMode then value % 0x10 else value % 0x100
  {
  }

  lemma PlainDigitCarry(flags: Flags, op: Operation, a: Word, b: Word, byteMode: bool)
    requires a < Base(byteMode) && b < Base(byteMode) && !Reversed(op)
    ensures var low, other := LowDigit(a, byteMode), LowDigit(b, byteMode) + Link(flags, op);
            (ExecuteBinary(flags, op, a, b, byteMode).flags.digitCarry
             <==> if Additive(op) then low + other >= DigitBase(byteMode) else low >= other)
  {
    hide LowDigit, DigitBase, Kept, Signed, InSignedRange;
    KeptWraps(a, byteMode);
    KeptWraps(b, byteMode);
  }

  /** The digit carry is the carry, or the missing borrow, of the low parts of the operands. */
  lemma DigitCarryIsExact(flags: Flags, op: Operation, a: Word, b: Word, byteMode: bool)
    ensures var digit := if byteMode then 0x10 else 0x100;
            var low, other := if byteMode then a % 0x10 else a % 0x100, if byteMode then b % 0x10 else b % 0x100;
            var exact := Exact(op, low, other, if flags.carry then 1 else 0);
            (ExecuteBinary(flags, op, a, b, byteMode).flags.digitCarry
             <==> if op == Add || op == AddCarry then exact >= digit else exact >= 0)
  {
    hide ExecuteBinary, LowDigit, Kept;
    ReversedSwaps(flags, op, a, b, byteMode);
    var first, second := Kept(a, byteMode), Kept(b, byteMode);
    var plain := if op == SubReversed then Sub else if op == SubBorrowReversed then SubBorrow else op;
    LowDigitOfKept(a, byteMode);
    LowDigitOfKept(b, byteMode);
    PlainDigitCarry(flags, plain, if Reversed(op) then second else first, if Reversed(op) then first else second, byteMode);
  }

  /**
  All six operations work on the bytes or words kept of the operands, with the carry or borrow of the
  operations that take one in.
  */
  lemma OperationIsExact(flags: Flags, op: Operation, a: Word, b: Word, byteMode: bool)
    ensures var r := ExecuteBinary(flags, op, a, b, byteMode);
            var first, second := if byteMode then a % 0x100 else a, if byteMode then b % 0x100 else b;
            var exact := Exact(op, first, second, if flags.carry then 1 else 0);
            && r.value == (if byteMode then exact % 0x100 else exact % 0x1_0000)
            && (r.flags.carry <==>
                if op == Add || op == AddCarry then exact >= (if byteMode then 0x100 else 0x1_0000) else exact >= 0)
            && (r.flags.negative <==> r.value >= if byteMode then 0x80 else 0x8000)
            && (r.flags.zero <==> r.value == 0 && (op == Add || op == Sub || op == SubReversed || flags.zero))
  {
    hide ExecuteBinary, ExactDigit, Kept;
    ReversedSwaps(flags, op, a, b, byteMode);
    KeptIs(a, byteMode);
    KeptIs(b, byteMode);
    var first, second := Kept(a, byteMode), Kept(b, byteMode);
    var plain := if op == SubReversed then Sub else if op == SubBorrowReversed then SubBorrow else op;
    var left, right := if Reversed(op) then second else first, if Reversed(op) then first else second;
    StepIsExact(flags, plain, left, right, byteMode);
    var r := ExecuteBinary(flags, plain, left, right, byteMode);
    WrappedExactly(left, right, Link(flags, plain), r.value, r.flags, byteMode, Additive(op));
  }

  /** The carry or borrow that an operation takes in. */
  function Link(flags: Flags, op: Operation): (link: nat)
    ensures link <= 1
  {
    if !WithCarry(op) then 0 else if flags.carry == Additive(op) then 1 else 0
  }

  lemma AtLeastOnce(k: int, p: nat)
    requires k >= 1
    ensures k * p >= p
  {
    assert k * p == (k - 1) * p + p;
  }

  /** A remainder below `p` does not move a multiple of `p` across another multiple. */
  lemma Threshold(low: int, t: int, h: int, p: nat)
    requires 0 <= low < p
    ensures Top(low, t, p) < h * p <==> t < h
  {
    assert (h - t) * p == h * p - t * p;
    assert (t - h) * p == t * p - h * p;
    if t < h {
      AtLeastOnce(h - t, p);
    } else if t > h {
      AtLeastOnce(t - h, p);
    }
  }

  lemma ValueGrows(xs: seq<Word>, d: Word, byteMode: bool)
    ensures Value(xs + [d], byteMode) == Top(Value(xs, byteMode), d, Scale(byteMode, |xs|))
  {
    assert (xs + [d])[..|xs|] == xs;
  }

  lemma {:induction false} ValueBelowScale(xs: seq<Word>, byteMode: bool)
    requires Digits(xs, byteMode)
    ensures Value(xs, byteMode) < Scale(byteMode, |xs|)
  {
    hide Base;
    if xs != [] {
      var last := |xs| - 1;
      ValueBelowScale(xs[..last], byteMode);
      Threshold(Value(xs[..last], byteMode), xs[last], Base(byteMode), Scale(byteMode, last));
    }
  }

  lemma SignedOfTopDigit(low: nat, a: nat, half: nat, p: nat)
    requires low < p
    ensures Signed(Top(low, a, p), half * p) == Top(low, Signed(a, half), p)
  {
    Threshold(low, a, half, p);
    assert (a - 2 * half) * p == a * p - 2 * (half * p);
  }

  lemma CombineDigits(a: int, b: int, link: int, p: int)
    ensures (a + b + link) * p == a * p + b * p + link * p
    ensures (a - b - link) * p == a * p - b * p - link * p
  {
  }

  /** How the numbers below the top digit and the top digit combine. */
  ghost predicate LowPart(x: nat, y: nat, z: nat, link: nat, p: nat, additive: bool) {
    x < p && y < p && z < p && (if additive then z + link * p == x + y else z - link * p == x - y)
  }

  /** The signed result of the whole numbers has the signed result of the top digits on top. */
  lemma SignedTop(x: nat, y: nat, z: nat, a: nat, b: nat, link: nat, half: nat, p: nat, additive: bool)
    requires LowPart(x, y, z, link, p, additive)
    ensures SignedDigits(Top(x, a, p), Top(y, b, p), 0, half * p, additive)
         == Top(z, SignedDigits(a, b, link, half, additive), p)
  {
    hide Signed;
    SignedOfTopDigit(x, a, half, p);
    SignedOfTopDigit(y, b, half, p);
    CombineDigits(Signed(a, half), Signed(b, half), link, p);
  }

  lemma RangeOfTop(low: nat, t: int, half: nat, p: nat)
    requires low < p
    ensures InSignedRange(Top(low, t, p), half * p) <==> InSignedRange(t, half)
    ensures Top(low, t, p) < 0 <==> t < 0
  {
    Threshold(low, t, half, p);
    Threshold(low, t, 0 - half, p);
    Threshold(low, t, 0, p);
    assert (0 - half) * p == 0 - half * p;
  }

  lemma TopsCombine(x: int, y: int, z: int, a: int, b: int, link: int, p: int)
    ensures z + link * p == x + y ==> Top(x, a, p) + Top(y, b, p) == Top(z, a + b + link, p)
    ensures z - link * p == x - y ==> Top(x, a, p) - Top(y, b, p) == Top(z, a - b - link, p)
  {
    CombineDigits(a, b, link, p);
  }

  lemma TopWraps(z: int, d: int, half: nat, p: nat)
    ensures Top(z, d + 2 * half, p) == Top(z, d, p) + 2 * Times(half, p)
    ensures Top(z, d - 2 * half, p) == Top(z, d, p) - 2 * Times(half, p)
  {
    assert (d + 2 * half) * p == d * p + 2 * (half * p);
    assert (d - 2 * half) * p == d * p - 2 * (half * p);
  }

  lemma UnsignedTop(x: nat, y: nat, z: nat, a: nat, b: nat, link: nat, d: nat, flags: Flags, half: nat, p: nat,
                    additive: bool)
    requires LowPart(x, y, z, link, p, additive) && ExactDigit(a, b, link, d, flags, half, additive)
    ensures additive ==> Top(z, d, p) + (if flags.carry then 2 * Times(half, p) else 0) == Top(x, a, p) + Top(y, b, p)
    ensures !additive ==> Top(z, d, p) - (if flags.carry then 0 else 2 * Times(half, p)) == Top(x, a, p) - Top(y, b, p)
  {
    hide ExactDigit, Top, Times;
    ExactDigitIsExact(a, b, link, d, flags, half, additive);
    TopsCombine(x, y, z, a, b, link, p);
    TopWraps(z, d, half, p);
  }

  lemma ExactDigitIsExact(a: nat, b: nat, link: nat, d: nat, flags: Flags, half: nat, additive: bool)
    requires ExactDigit(a, b, link, d, flags, half, additive)
    ensures additive ==> d + (if flags.carry then 2 * half else 0) == a + b + link
    ensures !additive ==> d - (if flags.carry then 0 else 2 * half) == a - b - link
    ensures d < 2 * half
  {
  }

  // ---------------------------------------------------------------------------------------
  // Chains
  // ---------------------------------------------------------------------------------------

  /** `z` is the exact result up to the carry, and the flags are right for numbers of this size. */
  ghost predicate ExactNumbers(x: int, y: int, z: int, scale: int, sign: int, flags: Flags, additive: bool) {
    && (if additive then z + (if flags.carry then scale else 0) == x + y
        else z - (if flags.carry then 0 else scale) == x - y)
    && (flags.negative <==> z >= sign)
    && (flags.overflow <==> !InSignedRange(SignedDigits(x, y, 0, sign, additive), sign))
    && (SignedDigits(x, y, 0, sign, additive) < 0 <==> flags.negative != flags.overflow)
  }

  ghost predicate ExactChain(xs: seq<Word>, ys: seq<Word>, c: Chain, byteMode: bool, additive: bool)
    requires |xs| == |ys| == |c.digits| > 0
  {
    && Digits(c.digits, byteMode)
    && (c.flags.zero <==> Value(c.digits, byteMode) == 0)
    && ExactNumbers(Value(xs, byteMode), Value(ys, byteMode), Value(c.digits, byteMode), Scale(byteMode, |xs|),
                    SignWeight(byteMode, |xs|), c.flags, additive)
  }

  lemma TopDigitExtends(x: nat, y: nat, z: nat, a: nat, b: nat, link: nat, d: nat, flags: Flags, half: nat, p: nat,
                        additive: bool)
    requires half > 0 && a < 2 * half && b < 2 * half && link <= 1
    requires LowPart(x, y, z, link, p, additive) && ExactDigit(a, b, link, d, flags, half, additive)
    ensures ExactNumbers(Top(x, a, p), Top(y, b, p), Top(z, d, p), 2 * Times(half, p), Times(half, p), flags, additive)
  {
    hide SignedDigits, InSignedRange, Top, ExactDigit;
    UnsignedTop(x, y, z, a, b, link, d, flags, half, p, additive);
    SignedTop(x, y, z, a, b, link, half, p, additive);
    RangeOfTop(z, SignedDigits(a, b, link, half, additive), half, p);
    Threshold(z, d, half, p);
    ExactDigitSigns(a, b, link, d, flags, half, additive);
    LowPartBound(x, y, z, link, p, additive);
    SignIsNegativeXorOverflow(a, b, link, d, flags, half, additive);
  }

  lemma ExactDigitSigns(a: nat, b: nat, link: nat, d: nat, flags: Flags, half: nat, additive: bool)
    requires ExactDigit(a, b, link, d, flags, half, additive)
    ensures flags.negative <==> d >= half
    ensures flags.overflow <==> !InSignedRange(SignedDigits(a, b, link, half, additive), half)
  {
  }

  lemma LowPartBound(x: nat, y: nat, z: nat, link: nat, p: nat, additive: bool)
    requires LowPart(x, y, z, link, p, additive)
    ensures z < p
  {
  }

  lemma ZeroOfTop(z: nat, d: nat, p: nat)
    requires p > 0
    ensures Top(z, d, p) == 0 <==> z == 0 && d == 0
  {
    if d > 0 {
      AtLeastOnce(d, p);
    }
  }

  /**
  ADD then ADDC on each further digit (or SUB then SUBB) computes the exact sum (difference) of
  numbers of any length, and leaves C, Z, N and OV as one wide operation would.
  */
  lemma {:induction false} ChainIsExact(flags: Flags, xs: seq<Word>, ys: seq<Word>, byteMode: bool, additive: bool)
    requires |xs| == |ys| > 0 && Digits(xs, byteMode) && Digits(ys, byteMode)
    ensures ExactChain(xs, ys, RunChain(flags, xs, ys, byteMode, additive), byteMode, additive)
  {
    hide ExecuteBinary, ExactDigit, ExactChain, Value, Scale, LowPart, Link;
    var last := |xs| - 1;
    var before := RunChain(flags, xs[..last], ys[..last], byteMode, additive);
    var op := OperationAt(last, additive);
    if last > 0 {
      ChainIsExact(flags, xs[..last], ys[..last], byteMode, additive);
    }
    PrefixIsLowPart(xs[..last], ys[..last], before, op, byteMode, additive);
    StepIsExact(before.flags, op, xs[last], ys[last], byteMode);
    ChainExtends(xs, ys, before, ExecuteBinary(before.flags, op, xs[last], ys[last], byteMode), op, byteMode, additive);
  }

  lemma PrefixIsLowPart(xs: seq<Word>, ys: seq<Word>, before: Chain, op: Operation, byteMode: bool, additive: bool)
    requires |xs| == |ys| == |before.digits| && Digits(xs, byteMode) && Digits(ys, byteMode)
    requires op == OperationAt(|xs|, additive)
    requires xs != [] ==> ExactChain(xs, ys, before, byteMode, additive)
    ensures Digits(before.digits, byteMode)
    ensures LowPart(Value(xs, byteMode), Value(ys, byteMode), Value(before.digits, byteMode), Link(before.flags, op),
                    Scale(byteMode, |xs|), additive)
    ensures WithCarry(op) ==> (before.flags.zero <==> Value(before.digits, byteMode) == 0)
    ensures !WithCarry(op) ==> Value(before.digits, byteMode) == 0
  {
    hide Scale, SignedDigits, InSignedRange;
    ValueBelowScale(xs, byteMode);
    ValueBelowScale(ys, byteMode);
    ValueBelowScale(before.digits, byteMode);
  }

  lemma ChainExtends(xs: seq<Word>, ys: seq<Word>, before: Chain, r: Result, op: Operation, byteMode: bool, additive: bool)
    requires |xs| == |ys| == |before.digits| + 1 && Digits(xs, byteMode) && Digits(ys, byteMode)
    requires Digits(before.digits, byteMode) && op == OperationAt(|xs| - 1, additive)
    requires LowPart(Value(xs[..|xs| - 1], byteMode), Value(ys[..|xs| - 1], byteMode), Value(before.digits, byteMode),
                     Link(before.flags, op), Scale(byteMode, |xs| - 1), additive)
    requires WithCarry(op) ==> (before.flags.zero <==> Value(before.digits, byteMode) == 0)
    requires !WithCarry(op) ==> Value(before.digits, byteMode) == 0
    requires ExactDigit(xs[|xs| - 1], ys[|xs| - 1], Link(before.flags, op), r.value, r.flags, Half(byteMode), additive)
    requires r.flags.zero <==> r.value == 0 && (!WithCarry(op) || before.flags.zero)
    ensures ExactChain(xs, ys, Chain(before.digits + [r.value], r.flags), byteMode, additive)
  {
    hide LowPart, ExactNumbers, ExactDigit, Link, Top, Times, Scale, Value;
    var last := |xs| - 1;
    var x, y, z := Value(xs[..last], byteMode), Value(ys[..last], byteMode), Value(before.digits, byteMode);
    var d, p, half := r.value, Scale(byteMode, last), Half(byteMode);
    ValueGrows(xs[..last], xs[last], byteMode);
    ValueGrows(ys[..last], ys[last], byteMode);
    ValueGrows(before.digits, d, byteMode);
    assert xs == xs[..last] + [xs[last]] && ys == ys[..last] + [ys[last]];
    TopDigitExtends(x, y, z, xs[last], ys[last], Link(before.flags, op), d, r.flags, half, p, additive);
    ZeroOfTop(z, d, p);
    ScaleIsTwiceSignWeight(byteMode, |xs|);
    ExactDigitIsExact(xs[last], ys[last], Link(before.flags, op), d, r.flags, half, additive);
  }

  // ---------------------------------------------------------------------------------------
  // Comparisons and branches
  // ---------------------------------------------------------------------------------------

  /** A chain of comparisons leaves the flags of the chain of subtractions. */
  lemma {:induction false} CompareLikeSubtract(flags: Flags, xs: seq<Word>, ys: seq<Word>, byteMode: bool)
    requires |xs| == |ys|
    ensures CompareChain(flags, xs, ys, byteMode) == RunChain(flags, xs, ys, byteMode, false).flags
  {
    hide Kept, SubtractFlags;
    if xs != [] {
      CompareLikeSubtract(flags, xs[..|xs| - 1], ys[..|ys| - 1], byteMode);
    }
  }

  lemma BranchesOnNumbers(x: nat, y: nat, z: nat, sign: nat, flags: Flags)
    requires x < 2 * sign && y < 2 * sign && z < 2 * sign
    requires ExactNumbers(x, y, z, 2 * sign, sign, flags, false) && (flags.zero <==> z == 0)
    ensures flags.carry <==> x >= y
    ensures flags.zero <==> x == y
    ensures flags.negative != flags.overflow <==> Signed(x, sign) < Signed(y, sign)
    ensures flags.zero <==> Signed(x, sign) == Signed(y, sign)
  {
  }

  /**
  After CP and then CPB on each further digit, every ordering branch decides the comparison of the
  whole numbers: GEU, LTU, LEU, GTU the unsigned one, LT, GE, LE, GT the signed one, Z and NZ equality.
  */
  lemma BranchesDecideComparison(flags: Flags, xs: seq<Word>, ys: seq<Word>, byteMode: bool)
    requires |xs| == |ys| > 0 && Digits(xs, byteMode) && Digits(ys, byteMode)
    ensures var after := CompareChain(flags, xs, ys, byteMode);
            var x, y := Value(xs, byteMode), Value(ys, byteMode);
            && BranchCondition(after, 1) == Some(x >= y) && BranchCondition(after, 9) == Some(x < y)
            && BranchCondition(after, 6) == Some(x <= y) && BranchCondition(after, 14) == Some(x > y)
            && BranchCondition(after, 2) == Some(x == y) && BranchCondition(after, 10) == Some(x != y)
    ensures var after := CompareChain(flags, xs, ys, byteMode);
            var x, y := SignedValue(xs, byteMode), SignedValue(ys, byteMode);
            && BranchCondition(after, 5) == Some(x < y) && BranchCondition(after, 13) == Some(x >= y)
            && BranchCondition(after, 4) == Some(x <= y) && BranchCondition(after, 12) == Some(x > y)
  {
    hide ExactNumbers, CompareChain, RunChain, Signed, Digits, Value;
    CompareLikeSubtract(flags, xs, ys, byteMode);
    var c := RunChain(flags, xs, ys, byteMode, false);
    ChainIsExact(flags, xs, ys, byteMode, false);
    ValueBelowScale(xs, byteMode);
    ValueBelowScale(ys, byteMode);
    ValueBelowScale(c.digits, byteMode);
    ScaleIsTwiceSignWeight(byteMode, |xs|);
    BranchesOnNumbers(Value(xs, byteMode), Value(ys, byteMode), Value(c.digits, byteMode), SignWeight(byteMode, |xs|),
                      c.flags);
  }

  // ---------------------------------------------------------------------------------------
  // The status register
  // ---------------------------------------------------------------------------------------

  class Alu {
    var carry: bool
    var zero: bool
    var overflow: bool
    var negative: bool
    var digitCarry: bool

    function Status(): Flags
      reads this
    {
      Flags(carry, zero, overflow, negative, digitCarry)
    }

    method UpdateAddFlags(left: Word, right: Word, carryIn: nat, result: nat, byteMode: bool, stickyZero: bool)
      modifies this
      ensures Status() == AddFlags(old(Status()), left, right, carryIn, result, byteMode, stickyZero)
    {
      var value := Kept(result, byteMode);
      var half := Half(byteMode);
      var signedResult := Signed(Kept(left, byteMode), half) + Signed(Kept(right, byteMode), half) + carryIn;
      var previousZero := zero;
      carry, zero, overflow, negative, digitCarry := false, false, false, false, false;
      if value == 0 && (!stickyZero || previousZero) {
        zero := true;
      }
      if value >= half {
        negative := true;
      }
      if result > Base(byteMode) - 1 {
        carry := true;
      }
      if LowDigit(left, byteMode) + LowDigit(right, byteMode) + carryIn > DigitBase(byteMode) - 1 {
        digitCarry := true;
      }
      if !InSignedRange(signedResult, half) {
        overflow := true;
      }
    }

    method UpdateSubtractFlags(left: Word, right: Word, borrow: nat, value: Word, byteMode: bool, stickyZero: bool)
      modifies this
      ensures Status() == SubtractFlags(old(Status()), left, right, borrow, value, byteMode, stickyZero)
    {
      var subtraction := Kept(right, byteMode) + borrow;
      var half := Half(byteMode);
      var signedResult := Signed(Kept(left, byteMode), half) - Signed(Kept(right, byteMode), half) - borrow;
      var previousZero := zero;
      carry, zero, overflow, negative, digitCarry := false, false, false, false, false;
      if Kept(value, byteMode) == 0 && (!stickyZero || previousZero) {
        zero := true;
      }
      if Kept(value, byteMode) >= half {
        negative := true;
      }
      if Kept(left, byteMode) >= subtraction {
        carry := true;
      }
      if LowDigit(left, byteMode) >= LowDigit(right, byteMode) + borrow {
        digitCarry := true;
      }
      if !InSignedRange(signedResult, half) {
        overflow := true;
      }
    }

    method Binary(op: Operation, left: Word, right: Word, byteMode: bool) returns (value: Word)
      modifies this
      ensures Result(value, Status()) == ExecuteBinary(old(Status()), op, left, right, byteMode)
    {
      hide Kept, AddFlags, SubtractFlags;
      var first: int, second: int := Kept(left, byteMode), Kept(right, byteMode);
      if Additive(op) {
        var carryIn := if WithCarry(op) && carry then 1 else 0;
        var result := first + second + carryIn;
        value := Kept(result, byteMode);
        UpdateAddFlags(first, second, carryIn, result, byteMode, WithCarry(op));
      } else {
        var borrow := if WithCarry(op) && !carry then 1 else 0;
        if Reversed(op) {
          first, second := second, first;
        }
        var result := (first - second - borrow) % 0x10000;
        value := Kept(result, byteMode);
        UpdateSubtractFlags(first, second, borrow, result, byteMode, WithCarry(op));
      }
    }

    method Compare(left: Word, right: Word, byteMode: bool, withBorrow: bool)
      modifies this
      ensures Status() == ExecuteCompare(old(Status()), left, right, byteMode, withBorrow)
    {
      hide Kept, SubtractFlags;
      var borrow := if withBorrow && !carry then 1 else 0;
      var first: int, second: int := Kept(left, byteMode), Kept(right, byteMode);
      UpdateSubtractFlags(first, second, borrow, (first - second - borrow) % 0x10000, byteMode, withBorrow);
    }
  }
}
