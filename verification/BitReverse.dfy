/**
Bit-reversed addressing: the carry of the address adder runs from bit 15 down to bit 1. A machine
word is the set of the positions of its one bits.
*/
module BitReverse {
  import Division

  type Word = set<nat>

  const TOP: nat := 15

  function Power(n: nat): (p: nat)
    ensures p > 0
  {
    if n == 0 then 1 else 2 * Power(n - 1)
  }

  function Bit(w: Word, i: nat): (b: nat)
    ensures b <= 1
  {
    if i in w then 1 else 0
  }

  /** The number whose binary digits, lowest first, are the `n` bits of `w` from bit `high` down. */
  function Reflected(w: Word, high: nat, n: nat): (v: nat)
    requires n <= high + 1
    ensures v < Power(n)
  {
    if n == 0 then 0 else Reflected(w, high, n - 1) + if high + 1 - n in w then Power(n - 1) else 0
  }

  /** The `n` bits from bit `high` down whose reflected number is `v`. */
  function Unreflected(v: nat, high: nat, n: nat): (w: Word)
    requires n <= high + 1 && v < Power(n)
    ensures forall i :: i in w ==> high + 1 - n <= i <= high
  {
    if n == 0 then {}
    else if v >= Power(n - 1) then Unreflected(v - Power(n - 1), high, n - 1) + {high + 1 - n}
    else Unreflected(v, high, n - 1)
  }

  /** The number whose binary digits, lowest first, are the `n` bits of `w` from bit `low` up. */
  function Field(w: Word, low: nat, n: nat): nat {
    if n == 0 then 0 else Field(w, low, n - 1) + if low + n - 1 in w then Power(n - 1) else 0
  }

  function Address(w: Word): nat {
    Field(w, 0, TOP + 1)
  }

  lemma {:induction false} PowerAdds(a: nat, b: nat)
    ensures Power(a + b) == Power(a) * Power(b)
  {
    if a > 0 {
      PowerAdds(a - 1, b);
    }
  }

  lemma {:induction false} ReflectedDependsOnBits(w: Word, v: Word, high: nat, n: nat)
    requires n <= high + 1
    requires forall i: nat :: high + 1 - n <= i <= high ==> (i in w <==> i in v)
    ensures Reflected(w, high, n) == Reflected(v, high, n)
  {
    if n > 0 {
      ReflectedDependsOnBits(w, v, high, n - 1);
    }
  }

  lemma {:induction false} ReflectedUnreflected(v: nat, high: nat, n: nat)
    requires n <= high + 1 && v < Power(n)
    ensures Reflected(Unreflected(v, high, n), high, n) == v
  {
    if n > 0 {
      var rest := if v >= Power(n - 1) then v - Power(n - 1) else v;
      ReflectedUnreflected(rest, high, n - 1);
      ReflectedDependsOnBits(Unreflected(v, high, n), Unreflected(rest, high, n - 1), high, n - 1);
    }
  }

  lemma {:induction false} UnreflectedReflected(w: Word, high: nat, n: nat)
    requires n <= high + 1
    ensures forall i: nat :: high + 1 - n <= i <= high ==> (i in Unreflected(Reflected(w, high, n), high, n) <==> i in w)
  {
    if n > 0 {
      UnreflectedReflected(w, high, n - 1);
    }
  }

  /** Equal reflections have equal bits. */
  lemma ReflectedIsInjective(w: Word, v: Word, high: nat, n: nat)
    requires n <= high + 1 && Reflected(w, high, n) == Reflected(v, high, n)
    ensures forall i: nat :: high + 1 - n <= i <= high ==> (i in w <==> i in v)
  {
    UnreflectedReflected(w, high, n);
    UnreflectedReflected(v, high, n);
  }

  lemma ReflectedGrows(w: Word, high: nat, n: nat)
    requires n <= high + 1
    ensures Reflected(w, high, n) == if n == 0 then 0
                                     else Reflected(w, high, n - 1) + if high + 1 - n in w then Power(n - 1) else 0
  {
  }

  lemma {:induction false} ReflectedSplits(w: Word, high: nat, a: nat, b: nat)
    requires a <= high && a + b <= high + 1
    ensures Reflected(w, high, a + b) == Reflected(w, high, a) + Reflected(w, high - a, b) * Power(a)
  {
    hide Power, Reflected;
    ReflectedGrows(w, high - a, b);
    if b > 0 {
      ReflectedSplits(w, high, a, b - 1);
      ReflectedGrows(w, high, a + b);
      PowerAdds(b - 1, a);
      Division.Distributes(Reflected(w, high - a, b - 1), Power(b - 1), Power(a));
    }
  }

  // ---------------------------------------------------------------------------------------
  // The address adder
  // ---------------------------------------------------------------------------------------

  /** The addend: the register shifted left once, which drops its enable bit. */
  function Modifier(xbrev: Word): Word {
    set i | i in xbrev && i < TOP :: i + 1
  }

  /** Addition conjugated by the reversal of bits 15 to 1; bit 0 of the address is kept. */
  function ReverseSum(address: Word, modifier: Word): Word {
    Unreflected((Reflected(address, TOP, TOP) + Reflected(modifier, TOP, TOP)) % Power(TOP), TOP, TOP) + address * {0}
  }

  function Weighted(carry: nat, n: nat): nat {
    if carry == 0 then 0 else Power(n)
  }

  /** One turn of the adder: the sum bit goes to the result, the next carry has twice its weight. */
  lemma BitJoinsSum(address: Word, modifier: Word, before: Word, after: Word, bit: nat, carry: nat)
    requires 1 <= bit <= TOP && carry <= 1 && bit !in before
    requires after == if (Bit(address, bit) + Bit(modifier, bit) + carry) % 2 == 1 then before + {bit} else before
    requires Reflected(address, TOP, TOP - bit) + Reflected(modifier, TOP, TOP - bit)
          == Reflected(before, TOP, TOP - bit) + Weighted(carry, TOP - bit)
    ensures Reflected(address, TOP, TOP + 1 - bit) + Reflected(modifier, TOP, TOP + 1 - bit)
         == Reflected(after, TOP, TOP + 1 - bit)
          + Weighted((Bit(address, bit) + Bit(modifier, bit) + carry) / 2, TOP + 1 - bit)
  {
    ReflectedDependsOnBits(before, after, TOP, TOP - bit);
    assert Power(TOP + 1 - bit) == 2 * Power(TOP - bit);
  }

  lemma ResultIsReverseSum(address: Word, modifier: Word, result: Word, carry: nat)
    requires forall i :: i in result ==> 0 <= i <= TOP
    requires 0 in result <==> 0 in address
    requires Reflected(address, TOP, TOP) + Reflected(modifier, TOP, TOP) == Reflected(result, TOP, TOP) + Weighted(carry, TOP)
    ensures result == ReverseSum(address, modifier)
  {
    hide Reflected, Power;
    var total := Reflected(address, TOP, TOP) + Reflected(modifier, TOP, TOP);
    Division.Unique(total, Power(TOP), if carry == 0 then 0 else 1, Reflected(result, TOP, TOP));
    UnreflectedReflected(result, TOP, TOP);
    assert forall i: nat :: i in result <==> i in ReverseSum(address, modifier);
  }

  method BitReversedAddress(xbrev: Word, address: Word) returns (result: Word)
    ensures result == ReverseSum(address, Modifier(xbrev))
  {
    hide Power;
    var modifier := Modifier(xbrev);
    result := address * {0};
    var carry := 0;
    for bit := TOP + 1 downto 1
      invariant 0 <= carry <= 1
      invariant forall i :: i in result ==> i == 0 || bit <= i <= TOP
      invariant 0 in result <==> 0 in address
      invariant Reflected(address, TOP, TOP + 1 - bit) + Reflected(modifier, TOP, TOP + 1 - bit)
             == Reflected(result, TOP, TOP + 1 - bit) + Weighted(carry, TOP + 1 - bit)
    {
      ghost var before := result;
      var sum := Bit(address, bit) + Bit(modifier, bit) + carry;
      if sum % 2 == 1 {
        result := result + {bit};
      }
      BitJoinsSum(address, modifier, before, result, bit, carry);
      carry := sum / 2;
    }
    ResultIsReverseSum(address, modifier, result, carry);
  }

  // ---------------------------------------------------------------------------------------
  // Runs
  // ---------------------------------------------------------------------------------------

  /** The register after `steps` bit-reversed updates. */
  function Stepped(base: Word, xbrev: Word, steps: nat): Word {
    if steps == 0 then base else ReverseSum(Stepped(base, xbrev, steps - 1), Modifier(xbrev))
  }

  lemma ReverseSumReflects(address: Word, modifier: Word)
    ensures Reflected(ReverseSum(address, modifier), TOP, TOP)
         == (Reflected(address, TOP, TOP) + Reflected(modifier, TOP, TOP)) % Power(TOP)
    ensures 0 in ReverseSum(address, modifier) <==> 0 in address
  {
    var v := (Reflected(address, TOP, TOP) + Reflected(modifier, TOP, TOP)) % Power(TOP);
    ReflectedUnreflected(v, TOP, TOP);
    ReflectedDependsOnBits(ReverseSum(address, modifier), Unreflected(v, TOP, TOP), TOP, TOP);
  }

  function Advanced(start: nat, amount: nat, steps: nat): nat {
    (start + steps * amount) % Power(TOP)
  }

  lemma AdvancedStarts(start: nat, amount: nat)
    requires start < Power(TOP)
    ensures Advanced(start, amount, 0) == start
  {
    hide Power;
    Division.Unique(start, Power(TOP), 0, start);
  }

  lemma AdvancedSteps(start: nat, amount: nat, steps: nat)
    requires steps > 0
    ensures (Advanced(start, amount, steps - 1) + amount) % Power(TOP) == Advanced(start, amount, steps)
  {
    hide Power;
    Division.StepModulo(start, amount, steps, Power(TOP));
  }

  /** For any modifier, a run advances the reflected address by the reflected modifier each step. */
  lemma {:induction false} RunAddsReflections(base: Word, xbrev: Word, steps: nat)
    ensures Reflected(Stepped(base, xbrev, steps), TOP, TOP)
         == Advanced(Reflected(base, TOP, TOP), Reflected(Modifier(xbrev), TOP, TOP), steps)
    ensures 0 in Stepped(base, xbrev, steps) <==> 0 in base
  {
    hide ReverseSum, Reflected, Modifier, Power, Advanced;
    var b, m := Reflected(base, TOP, TOP), Reflected(Modifier(xbrev), TOP, TOP);
    if steps == 0 {
      AdvancedStarts(b, m);
    } else {
      RunAddsReflections(base, xbrev, steps - 1);
      ReverseSumReflects(Stepped(base, xbrev, steps - 1), Modifier(xbrev));
      AdvancedSteps(b, m, steps);
    }
  }

  // ---------------------------------------------------------------------------------------
  // Power-of-two buffers
  // ---------------------------------------------------------------------------------------

  /** The `n` binary digits of `i` in the opposite order. */
  function Reversal(n: nat, i: nat): (v: nat)
    ensures v < Power(n)
  {
    if n == 0 then 0 else (if i % 2 == 1 then Power(n - 1) else 0) + Reversal(n - 1, i / 2)
  }

  lemma {:induction false} ReversalFromTop(n: nat, top: bool, rest: nat)
    requires n > 0 && rest < Power(n - 1)
    ensures Reversal(n, (if top then Power(n - 1) else 0) + rest) == (if top then 1 else 0) + 2 * Reversal(n - 1, rest)
  {
    if n > 1 {
      ReversalFromTop(n - 1, top, rest / 2);
      var all := (if top then Power(n - 1) else 0) + rest;
      assert all % 2 == rest % 2 && all / 2 == (if top then Power(n - 2) else 0) + rest / 2;
    }
  }

  lemma {:induction false} ReversalIsInvolution(n: nat, i: nat)
    requires i < Power(n)
    ensures Reversal(n, Reversal(n, i)) == i
  {
    if n > 0 {
      ReversalIsInvolution(n - 1, i / 2);
      ReversalFromTop(n, i % 2 == 1, Reversal(n - 1, i / 2));
    }
  }

  lemma FieldGrows(w: Word, low: nat, n: nat)
    ensures Field(w, low, n) == if n == 0 then 0 else Field(w, low, n - 1) + if low + n - 1 in w then Power(n - 1) else 0
  {
  }

  lemma {:induction false} FieldAdds(w: Word, low: nat, a: nat, b: nat)
    ensures Field(w, low, a + b) == Field(w, low, a) + Field(w, low + a, b) * Power(a)
  {
    hide Power, Field;
    FieldGrows(w, low + a, b);
    if b > 0 {
      FieldAdds(w, low, a, b - 1);
      FieldGrows(w, low, a + b);
      PowerAdds(b - 1, a);
      Division.Distributes(Field(w, low + a, b - 1), Power(b - 1), Power(a));
    }
  }

  lemma {:induction false} FieldDependsOnBits(w: Word, v: Word, low: nat, n: nat)
    requires forall i: nat :: low <= i < low + n ==> (i in w <==> i in v)
    ensures Field(w, low, n) == Field(v, low, n)
  {
    if n > 0 {
      FieldDependsOnBits(w, v, low, n - 1);
    }
  }

  lemma {:induction false} FieldIsReversal(w: Word, n: nat)
    ensures Field(w, 1, n) == Reversal(n, Reflected(w, n, n))
  {
    hide Power, Reflected, Field;
    FieldGrows(w, 1, n);
    if n > 0 {
      FieldIsReversal(w, n - 1);
      ReflectedSplits(w, n, 1, n - 1);
      ReflectedOfOne(w, n);
      ReversalOfDigits(n, Bit(w, n), Reflected(w, n - 1, n - 1));
    }
  }

  lemma ReversalOfDigits(n: nat, lowest: nat, rest: nat)
    requires n > 0 && lowest <= 1
    ensures Reversal(n, lowest + rest * 2) == (if lowest == 1 then Power(n - 1) else 0) + Reversal(n - 1, rest)
  {
    hide Power;
    assert (lowest + rest * 2) % 2 == lowest && (lowest + rest * 2) / 2 == rest;
  }

  lemma ReflectedOfOne(w: Word, high: nat)
    ensures Reflected(w, high, 1) == Bit(w, high) && Power(1) == 2
  {
    assert Reflected(w, high, 0) == 0;
  }

  /** `base` starts a buffer of 2^n words: its word address is a multiple of the buffer's size. */
  predicate Aligned(base: Word, n: nat) {
    forall i :: i in base ==> i == 0 || n < i <= TOP
  }

  /** The setting for a buffer of 2^n words: half the buffer's size, in words. */
  predicate SetForBuffer(xbrev: Word, n: nat) {
    1 <= n <= TOP && Modifier(xbrev) == {n}
  }

  lemma {:induction false} NothingReflected(w: Word, high: nat, n: nat)
    requires n <= high + 1 && forall i: nat :: high + 1 - n <= i <= high ==> i !in w
    ensures Reflected(w, high, n) == 0
  {
    if n > 0 {
      NothingReflected(w, high, n - 1);
    }
  }

  lemma {:induction false} BufferModifierReflects(k: nat, n: nat)
    requires k <= TOP && n <= TOP
    ensures Reflected({k}, TOP, n) == if n <= TOP - k then 0 else Power(TOP - k)
  {
    if n > 0 {
      BufferModifierReflects(k, n - 1);
    }
  }

  lemma StepsSplit(q: nat, r: nat, low: nat, high: nat)
    requires r < high
    ensures (q * high + r) * low == q * (low * high) + r * low
    ensures r * low + low <= low * high
  {
    Division.Distributes(q * high, r, low);
    Division.Associates(q, high, low);
    Division.Distributes(r, 1, low);
    Division.Monotone(r + 1, high, low);
  }

  lemma OffsetModulo(start: nat, low: nat, high: nat, q: nat, r: nat)
    requires start < low && r < high
    ensures low * high > 0 && (start + (q * high + r) * low) % (low * high) == start + r * low
  {
    StepsSplit(q, r, low, high);
    Division.Unique(start + (q * high + r) * low, low * high, q, start + r * low);
  }

  lemma DigitsAreUnique(low: nat, start: nat, r: nat, kept: nat, moved: nat)
    requires start < low && kept < low && kept + moved * low == start + r * low
    ensures kept == start && moved == r
  {
    Division.Unique(start + r * low, low, r, start);
    Division.Unique(start + r * low, low, moved, kept);
  }

  lemma BufferArithmetic(start: nat, low: nat, high: nat, steps: nat, kept: nat, moved: nat)
    requires start < low && high > 0 && kept < low && moved < high && low * high > 0
    requires kept + moved * low == (start + steps * low) % (low * high)
    ensures kept == start && moved == steps % high
  {
    assert steps == steps / high * high + steps % high;
    OffsetModulo(start, low, high, steps / high, steps % high);
    DigitsAreUnique(low, start, steps % high, kept, moved);
  }

  /** Inside the buffer, the bits above it stay and the reflected offset counts the steps. */
  lemma RunCountsOffsets(base: Word, xbrev: Word, n: nat, steps: nat)
    requires SetForBuffer(xbrev, n) && Aligned(base, n)
    ensures Reflected(Stepped(base, xbrev, steps), TOP, TOP - n) == Reflected(base, TOP, TOP - n)
    ensures Reflected(Stepped(base, xbrev, steps), n, n) == steps % Power(n)
  {
    hide Reflected, Power, Stepped, Modifier;
    var now := Stepped(base, xbrev, steps);
    RunAddsReflections(base, xbrev, steps);
    BufferModifierReflects(n, TOP);
    ReflectedSplits(base, TOP, TOP - n, n);
    NothingReflected(base, n, n);
    ReflectedSplits(now, TOP, TOP - n, n);
    PowerAdds(TOP - n, n);
    BufferArithmetic(Reflected(base, TOP, TOP - n), Power(TOP - n), Power(n), steps,
                     Reflected(now, TOP, TOP - n), Reflected(now, n, n));
  }

  lemma AddressInBuffer(base: Word, now: Word, n: nat)
    requires 1 <= n <= TOP && Aligned(base, n) && (0 in now <==> 0 in base)
    requires Reflected(now, TOP, TOP - n) == Reflected(base, TOP, TOP - n)
    ensures Address(now) == Address(base) + 2 * Field(now, 1, n)
  {
    hide Reflected, Field, Power;
    ReflectedIsInjective(now, base, TOP, TOP - n);
    FieldDependsOnBits(now, base, 0, 1);
    FieldDependsOnBits(now, base, 1 + n, TOP - n);
    FieldDependsOnBits(base, {}, 1, n);
    EmptyField(1, n);
    SplitAddress(now, n);
    SplitAddress(base, n);
  }

  lemma {:induction false} EmptyField(low: nat, n: nat)
    ensures Field({}, low, n) == 0
  {
    if n > 0 {
      EmptyField(low, n - 1);
    }
  }

  lemma SplitAddress(w: Word, n: nat)
    requires n <= TOP
    ensures Address(w) == Field(w, 0, 1) + 2 * (Field(w, 1, n) + Field(w, 1 + n, TOP - n) * Power(n))
  {
    hide Field;
    FieldAdds(w, 0, 1, TOP);
    FieldAdds(w, 1, n, TOP - n);
    assert Power(1) == 2 * Power(0);
  }

  /**
  Stepping through an aligned buffer of 2^n words: after any number of steps the register holds the
  buffer's base plus twice the bit-reversed step count, so it never leaves the buffer.
  */
  lemma RunWalksBuffer(base: Word, xbrev: Word, n: nat, steps: nat)
    requires SetForBuffer(xbrev, n) && Aligned(base, n)
    ensures Address(Stepped(base, xbrev, steps)) == Address(base) + 2 * Reversal(n, steps % Power(n))
  {
    hide Reflected, Field, Power, Stepped, Modifier, Address, Reversal;
    RunCountsOffsets(base, xbrev, n, steps);
    RunAddsReflections(base, xbrev, steps);
    AddressInBuffer(base, Stepped(base, xbrev, steps), n);
    FieldIsReversal(Stepped(base, xbrev, steps), n);
  }

  /** Each word of the buffer is reached in one of the first 2^n steps, and in only one. */
  lemma EveryWordOnce(base: Word, xbrev: Word, n: nat, offset: nat)
    requires SetForBuffer(xbrev, n) && Aligned(base, n) && offset < Power(n)
    ensures forall steps: nat :: steps < Power(n) ==>
              (Address(Stepped(base, xbrev, steps)) == Address(base) + 2 * offset <==> steps == Reversal(n, offset))
  {
    hide Power, Stepped, Address, Reversal;
    forall steps: nat | steps < Power(n)
      ensures Address(Stepped(base, xbrev, steps)) == Address(base) + 2 * offset <==> steps == Reversal(n, offset)
    {
      RunWalksBuffer(base, xbrev, n, steps);
      Division.Unique(steps, Power(n), 0, steps);
      ReversalIsInvolution(n, steps);
      ReversalIsInvolution(n, offset);
    }
  }

  /** The register is back at the base after exactly every 2^n steps. */
  lemma RunReturns(base: Word, xbrev: Word, n: nat, steps: nat)
    requires SetForBuffer(xbrev, n) && Aligned(base, n)
    ensures Stepped(base, xbrev, steps) == base <==> steps % Power(n) == 0
  {
    hide Reflected, Power, Modifier;
    var now := Stepped(base, xbrev, steps);
    RunCountsOffsets(base, xbrev, n, steps);
    NothingReflected(base, n, n);
    if steps % Power(n) == 0 {
      RunAddsReflections(base, xbrev, steps);
      ReflectedIsInjective(now, base, TOP, TOP - n);
      ReflectedIsInjective(now, base, n, n);
      assert forall i: nat :: i in now <==> i in base;
    }
  }
}
