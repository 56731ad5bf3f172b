/**
The two 40-bit accumulators of the DSP engine: saturation, the overflow and the sticky saturation
status, and what a run of accumulator instructions says about the exact integer results.
*/
module Accumulator {
  import Division

  type Word = x: nat | x < 0x10000

  const MINIMUM: int := -0x80_0000_0000
  const MAXIMUM: int := 0x7f_ffff_ffff
  const MINIMUM_32: int := -0x8000_0000
  const MAXIMUM_32: int := 0x7fff_ffff
  const RANGE: nat := 0x100_0000_0000

  datatype Control = Control(saturate: seq<bool>, superSaturation: bool, integer: bool, signMode: nat)

  ghost predicate ValidControl(c: Control) {
    |c.saturate| == 2 && c.signMode < 3
  }

  datatype Cell = Cell(value: int, overflow: bool, saturated: bool)

  datatype State = State(cells: seq<Cell>, anyOverflow: bool, anySaturated: bool)

  /**
  An accumulator instruction on accumulator `target`: multiply into it (added, or replacing it),
  add both, negate, subtract the other, add or load a number (a shifted word, or the square of a
  distance), or clear.
  */
  datatype Operation =
    | Multiply(target: nat, left: Word, leftEven: bool, right: Word, rightEven: bool, subtract: bool, replace: bool)
    | AddBoth(target: nat)
    | Negate(target: nat)
    | SubtractOther(target: nat)
    | Number(target: nat, number: int, replace: bool)
    | Clear(target: nat)

  /** Sign mode 1 reads every operand as unsigned, mode 2 those in even registers, mode 0 none. */
  function Operand(value: Word, even: bool, signMode: nat): int {
    if signMode == 1 || (signMode == 2 && even) || value < 0x8000 then value else value - 0x10000
  }

  /** The product is doubled in fractional mode. */
  function Product(c: Control, op: Operation): int
    requires op.Multiply?
  {
    var product := Operand(op.left, op.leftEven, c.signMode) * Operand(op.right, op.rightEven, c.signMode);
    var scaled := if c.integer then product else 2 * product;
    if op.subtract then -scaled else scaled
  }

  /** What the instruction computes before saturation, from the values `v` of the accumulators. */
  function Computed(c: Control, v: seq<int>, op: Operation): int
    requires |v| == 2 && op.target < 2
  {
    match op
    case Multiply(t, _, _, _, _, _, replace) => if replace then Product(c, op) else v[t] + Product(c, op)
    case AddBoth(_) => v[0] + v[1]
    case Negate(t) => -v[t]
    case SubtractOther(t) => v[t] - v[1 - t]
    case Number(t, n, replace) => if replace then n else v[t] + n
    case Clear(_) => 0
  }

  /** The two's complement reading of the low forty bits. */
  function AccumulatorValue(result: int): (v: int)
    ensures MINIMUM <= v <= MAXIMUM
  {
    var bits := result % RANGE;
    if bits > MAXIMUM then bits - RANGE else bits
  }

  /** The saturated result, and whether saturation or a 40-bit overflow occurred. */
  function Saturate(c: Control, target: nat, result: int): (int, bool)
    requires |c.saturate| == 2 && target < 2
  {
    var minimum := if c.superSaturation then MINIMUM else MINIMUM_32;
    var maximum := if c.superSaturation then MAXIMUM else MAXIMUM_32;
    if c.saturate[target] && result < minimum then (minimum, true)
    else if c.saturate[target] && result > maximum then (maximum, true)
    else (result, result < MINIMUM || result > MAXIMUM)
  }

  function Combined(cells: seq<Cell>): State
    requires |cells| == 2
  {
    State(cells, cells[0].overflow || cells[1].overflow, cells[0].saturated || cells[1].saturated)
  }

  function ApplyResult(c: Control, s: State, target: nat, result: int): State
    requires ValidControl(c) && |s.cells| == 2 && target < 2
  {
    var (kept, status) := Saturate(c, target, result);
    var value := AccumulatorValue(kept);
    var overflow := value < MINIMUM_32 || value > MAXIMUM_32;
    Combined(s.cells[target := Cell(value, overflow, s.cells[target].saturated || status)])
  }

  function Values(s: State): (v: seq<int>)
    ensures |v| == |s.cells|
  {
    seq(|s.cells|, i requires 0 <= i < |s.cells| => s.cells[i].value)
  }

  function Execute(c: Control, s: State, op: Operation): (t: State)
    requires ValidControl(c) && |s.cells| == 2 && op.target < 2
    ensures |t.cells| == 2
  {
    if op.Clear? then Combined(s.cells[op.target := Cell(0, false, false)])
    else ApplyResult(c, s, op.target, Computed(c, Values(s), op))
  }

  ghost predicate Legal(ops: seq<Operation>) {
    forall i :: 0 <= i < |ops| ==> ops[i].target < 2
  }

  function Run(c: Control, s: State, ops: seq<Operation>): (t: State)
    requires ValidControl(c) && |s.cells| == 2 && Legal(ops)
    ensures |t.cells| == 2
  {
    if ops == [] then s else Execute(c, Run(c, s, ops[..|ops| - 1]), ops[|ops| - 1])
  }

  /** The same run on unbounded integers. */
  function Exact(c: Control, v: seq<int>, ops: seq<Operation>): (w: seq<int>)
    requires |v| == 2 && Legal(ops)
    ensures |w| == 2
  {
    if ops == [] then v
    else
      var before := Exact(c, v, ops[..|ops| - 1]);
      var op := ops[|ops| - 1];
      before[op.target := Computed(c, before, op)]
  }

  // ---------------------------------------------------------------------------------------
  // What every run keeps
  // ---------------------------------------------------------------------------------------

  ghost predicate ValidCell(cell: Cell) {
    MINIMUM <= cell.value <= MAXIMUM && (cell.overflow <==> cell.value < MINIMUM_32 || cell.value > MAXIMUM_32)
  }

  /** Forty-bit values, overflow status that shows the value, and combined status bits. */
  ghost predicate Valid(s: State) {
    && |s.cells| == 2 && ValidCell(s.cells[0]) && ValidCell(s.cells[1])
    && (s.anyOverflow <==> s.cells[0].overflow || s.cells[1].overflow)
    && (s.anySaturated <==> s.cells[0].saturated || s.cells[1].saturated)
  }

  lemma ExecuteKeepsValid(c: Control, s: State, op: Operation)
    requires ValidControl(c) && Valid(s) && op.target < 2
    ensures Valid(Execute(c, s, op))
    ensures Execute(c, s, op).cells[1 - op.target] == s.cells[1 - op.target]
  {
    hide AccumulatorValue, Computed, Saturate;
  }

  lemma {:induction false} RunKeepsValid(c: Control, s: State, ops: seq<Operation>)
    requires ValidControl(c) && Valid(s) && Legal(ops)
    ensures Valid(Run(c, s, ops))
  {
    hide Execute;
    if ops != [] {
      RunKeepsValid(c, s, ops[..|ops| - 1]);
      ExecuteKeepsValid(c, Run(c, s, ops[..|ops| - 1]), ops[|ops| - 1]);
    }
  }

  // ---------------------------------------------------------------------------------------
  // Saturation off: arithmetic modulo 2^40
  // ---------------------------------------------------------------------------------------

  ghost predicate Congruent(a: int, b: int) {
    (a - b) % RANGE == 0
  }

  ghost predicate AllCongruent(v: seq<int>, w: seq<int>) {
    |v| == |w| == 2 && Congruent(v[0], w[0]) && Congruent(v[1], w[1])
  }

  lemma ComputedKeepsCongruent(c: Control, v: seq<int>, w: seq<int>, op: Operation)
    requires AllCongruent(v, w) && op.target < 2
    ensures Congruent(Computed(c, v, op), Computed(c, w, op))
  {
    hide Product, Congruent;
    match op
    case Multiply(t, _, _, _, _, _, _) => CongruentSum(v[t], w[t], Product(c, op), Product(c, op));
    case AddBoth(_) => CongruentSum(v[0], w[0], v[1], w[1]);
    case Negate(t) => CongruentDifference(0, 0, v[t], w[t]);
    case SubtractOther(t) => CongruentDifference(v[t], w[t], v[1 - t], w[1 - t]);
    case Number(t, n, _) => CongruentSum(v[t], w[t], n, n);
    case Clear(_) => CongruentSum(0, 0, 0, 0);
  }

  lemma CongruentSum(a: int, b: int, x: int, y: int)
    ensures Congruent(a, b) && Congruent(x, y) ==> Congruent(a + x, b + y)
    ensures Congruent(x, x)
  {
  }

  lemma CongruentDifference(a: int, b: int, x: int, y: int)
    ensures Congruent(a, b) && Congruent(x, y) ==> Congruent(a - x, b - y)
    ensures Congruent(a, a)
  {
  }

  lemma AccumulatorValueIsCongruent(result: int, exact: int)
    requires Congruent(result, exact)
    ensures Congruent(AccumulatorValue(result), exact)
  {
  }

  lemma ExecuteIsCongruent(c: Control, s: State, v: seq<int>, op: Operation)
    requires ValidControl(c) && |s.cells| == 2 && op.target < 2
    requires !c.saturate[0] && !c.saturate[1] && AllCongruent(Values(s), v)
    ensures AllCongruent(Values(Execute(c, s, op)), v[op.target := Computed(c, v, op)])
  {
    hide AccumulatorValue, Congruent, Product;
    ComputedKeepsCongruent(c, Values(s), v, op);
    AccumulatorValueIsCongruent(Computed(c, Values(s), op), Computed(c, v, op));
  }

  /** With both saturation enables clear, each accumulator is the exact result modulo 2^40. */
  lemma {:induction false} RunIsCongruent(c: Control, s: State, v: seq<int>, ops: seq<Operation>)
    requires ValidControl(c) && |s.cells| == 2 && Legal(ops)
    requires !c.saturate[0] && !c.saturate[1] && AllCongruent(Values(s), v)
    ensures AllCongruent(Values(Run(c, s, ops)), Exact(c, v, ops))
  {
    hide Execute, Computed, Congruent;
    if ops != [] {
      var rest := ops[..|ops| - 1];
      RunIsCongruent(c, s, v, rest);
      ExecuteIsCongruent(c, Run(c, s, rest), Exact(c, v, rest), ops[|ops| - 1]);
    }
  }

  // ---------------------------------------------------------------------------------------
  // The sticky saturation status
  // ---------------------------------------------------------------------------------------

  /** One instruction raises the status of its accumulator exactly when the value kept is not exact. */
  lemma StatusShowsInexact(c: Control, target: nat, result: int)
    requires |c.saturate| == 2 && target < 2
    ensures Saturate(c, target, result).1 <==> AccumulatorValue(Saturate(c, target, result).0) != result
  {
  }

  ghost predicate NoClear(ops: seq<Operation>) {
    forall i :: 0 <= i < |ops| ==> !ops[i].Clear?
  }

  /**
  In every saturation mode: when a run without CLR ends with both saturation bits clear, both
  accumulators hold the exact integer results.
  */
  lemma {:induction false} ClearStatusMeansExact(c: Control, s: State, ops: seq<Operation>)
    requires ValidControl(c) && Valid(s) && Legal(ops) && NoClear(ops)
    requires !Run(c, s, ops).anySaturated
    ensures !s.anySaturated && Values(Run(c, s, ops)) == Exact(c, Values(s), ops)
  {
    hide Computed, Saturate, AccumulatorValue;
    if ops != [] {
      var rest, op := ops[..|ops| - 1], ops[|ops| - 1];
      RunKeepsValid(c, s, rest);
      ClearStatusMeansExact(c, s, rest);
      StatusShowsInexact(c, op.target, Computed(c, Values(Run(c, s, rest)), op));
    }
  }

  /** No instruction of the run computes accumulator `target` from the other one. */
  ghost predicate Unmixed(ops: seq<Operation>, target: nat) {
    forall i :: 0 <= i < |ops| ==> ops[i].target == target ==> !ops[i].AddBoth? && !ops[i].SubtractOther?
  }

  /** Without mixing, one bit speaks for its own accumulator, and CLR makes a fresh start. */
  lemma {:induction false} OwnStatusMeansExact(c: Control, s: State, ops: seq<Operation>, target: nat)
    requires ValidControl(c) && |s.cells| == 2 && Legal(ops) && target < 2 && Unmixed(ops, target)
    requires !s.cells[target].saturated && !Run(c, s, ops).cells[target].saturated
    ensures Run(c, s, ops).cells[target].value == Exact(c, Values(s), ops)[target]
  {
    hide Product, Saturate, AccumulatorValue;
    if ops != [] {
      var rest, op := ops[..|ops| - 1], ops[|ops| - 1];
      if op.target != target || !op.Clear? {
        OwnStatusMeansExact(c, s, rest, target);
        StatusShowsInexact(c, op.target, Computed(c, Values(Run(c, s, rest)), op));
      }
    }
  }

  /**
  An instruction that computes an exact accumulator from the other one, and raises no status, is
  exact if and only if the other value was.
  */
  lemma MixingIsExactlyAsExact(c: Control, s: State, exact: seq<int>, op: Operation)
    requires ValidControl(c) && |s.cells| == |exact| == 2 && op.target < 2 && (op.AddBoth? || op.SubtractOther?)
    requires s.cells[op.target].value == exact[op.target] && !Execute(c, s, op).cells[op.target].saturated
    ensures Execute(c, s, op).cells[op.target].value == Computed(c, exact, op)
       <==> s.cells[1 - op.target].value == exact[1 - op.target]
  {
    hide Saturate, AccumulatorValue;
    StatusShowsInexact(c, op.target, Computed(c, Values(s), op));
  }

  // ---------------------------------------------------------------------------------------
  // What a run computes
  // ---------------------------------------------------------------------------------------

  function Signed(value: Word): int {
    if value >= 0x8000 then value - 0x10000 else value
  }

  /** What one instruction adds to its accumulator, or loads into it. */
  function Term(c: Control, op: Operation): int {
    match op
    case Multiply(_, left, leftEven, right, rightEven, subtract, _) =>
      var product :=
        match c.signMode
        case 0 => Signed(left) * Signed(right)
        case 1 => left * right
        case _ => (if leftEven then left else Signed(left)) * (if rightEven then right else Signed(right));
      var scaled := if c.integer then product else product + product;
      if subtract then 0 - scaled else scaled
    case Number(_, number, _) => number
    case _ => 0
  }

  function TermSum(c: Control, ops: seq<Operation>): int {
    if ops == [] then 0 else TermSum(c, ops[..|ops| - 1]) + Term(c, ops[|ops| - 1])
  }

  /** Instructions on one accumulator that add a product or a number to it. */
  ghost predicate Adds(ops: seq<Operation>, target: nat) {
    forall i :: 0 <= i < |ops| ==> ops[i].target == target && (ops[i].Multiply? || ops[i].Number?) && !ops[i].replace
  }

  lemma ProductIsTerm(c: Control, op: Operation)
    requires ValidControl(c) && op.Multiply?
    ensures Product(c, op) == Term(c, op)
  {
  }

  /**
  Over a run of MAC, MSC and ADD instructions that raises no status, an accumulator grows by exactly
  the sum of the products, read as signed, unsigned or mixed words by the sign mode and doubled in
  fractional mode, those of MSC counted negative, and of the numbers; the other one stays.
  */
  lemma {:induction false} QuietRunAddsTerms(c: Control, s: State, ops: seq<Operation>, target: nat)
    requires ValidControl(c) && |s.cells| == 2 && target < 2 && Adds(ops, target) && Legal(ops) && Quiet(c, s, ops)
    ensures Run(c, s, ops).cells[target].value == s.cells[target].value + TermSum(c, ops)
    ensures Run(c, s, ops).cells[1 - target] == s.cells[1 - target]
  {
    hide Product, Saturate, AccumulatorValue, Term;
    if ops != [] {
      var rest, op := ops[..|ops| - 1], ops[|ops| - 1];
      QuietRunAddsTerms(c, s, rest, target);
      QuietStep(c, Run(c, s, rest), op);
      if op.Multiply? {
        ProductIsTerm(c, op);
      } else {
        NumberIsTerm(c, op);
      }
      assert Values(Run(c, s, ops))[target] == Run(c, s, ops).cells[target].value;
    }
  }

  lemma NumberIsTerm(c: Control, op: Operation)
    requires op.Number?
    ensures Term(c, op) == op.number
  {
  }

  /** One that replaces the accumulator, without a status, leaves exactly its product or number. */
  lemma QuietLoadReplaces(c: Control, s: State, op: Operation)
    requires ValidControl(c) && |s.cells| == 2 && op.target < 2 && Quiet(c, s, [op])
    requires (op.Multiply? || op.Number?) && op.replace
    ensures Execute(c, s, op).cells[op.target].value == Term(c, op)
  {
    hide Product, Saturate, AccumulatorValue, Term;
    assert [op][..0] == [] && [op][|[op]| - 1] == op;
    QuietStep(c, s, op);
    if op.Multiply? {
      ProductIsTerm(c, op);
    } else {
      NumberIsTerm(c, op);
    }
    assert Values(Execute(c, s, op))[op.target] == Execute(c, s, op).cells[op.target].value;
  }

  /** MSC takes back what MAC of the same operands has added, if neither raises a status. */
  lemma SubtractUndoesAdd(c: Control, s: State, op: Operation)
    requires ValidControl(c) && |s.cells| == 2 && op.Multiply? && op.target < 2 && !op.replace
    requires var undo := op.(subtract := !op.subtract); Legal([op, undo]) && Quiet(c, s, [op, undo])
    ensures Values(Run(c, s, [op, op.(subtract := !op.subtract)])) == Values(s)
  {
    hide Product, Saturate, AccumulatorValue, Quiet;
    var undo := op.(subtract := !op.subtract);
    var ops := [op, undo];
    QuietRunAddsTerms(c, s, ops, op.target);
    assert ops[..1] == [op] && [op][..0] == [];
    OppositeTerms(c, op);
    assert TermSum(c, ops) == TermSum(c, [op]) + Term(c, undo);
    assert TermSum(c, [op]) == TermSum(c, []) + Term(c, op);
    assert Run(c, s, ops).cells[0].value == s.cells[0].value && Run(c, s, ops).cells[1].value == s.cells[1].value;
  }

  lemma OppositeTerms(c: Control, op: Operation)
    requires op.Multiply?
    ensures Term(c, op.(subtract := !op.subtract)) == -Term(c, op)
  {
  }

  /**
  With saturation on, the value kept is the nearest one of 32 bits, or of 40 bits in super saturation;
  with it off, the exact one as long as it has 40 bits.
  */
  lemma SaturationIsNearest(c: Control, target: nat, result: int)
    requires |c.saturate| == 2 && target < 2
    ensures var kept := AccumulatorValue(Saturate(c, target, result).0);
            var bits := if c.saturate[target] && !c.superSaturation then 0x8000_0000 else 0x80_0000_0000;
            && (c.saturate[target] || -bits <= result < bits ==>
                  kept == if result < -bits then -bits else if result >= bits then bits - 1 else result)
            && -0x80_0000_0000 <= kept < 0x80_0000_0000
  {
  }

  /** The overflow status of an accumulator says that its value needs more than 32 bits. */
  lemma OverflowShowsGuardBits(c: Control, s: State, target: nat, result: int)
    requires ValidControl(c) && |s.cells| == 2 && target < 2
    ensures var cell := ApplyResult(c, s, target, result).cells[target];
            cell.overflow <==> !(-0x8000_0000 <= cell.value < 0x8000_0000)
  {
    hide AccumulatorValue, Saturate;
  }

  // ---------------------------------------------------------------------------------------
  // How errors are carried
  // ---------------------------------------------------------------------------------------

  /** No instruction of the run raises a saturation status. */
  predicate Quiet(c: Control, s: State, ops: seq<Operation>)
    requires ValidControl(c) && |s.cells| == 2 && Legal(ops)
  {
    ops == []
    || (var rest, op := ops[..|ops| - 1], ops[|ops| - 1];
        Quiet(c, s, rest) && !Saturate(c, op.target, Computed(c, Values(Run(c, s, rest)), op)).1)
  }

  /** How much of each starting accumulator one accumulator holds. */
  datatype Weights = Weights(first: int, second: int)

  function Sum(a: Weights, b: Weights): Weights {
    Weights(a.first + b.first, a.second + b.second)
  }

  function Negated(a: Weights): Weights {
    Weights(-a.first, -a.second)
  }

  const NO_WEIGHT := Weights(0, 0)

  /** The weights of both accumulators after one instruction. */
  function Carry(w: seq<Weights>, op: Operation): (next: seq<Weights>)
    requires |w| == 2 && op.target < 2
    ensures |next| == 2
  {
    var t := op.target;
    w[t := match op
           case Multiply(_, _, _, _, _, _, replace) => if replace then NO_WEIGHT else w[t]
           case AddBoth(_) => Sum(w[0], w[1])
           case Negate(_) => Negated(w[t])
           case SubtractOther(_) => Sum(w[t], Negated(w[1 - t]))
           case Number(_, _, replace) => if replace then NO_WEIGHT else w[t]
           case Clear(_) => NO_WEIGHT]
  }

  function WeightsAfter(ops: seq<Operation>): (w: seq<Weights>)
    requires Legal(ops)
    ensures |w| == 2
  {
    if ops == [] then [Weights(1, 0), Weights(0, 1)] else Carry(WeightsAfter(ops[..|ops| - 1]), ops[|ops| - 1])
  }

  /** The error that a weight makes of the starting errors. */
  function Weighed(w: Weights, x: int, y: int): int {
    w.first * x + w.second * y
  }

  lemma WeighedAdds(a: Weights, b: Weights, x: int, y: int)
    ensures Weighed(Sum(a, b), x, y) == Weighed(a, x, y) + Weighed(b, x, y)
    ensures Weighed(Negated(a), x, y) == -Weighed(a, x, y)
    ensures Weighed(NO_WEIGHT, x, y) == 0
  {
    Division.Distributes(a.first, b.first, x);
    Division.Distributes(a.second, b.second, y);
    Division.Distributes(a.first, -a.first, x);
    Division.Distributes(a.second, -a.second, y);
  }

  lemma WeighedAlone(x: int, y: int)
    ensures Weighed(Weights(1, 0), x, y) == x && Weighed(Weights(0, 1), x, y) == y
  {
  }

  /** How far an accumulator is from the exact integer. */
  function Error(s: State, exact: seq<int>, target: nat): int
    requires |s.cells| == |exact| == 2 && target < 2
  {
    s.cells[target].value - exact[target]
  }

  lemma ComputedCarriesErrors(c: Control, v: seq<int>, exact: seq<int>, op: Operation, w: seq<Weights>, x: int, y: int)
    requires |v| == |exact| == |w| == 2 && op.target < 2
    requires v[0] - exact[0] == Weighed(w[0], x, y) && v[1] - exact[1] == Weighed(w[1], x, y)
    ensures Computed(c, v, op) - Computed(c, exact, op) == Weighed(Carry(w, op)[op.target], x, y)
  {
    hide Product, Weighed;
    WeighedAdds(w[0], w[1], x, y);
    WeighedAdds(w[op.target], Negated(w[1 - op.target]), x, y);
    WeighedAdds(w[1 - op.target], w[op.target], x, y);
  }

  /**
  A run that raises no status carries the errors of its start along, each accumulator holding fixed
  whole multiples of both; the multiples depend on the instructions alone.
  */
  lemma {:induction false} QuietRunCarriesErrors(c: Control, s: State, exact: seq<int>, ops: seq<Operation>, target: nat)
    requires ValidControl(c) && |s.cells| == |exact| == 2 && Legal(ops) && Quiet(c, s, ops) && target < 2
    ensures Error(Run(c, s, ops), Exact(c, exact, ops), target)
         == Weighed(WeightsAfter(ops)[target], Error(s, exact, 0), Error(s, exact, 1))
  {
    hide Computed, Saturate, AccumulatorValue, Weighed, Carry;
    var x, y := Error(s, exact, 0), Error(s, exact, 1);
    if ops == [] {
      WeighedAlone(x, y);
    } else {
      var rest, op := ops[..|ops| - 1], ops[|ops| - 1];
      var before := Run(c, s, rest);
      QuietRunCarriesErrors(c, s, exact, rest, 0);
      QuietRunCarriesErrors(c, s, exact, rest, 1);
      ComputedCarriesErrors(c, Values(before), Exact(c, exact, rest), op, WeightsAfter(rest), x, y);
      QuietStep(c, before, op);
      CarryChangesTarget(WeightsAfter(rest), op);
      assert Values(before)[target] == before.cells[target].value;
      assert Values(Run(c, s, ops))[target] == Run(c, s, ops).cells[target].value;
    }
  }

  lemma CarryChangesTarget(w: seq<Weights>, op: Operation)
    requires |w| == 2 && op.target < 2
    ensures Carry(w, op)[1 - op.target] == w[1 - op.target]
  {
  }

  lemma QuietStep(c: Control, s: State, op: Operation)
    requires ValidControl(c) && |s.cells| == 2 && op.target < 2 && !Saturate(c, op.target, Computed(c, Values(s), op)).1
    ensures Values(Execute(c, s, op)) == Values(s)[op.target := Computed(c, Values(s), op)]
  {
    hide Product, Saturate, AccumulatorValue;
    StatusShowsInexact(c, op.target, Computed(c, Values(s), op));
  }

  /**
  Over a run that raises no status, an accumulator ends exact whatever the errors at the start if and
  only if the instructions give it no weight of either: both were replaced or cancelled.
  */
  lemma ExactWhateverTheStart(c: Control, s: State, ops: seq<Operation>, target: nat)
    requires ValidControl(c) && |s.cells| == 2 && Legal(ops) && Quiet(c, s, ops) && target < 2
    ensures (forall x: int, y: int :: Run(c, s, ops).cells[target].value == Exact(c, [x, y], ops)[target])
       <==> WeightsAfter(ops)[target] == NO_WEIGHT
  {
    hide Run, Exact, Quiet, WeightsAfter, Weighed;
    var w, a, b := WeightsAfter(ops)[target], s.cells[0].value, s.cells[1].value;
    forall x: int, y: int ensures Run(c, s, ops).cells[target].value - Exact(c, [x, y], ops)[target] == Weighed(w, a - x, b - y) {
      QuietRunCarriesErrors(c, s, [x, y], ops, target);
    }
    forall x: int, y: int ensures Weighed(NO_WEIGHT, x, y) == 0 {
      WeighedAdds(w, w, x, y);
    }
    if forall x: int, y: int :: Run(c, s, ops).cells[target].value == Exact(c, [x, y], ops)[target] {
      assert Run(c, s, ops).cells[target].value == Exact(c, [a - 1, b], ops)[target];
      assert Run(c, s, ops).cells[target].value == Exact(c, [a, b - 1], ops)[target];
      WeighedParts(w);
    }
  }

  lemma WeighedParts(w: Weights)
    ensures Weighed(w, 1, 0) == w.first && Weighed(w, 0, 1) == w.second
  {
  }

  /** Neither CLR nor a load: nothing is forgotten. */
  ghost predicate NothingReplaced(ops: seq<Operation>) {
    forall i :: 0 <= i < |ops| ==> !ops[i].Clear? && (ops[i].Multiply? || ops[i].Number? ==> !ops[i].replace)
  }

  /**
  Over a run with mixing but without CLR and loads that raises no status, both accumulators end
  exact if and only if both were exact at its start: one inexact instruction is never made good
  until another status is raised.
  */
  lemma {:induction false} QuietRunIsExactlyAsExact(c: Control, s: State, exact: seq<int>, ops: seq<Operation>)
    requires ValidControl(c) && |s.cells| == |exact| == 2 && Legal(ops) && Quiet(c, s, ops) && NothingReplaced(ops)
    ensures Values(Run(c, s, ops)) == Exact(c, exact, ops) <==> Values(s) == exact
  {
    hide Saturate, AccumulatorValue, Computed, Execute;
    if ops != [] {
      var rest, op := ops[..|ops| - 1], ops[|ops| - 1];
      QuietRunIsExactlyAsExact(c, s, exact, rest);
      QuietStep(c, Run(c, s, rest), op);
      ComputedIsInvertible(c, Values(Run(c, s, rest)), Exact(c, exact, rest), op);
    }
  }

  lemma ComputedIsInvertible(c: Control, v: seq<int>, w: seq<int>, op: Operation)
    requires |v| == |w| == 2 && op.target < 2 && NothingReplaced([op])
    ensures v[op.target := Computed(c, v, op)] == w[op.target := Computed(c, w, op)] <==> v == w
  {
    hide Product;
    assert [op][0] == op;
    var other := 1 - op.target;
    assert v[op.target := Computed(c, v, op)][other] == v[other] && w[op.target := Computed(c, w, op)][other] == w[other];
    assert v[op.target := Computed(c, v, op)][op.target] == Computed(c, v, op);
    assert w[op.target := Computed(c, w, op)][op.target] == Computed(c, w, op);
    assert v == w <==> v[op.target] == w[op.target] && v[other] == w[other];
  }

  // Accumulator B one below its upper limit, both status bits clear, saturation off.

  function PlainControl(): (c: Control)
    ensures ValidControl(c)
  {
    Control([false, false], true, true, 0)
  }

  function NearLimit(): (s: State)
    ensures Valid(s)
  {
    State([Cell(0, false, false), Cell(MAXIMUM, true, false)], true, false)
  }

  function Overflowing(): Operation {
    Multiply(1, 1, false, 1, false, false, false)
  }

  lemma OverflowingRun()
    ensures var s := Execute(PlainControl(), NearLimit(), Overflowing());
            s == State([Cell(0, false, false), Cell(MINIMUM, true, true)], true, true)
    ensures Computed(PlainControl(), [0, MAXIMUM], Overflowing()) == MAXIMUM + 1
  {
    assert Values(NearLimit()) == [0, MAXIMUM];
  }

  /** With mixing, one clear bit does not speak for its own accumulator. */
  lemma OwnStatusIsNotEnough()
    ensures var ops := [Overflowing(), AddBoth(0)];
            var end := Run(PlainControl(), NearLimit(), ops);
            !end.cells[0].saturated && end.cells[0].value != Exact(PlainControl(), Values(NearLimit()), ops)[0]
  {
    hide Overflowing;
    OverflowingRun();
    var ops := [Overflowing(), AddBoth(0)];
    var one := [Overflowing()];
    assert ops[..1] == one && one[..0] == [];
    OverflowingTargets();
    var s := Run(PlainControl(), NearLimit(), one);
    assert s == Execute(PlainControl(), NearLimit(), Overflowing());
    assert Values(NearLimit()) == [0, MAXIMUM];
    assert Values(s) == [0, MINIMUM];
  }

  lemma OverflowingTargets()
    ensures Overflowing().target == 1 && !Overflowing().Clear?
  {
  }

  /** With mixing and CLR, even two clear bits are not enough. */
  lemma ClearHidesInexact()
    ensures var ops := [Overflowing(), AddBoth(0), Clear(1)];
            var end := Run(PlainControl(), NearLimit(), ops);
            !end.anySaturated && end.cells[0].value != Exact(PlainControl(), Values(NearLimit()), ops)[0]
  {
    hide Overflowing;
    OverflowingTargets();
    OwnStatusIsNotEnough();
    var ops := [Overflowing(), AddBoth(0), Clear(1)];
    assert ops[..2] == [Overflowing(), AddBoth(0)];
  }

  // ---------------------------------------------------------------------------------------
  // The engine
  // ---------------------------------------------------------------------------------------

  class DspEngine {
    const control: Control
    const cells: array<Cell>
    var anyOverflow: bool
    var anySaturated: bool

    ghost predicate Ready()
      reads this
    {
      ValidControl(control) && cells.Length == 2
    }

    function View(): State
      reads this, cells
    {
      State(cells[..], anyOverflow, anySaturated)
    }

    constructor (control: Control)
      requires ValidControl(control)
      ensures Ready() && fresh(cells) && this.control == control && Valid(View())
    {
      this.control := control;
      cells := new Cell[2](_ => Cell(0, false, false));
      anyOverflow, anySaturated := false, false;
    }

    method UpdateCombinedStatus()
      requires Ready()
      modifies this
      ensures View() == Combined(cells[..])
    {
      anyOverflow, anySaturated := false, false;
      if cells[0].overflow || cells[1].overflow {
        anyOverflow := true;
      }
      if cells[0].saturated || cells[1].saturated {
        anySaturated := true;
      }
    }

    method ApplyAccumulatorResult(target: nat, computed: int)
      requires Ready() && target < 2
      modifies this, cells
      ensures View() == ApplyResult(control, old(View()), target, computed)
    {
      var result := computed;
      var minimum := if control.superSaturation then MINIMUM else MINIMUM_32;
      var maximum := if control.superSaturation then MAXIMUM else MAXIMUM_32;
      var status := result < MINIMUM || result > MAXIMUM;
      if control.saturate[target] {
        if result < minimum {
          result, status := minimum, true;
        } else if result > maximum {
          result, status := maximum, true;
        }
      }
      var value := AccumulatorValue(result);
      var overflow := value < MINIMUM_32 || value > MAXIMUM_32;
      cells[target] := Cell(value, overflow, cells[target].saturated || status);
      UpdateCombinedStatus();
    }

    method ExecuteOperation(op: Operation)
      requires Ready() && op.target < 2
      modifies this, cells
      ensures View() == Execute(control, old(View()), op)
    {
      hide ApplyResult, Product, AccumulatorValue;
      var t := op.target;
      assert Values(View()) == [cells[0].value, cells[1].value];
      match op {
        case Clear(_) =>
          cells[t] := Cell(0, false, false);
          UpdateCombinedStatus();
        case Multiply(_, left, leftEven, right, rightEven, subtract, replace) =>
          var product := Product(control, op);
          ApplyAccumulatorResult(t, if replace then product else cells[t].value + product);
        case AddBoth(_) =>
          ApplyAccumulatorResult(t, cells[0].value + cells[1].value);
        case Negate(_) =>
          ApplyAccumulatorResult(t, -cells[t].value);
        case SubtractOther(_) =>
          ApplyAccumulatorResult(t, cells[t].value - cells[1 - t].value);
        case Number(_, number, replace) =>
          ApplyAccumulatorResult(t, if replace then number else cells[t].value + number);
      }
    }
  }
}
