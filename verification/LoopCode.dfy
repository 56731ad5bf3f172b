/**
Structured code with DO and REPEAT loops: what it runs, in how many steps, and exactly when that is
what its text says.

The last instruction of a loop may be a plain one, stand under REPEAT, or end an inner loop as well.
Each time the instruction at the end of the innermost loop has run, repeated or not, an iteration of
that loop is complete. So a repetition at a shared end counts for the next loop outwards.
*/
module LoopCode {
  import opened Wrappers
  import opened DoLoop

  datatype Block =
    | Empty
    | One(tag: nat, rest: Block)
    | Repeated(count: nat, tag: nat, rest: Block)
    | Loop(count: nat, body: Block, rest: Block)

  function Size(b: Block): nat {
    match b
    case Empty => 0
    case One(_, rest) => 2 + Size(rest)
    case Repeated(_, _, rest) => 4 + Size(rest)
    case Loop(_, body, rest) => 4 + Size(body) + Size(rest)
  }

  predicate Placed(program: Program, b: Block, address: nat) {
    match b
    case Empty => true
    case One(tag, rest) =>
      address in program && program[address] == Plain(tag) && Placed(program, rest, address + 2)
    case Repeated(count, tag, rest) =>
      && address in program && program[address] == Repeat(count)
      && address + 2 in program && program[address + 2] == Plain(tag)
      && Placed(program, rest, address + 4)
    case Loop(count, body, rest) =>
      && address in program && program[address] == Do(count, address + 2 + Size(body))
      && Placed(program, body, address + 4)
      && Placed(program, rest, address + 4 + Size(body))
  }

  /** Fits the stack above `depth` levels, with nested counts of zero only in the workaround; no body is empty. */
  predicate WellFormed(program: Program, b: Block, address: nat, depth: nat, outerStart: nat) {
    match b
    case Empty => true
    case One(_, rest) => WellFormed(program, rest, address + 2, depth, outerStart)
    case Repeated(_, _, rest) => WellFormed(program, rest, address + 4, depth, outerStart)
    case Loop(count, body, rest) =>
      && depth < DO_LEVELS && !body.Empty?
      && (count == 0 && depth > 0 ==> ZeroCountWorkaround(program, outerStart, address + 4))
      && WellFormed(program, body, address + 4, depth + 1, address + 4)
      && WellFormed(program, rest, address + 4 + Size(body), depth, outerStart)
  }

  function Times(trace: seq<nat>, n: nat): seq<nat> {
    if n == 0 then [] else trace + Times(trace, n - 1)
  }

  /** The instructions that the text says: repeated ones count + 1 times, and so loop bodies. */
  function Unrolled(b: Block): seq<nat> {
    match b
    case Empty => []
    case One(tag, rest) => [tag] + Unrolled(rest)
    case Repeated(count, tag, rest) => Times([tag], count + 1) + Unrolled(rest)
    case Loop(count, body, rest) => Times(Unrolled(body), count + 1) + Unrolled(rest)
  }

  // ---------------------------------------------------------------------------------------
  // What the processor runs instead
  // ---------------------------------------------------------------------------------------

  /** The last instruction in the text. */
  function LastTag(b: Block): nat {
    match b
    case Empty => NOP
    case One(tag, rest) => if rest.Empty? then tag else LastTag(rest)
    case Repeated(_, tag, rest) => if rest.Empty? then tag else LastTag(rest)
    case Loop(_, body, rest) => if rest.Empty? then LastTag(body) else LastTag(rest)
  }

  /**
  How often the last instruction of a loop body is still to be repeated when it has completed the
  iteration; none if it never completes it, because the loops inside use up all its repetitions.
  */
  function Left(b: Block): Option<nat> {
    match b
    case Empty => Some(0)
    case One(_, rest) => if rest.Empty? then Some(0) else Left(rest)
    case Repeated(count, _, rest) => if rest.Empty? then Some(count) else Left(rest)
    case Loop(_, body, rest) =>
      if !rest.Empty? then Left(rest)
      else if Left(body).Some? && Left(body).value > 0 then Some(Left(body).value - 1)
      else None
  }

  /** The repetitions of a loop's last instruction that remain once the loop is left. */
  function Remaining(body: Block): nat {
    if Left(body).Some? then Left(body).value else 0
  }

  /** Every loop inside, but for one at the very end, is left before the code behind it runs. */
  predicate Clean(b: Block) {
    match b
    case Empty => true
    case One(_, rest) => Clean(rest)
    case Repeated(_, _, rest) => Clean(rest)
    case Loop(_, body, rest) => Clean(body) && Clean(rest) && (Left(body).Some? || rest.Empty?)
  }

  /** Every loop is. */
  predicate Whole(b: Block) {
    match b
    case Empty => true
    case One(_, rest) => Whole(rest)
    case Repeated(_, _, rest) => Whole(rest)
    case Loop(_, body, rest) => Clean(body) && Left(body).Some? && Whole(rest)
  }

  /** The iterations of a loop, the first repetition of its end in each included. */
  function Rounds(count: nat, body: Block): seq<nat>
    decreases body, 1
  {
    if Left(body).Some? then Times(Trace(body, true), count + 1) else Trace(body, true)
  }

  /** The instructions run; when the block closes a loop, up to the one that completes the iteration. */
  function Trace(b: Block, closes: bool): seq<nat>
    decreases b, 0
  {
    match b
    case Empty => []
    case One(tag, rest) => [tag] + Trace(rest, closes)
    case Repeated(count, tag, rest) =>
      Times([tag], if closes && rest.Empty? then 1 else count + 1) + Trace(rest, closes)
    case Loop(count, body, rest) =>
      Rounds(count, body) + Times([LastTag(body)], Tail(body, closes && rest.Empty?)) + Trace(rest, closes)
  }

  /** The repetitions behind a loop that belong to it. */
  function Tail(body: Block, last: bool): nat {
    if last && Remaining(body) > 0 then 1 else Remaining(body)
  }

  function Scaled(n: nat, steps: nat): nat {
    if n == 0 then 0 else steps + Scaled(n - 1, steps)
  }

  function RoundSteps(count: nat, body: Block): nat
    decreases body, 1
  {
    if Left(body).Some? then Scaled(count + 1, StepCount(body, true)) else StepCount(body, true)
  }

  /** The steps of the processor that this takes. */
  function StepCount(b: Block, closes: bool): nat
    decreases b, 0
  {
    match b
    case Empty => 0
    case One(_, rest) => 1 + StepCount(rest, closes)
    case Repeated(count, _, rest) => 1 + (if closes && rest.Empty? then 1 else count + 1) + StepCount(rest, closes)
    case Loop(count, body, rest) =>
      1 + RoundSteps(count, body) + Tail(body, closes && rest.Empty?) + StepCount(rest, closes)
  }

  /** The levels that stay on the stack when the end of the block never completes an iteration. */
  function OpenLevels(b: Block, address: nat): seq<Level> {
    match b
    case Empty => []
    case One(_, rest) => OpenLevels(rest, address + 2)
    case Repeated(_, _, rest) => OpenLevels(rest, address + 4)
    case Loop(count, body, rest) =>
      if !rest.Empty? then OpenLevels(rest, address + 4 + Size(body))
      else if Left(body).Some? then []
      else [Level(address + 4, address + 2 + Size(body), count, 0)] + OpenLevels(body, address + 4)
  }

  // ---------------------------------------------------------------------------------------
  // Reaching a state
  // ---------------------------------------------------------------------------------------

  /** The program counter stays between the bounds for `n` steps. */
  ghost predicate Within(program: Program, s: State, n: nat, low: nat, high: nat)
    decreases n
  {
    n == 0 || (low <= s.pc < high && Within(program, Step(program, s), n - 1, low, high))
  }

  /** `t` is reached after `n` steps between the bounds. */
  ghost predicate Reaches(program: Program, s: State, n: nat, t: State, low: nat, high: nat) {
    Steps(program, s, n) == t && Within(program, s, n, low, high)
  }

  lemma ReachesNothing(program: Program, s: State, low: nat, high: nat)
    ensures Reaches(program, s, 0, s, low, high)
  {
  }

  lemma ReachesOne(program: Program, s: State, low: nat, high: nat)
    requires low <= s.pc < high
    ensures Reaches(program, s, 1, Step(program, s), low, high)
  {
    hide Step;
    assert Steps(program, s, 1) == Steps(program, Step(program, s), 0);
    assert Within(program, Step(program, s), 0, low, high);
  }

  lemma {:induction false} ReachesMore(program: Program, s: State, m: nat, t: State, n: nat, u: State, low: nat, high: nat)
    requires Reaches(program, s, m, t, low, high) && Reaches(program, t, n, u, low, high)
    ensures Reaches(program, s, m + n, u, low, high)
    decreases m
  {
    hide Step;
    if m > 0 {
      ReachesMore(program, Step(program, s), m - 1, t, n, u, low, high);
    }
  }

  lemma {:induction false} ReachesWider(program: Program, s: State, n: nat, t: State, low: nat, high: nat, lower: nat, higher: nat)
    requires Reaches(program, s, n, t, low, high) && lower <= low && high <= higher
    ensures Reaches(program, s, n, t, lower, higher)
    decreases n
  {
    hide Step;
    if n > 0 {
      ReachesWider(program, Step(program, s), n - 1, t, low, high, lower, higher);
    }
  }

  lemma {:induction false} InsideBefore(program: Program, s: State, n: nat, k: nat, low: nat, high: nat)
    requires Within(program, s, n, low, high) && k < n
    ensures low <= Steps(program, s, k).pc < high
    decreases k
  {
    hide Step;
    if k > 0 {
      InsideBefore(program, Step(program, s), n - 1, k - 1, low, high);
    }
  }

  /** Control leaves a range of addresses for the first time only once. */
  lemma FirstExitIsUnique(program: Program, s: State, m: nat, t: State, n: nat, u: State, low: nat, high: nat)
    requires Reaches(program, s, m, t, low, high) && Reaches(program, s, n, u, low, high) && t.pc >= high && u.pc >= high
    ensures t == u
  {
    hide Step;
    if m < n {
      InsideBefore(program, s, n, m, low, high);
    } else if n < m {
      InsideBefore(program, s, m, n, low, high);
    }
  }

  // ---------------------------------------------------------------------------------------
  // Single steps
  // ---------------------------------------------------------------------------------------

  function Ran(s: State, size: nat, trace: seq<nat>): State {
    s.(pc := s.pc + size, trace := s.trace + trace)
  }

  /** The instruction at `address` is to run `left` times more under REPEAT; then REPEAT is over. */
  function Pending(s: State, address: nat, left: nat): State {
    if left == 0 then s.(pc := address + 2, repeatPc := None, rcount := 0, repeatBit := false)
    else s.(pc := address, repeatPc := Some(address), rcount := left - 1, repeatBit := left != 1)
  }

  predicate EndsAt(s: State, address: nat) {
    s.stack != [] && Top(s).end == address
  }

  lemma PlainStep(program: Program, s: State, tag: nat)
    requires s.pc in program && program[s.pc] == Plain(tag) && s.repeatPc != Some(s.pc)
    ensures Step(program, s) == if EndsAt(s, s.pc) then CompleteIteration(Ran(s, 2, [tag])) else Ran(s, 2, [tag])
  {
    hide CompleteIteration;
  }

  /** One of the repetitions. At the end of the innermost loop it completes an iteration, like any other instruction. */
  lemma PendingStep(program: Program, s: State, address: nat, left: nat, tag: nat)
    requires address in program && program[address] == Plain(tag) && left > 0
    ensures var next := Pending(s.(trace := s.trace + [tag]), address, left - 1);
            Step(program, Pending(s, address, left)) == if EndsAt(s, address) then CompleteIteration(next) else next
  {
    hide CompleteIteration;
  }

  lemma RepeatStep(program: Program, s: State, count: nat)
    requires s.pc in program && program[s.pc] == Repeat(count) && s.repeatPc != Some(s.pc) && !EndsAt(s, s.pc)
    ensures Step(program, s) == if count == 0 then s.(pc := s.pc + 2, rcount := 0) else Pending(s, s.pc + 2, count + 1)
  {
    hide CompleteIteration;
  }

  function Entered(s: State, count: nat, end: nat): State {
    s.(pc := s.pc + 4, stack := s.stack + [Level(s.pc + 4, end, count, 0)], dostart := s.pc + 4, doend := end,
       dcount := count, depthField := |s.stack| + 1, active := true)
  }

  /** The registers show the stack. */
  ghost predicate Shown(s: State) {
    |s.stack| <= DO_LEVELS && s.active == (s.stack != []) && Mirror(s) == s
  }

  lemma DoStep(program: Program, s: State, count: nat, end: nat)
    requires Shown(s) && |s.stack| < DO_LEVELS && s.pc in program && program[s.pc] == Do(count, end)
    requires s.repeatPc != Some(s.pc)
    requires count == 0 && s.stack != [] ==> ZeroCountWorkaround(program, Top(s).start, s.pc + 4)
    ensures Step(program, s) == Entered(s, count, end) && Shown(Entered(s, count, end))
    ensures Top(Entered(s, count, end)) == Level(s.pc + 4, end, count, 0)
  {
    hide CompleteIteration, ZeroCountWorkaround;
  }

  /** The repetitions run, as long as they are not at the end of the innermost loop. */
  lemma {:induction false} PendingRuns(program: Program, s: State, address: nat, left: nat, tag: nat)
    requires address in program && program[address] == Plain(tag) && !EndsAt(s, address)
    ensures Reaches(program, Pending(s, address, left), left, Pending(s.(trace := s.trace + Times([tag], left)), address, 0),
                    address, address + 2)
    decreases left
  {
    hide Step, Reaches;
    if left == 0 {
      assert s.trace + [] == s.trace;
      ReachesNothing(program, Pending(s, address, 0), address, address + 2);
    } else {
      var next := s.(trace := s.trace + [tag]);
      PendingStep(program, s, address, left, tag);
      ReachesOne(program, Pending(s, address, left), address, address + 2);
      PendingRuns(program, next, address, left - 1, tag);
      assert next.trace + Times([tag], left - 1) == s.trace + Times([tag], left);
      ReachesMore(program, Pending(s, address, left), 1, Pending(next, address, left - 1), left - 1,
                  Pending(s.(trace := s.trace + Times([tag], left)), address, 0), address, address + 2);
    }
  }

  /**
  An instruction under REPEAT runs its count plus one times; but at the end of the innermost loop
  each single run also completes an iteration of that loop.
  */
  lemma RepeatRuns(program: Program, s: State, tag: nat)
    requires s.pc in program && program[s.pc] == Plain(tag)
    requires s.repeatPc == Some(s.pc) && s.repeatBit == (s.rcount != 0)
    ensures EndsAt(s, s.pc) ==>
              Step(program, s) == CompleteIteration(Pending(s.(trace := s.trace + [tag]), s.pc, s.rcount))
    ensures !EndsAt(s, s.pc) ==>
              Steps(program, s, s.rcount + 1)
              == Ran(s, 2, Times([tag], s.rcount + 1)).(repeatPc := None, rcount := 0, repeatBit := false)
  {
    hide Step, Steps, CompleteIteration;
    assert s == Pending(s, s.pc, s.rcount + 1);
    PendingStep(program, s, s.pc, s.rcount + 1, tag);
    if !EndsAt(s, s.pc) {
      PendingRuns(program, s, s.pc, s.rcount + 1, tag);
    }
  }

  // ---------------------------------------------------------------------------------------
  // What a block leaves of the REPEAT registers
  // ---------------------------------------------------------------------------------------

  /** The block holds a REPEAT with a count above zero, or with a count of zero. */
  predicate Arms(b: Block) {
    match b
    case Empty => false
    case One(_, rest) => Arms(rest)
    case Repeated(count, _, rest) => count > 0 || Arms(rest)
    case Loop(_, body, rest) => Arms(body) || Arms(rest)
  }

  predicate Clears(b: Block) {
    match b
    case Empty => false
    case One(_, rest) => Clears(rest)
    case Repeated(count, _, rest) => count == 0 || Clears(rest)
    case Loop(_, body, rest) => Clears(body) || Clears(rest)
  }

  /** A repetition that an enclosing loop cut short is forgotten when another one has run. */
  function Rested(b: Block, s: State): State {
    if Arms(b) then s.(repeatPc := None, rcount := 0, repeatBit := false)
    else if Clears(b) then s.(rcount := 0)
    else s
  }

  /** No REPEAT is in progress for an instruction in the next `size` words. */
  predicate Elsewhere(s: State, size: nat) {
    s.repeatPc.None? || s.repeatPc.value < s.pc || s.repeatPc.value >= s.pc + size
  }

  /** The last instruction stands under a REPEAT with a count above zero. */
  predicate EndsArmed(b: Block) {
    match b
    case Empty => false
    case One(_, rest) => EndsArmed(rest)
    case Repeated(count, _, rest) => if rest.Empty? then count > 0 else EndsArmed(rest)
    case Loop(_, body, rest) => if rest.Empty? then EndsArmed(body) else EndsArmed(rest)
  }

  lemma {:induction false} LeftIsArmed(b: Block)
    ensures Remaining(b) > 0 ==> EndsArmed(b)
    ensures EndsArmed(b) ==> Arms(b)
  {
    match b
    case Empty =>
    case One(_, rest) => LeftIsArmed(rest);
    case Repeated(_, _, rest) => LeftIsArmed(rest);
    case Loop(_, body, rest) =>
      LeftIsArmed(body);
      LeftIsArmed(rest);
  }

  // ---------------------------------------------------------------------------------------
  // Runs
  // ---------------------------------------------------------------------------------------

  /** The first item alone. */
  function Item(b: Block): Block
    requires !b.Empty?
  {
    b.(rest := Empty)
  }

  lemma ItemFirst(b: Block, closes: bool)
    requires !b.Empty?
    ensures Size(b) == Size(Item(b)) + Size(b.rest) && Size(Item(b)) >= 2
    ensures !(closes && b.rest.Empty?) ==>
              Trace(b, closes) == Trace(Item(b), false) + Trace(b.rest, closes)
              && StepCount(b, closes) == StepCount(Item(b), false) + StepCount(b.rest, closes)
    ensures forall s :: Rested(b.rest, Rested(Item(b), s)) == Rested(b, s)
    ensures Left(Empty) == Some(0)
  {
    hide Times, Rounds, RoundSteps, Tail;
    assert Trace(Empty, false) == [] && StepCount(Empty, false) == 0;
    ItemRests(b);
  }

  lemma ItemRests(b: Block)
    requires !b.Empty?
    ensures Arms(b) == (Arms(Item(b)) || Arms(b.rest)) && Clears(b) == (Clears(Item(b)) || Clears(b.rest))
    ensures forall s :: Rested(b.rest, Rested(Item(b), s)) == Rested(b, s)
  {
    assert !Arms(Empty) && !Clears(Empty);
  }

  function OuterStart(s: State): nat {
    if s.stack == [] then 0 else Top(s).start
  }

  /** The instruction at the end of a loop body with repetitions left, or behind it. */
  function Leaving(body: Block, s: State): State {
    if Remaining(body) > 0 && s.pc >= 2 then Pending(s, s.pc - 2, Remaining(body)) else s
  }

  /** More levels are on the stack. */
  function Opened(s: State, levels: seq<Level>): State {
    Mirror(s.(stack := s.stack + levels, active := s.active || levels != []))
  }

  /** Where the block leads: behind itself, or, when it closes a loop, to the end of an iteration. */
  function Outcome(b: Block, s: State, closes: bool): State {
    var behind := Rested(b, Ran(s, Size(b), Trace(b, closes)));
    if !closes then behind
    else if Left(b).None? || s.stack == [] then Opened(behind, OpenLevels(b, s.pc))
    else CompleteIteration(Leaving(b, behind))
  }

  /** The block stands at the program counter and closes the innermost loop, or has no end of a loop in it. */
  ghost predicate Standing(program: Program, b: Block, s: State, closes: bool) {
    && Shown(s) && Placed(program, b, s.pc) && WellFormed(program, b, s.pc, |s.stack|, OuterStart(s))
    && if closes then
         !b.Empty? && s.stack != [] && Top(s).end + 2 == s.pc + Size(b)
         && (Elsewhere(s, Size(b)) || (EndsArmed(b) && s.repeatPc == Some(Top(s).end)))
       else
         Elsewhere(s, Size(b)) && (s.stack == [] || Top(s).end < s.pc || Top(s).end >= s.pc + Size(b))
  }

  /** And its loops are left, but for one at the very end of a loop body. */
  ghost predicate Runnable(program: Program, b: Block, s: State, closes: bool) {
    Standing(program, b, s, closes) && if closes then Clean(b) else Whole(b)
  }

  /** At the start of an iteration of a loop with this body. */
  ghost predicate AtStart(program: Program, body: Block, s: State) {
    Runnable(program, body, s, true) && Top(s).start == s.pc
  }

  /** Nothing but the loop registers decides what they show. */
  lemma ShownAlike(s: State, t: State)
    requires Shown(s) && t == s.(pc := t.pc, trace := t.trace, repeatPc := t.repeatPc, rcount := t.rcount, repeatBit := t.repeatBit)
    ensures Shown(t)
  {
  }

  lemma OutcomeBehind(b: Block, s: State)
    ensures var t := Outcome(b, s, false);
            && t == s.(pc := s.pc + Size(b), trace := s.trace + Trace(b, false),
                       repeatPc := t.repeatPc, rcount := t.rcount, repeatBit := t.repeatBit)
            && (t.repeatPc == s.repeatPc || t.repeatPc == None)
    ensures Shown(s) ==> Shown(Outcome(b, s, false))
  {
    hide Trace, Size, Arms, Clears;
    if Shown(s) {
      ShownAlike(s, Outcome(b, s, false));
    }
  }

  lemma ItemIsWhole(b: Block)
    requires !b.Empty? && Whole(b)
    ensures Whole(Item(b)) && Whole(b.rest)
  {
    assert Whole(Empty);
  }

  lemma ItemStands(program: Program, b: Block, s: State, closes: bool)
    requires !b.Empty? && Standing(program, b, s, closes) && !(closes && b.rest.Empty?)
    ensures Standing(program, Item(b), s, false)
    ensures Standing(program, b.rest, Outcome(Item(b), s, false), closes)
    ensures Outcome(Item(b), s, false).pc == s.pc + Size(Item(b)) && Outcome(Item(b), s, false).stack == s.stack
  {
    hide Shown, Placed, WellFormed, Trace, Outcome, Size;
    ItemFirst(b, closes);
    OutcomeBehind(Item(b), s);
    ItemIsPlaced(program, b, s.pc, |s.stack|, OuterStart(s));
    if closes {
      LastIsBehind(b);
    }
  }

  lemma RestIsRunnable(program: Program, b: Block, s: State, closes: bool)
    requires !b.Empty? && Runnable(program, b, s, closes) && !(closes && b.rest.Empty?)
    ensures Runnable(program, Item(b), s, false)
    ensures Runnable(program, b.rest, Outcome(Item(b), s, false), closes)
    ensures Outcome(Item(b), s, false).pc == s.pc + Size(Item(b)) && Outcome(Item(b), s, false).stack == s.stack
  {
    hide Standing, Outcome, Whole, Clean, Size;
    ItemStands(program, b, s, closes);
    if closes {
      LastIsBehind(b);
    } else {
      ItemIsWhole(b);
    }
  }

  lemma ItemIsPlaced(program: Program, b: Block, address: nat, depth: nat, outerStart: nat)
    requires !b.Empty? && Placed(program, b, address) && WellFormed(program, b, address, depth, outerStart)
    ensures Placed(program, Item(b), address) && WellFormed(program, Item(b), address, depth, outerStart)
    ensures Placed(program, b.rest, address + Size(Item(b)))
    ensures WellFormed(program, b.rest, address + Size(Item(b)), depth, outerStart)
  {
    hide ZeroCountWorkaround;
    assert Size(Empty) == 0;
    assert forall a: nat :: Placed(program, Empty, a) && WellFormed(program, Empty, a, depth, outerStart);
  }

  /** What a block with code behind its first item has at its end is at the end of that code. */
  lemma LastIsBehind(b: Block)
    requires !b.Empty? && !b.rest.Empty?
    ensures Clean(b) ==> Whole(Item(b)) && Clean(b.rest)
    ensures EndsArmed(b) == EndsArmed(b.rest) && Left(b) == Left(b.rest) && LastTag(b) == LastTag(b.rest)
    ensures forall address: nat :: OpenLevels(b, address) == OpenLevels(b.rest, address + Size(Item(b)))
    ensures Size(b.rest) >= 2
  {
    hide OpenLevels, LastTag;
    assert Whole(Empty);
    OpenBehind(b);
    BlockIsLarge(b.rest);
  }

  lemma BlockIsLarge(b: Block)
    requires !b.Empty?
    ensures Size(b) >= 2
  {
  }

  lemma OpenBehind(b: Block)
    requires !b.Empty? && !b.rest.Empty?
    ensures forall address: nat :: OpenLevels(b, address) == OpenLevels(b.rest, address + Size(Item(b)))
    ensures LastTag(b) == LastTag(b.rest)
  {
    hide Left;
    assert Size(Empty) == 0;
  }

  /** The state at the end of the last of `n` iterations, and once the loop is left then. */
  function After(s: State, body: Block, n: nat): State {
    Leaving(body, Rested(body, Ran(s, Size(body), Times(Trace(body, true), n))))
  }

  function LoopEnded(s: State, body: Block, n: nat): State
    requires s.stack != []
  {
    Mirror(After(s, body, n).(stack := s.stack[..|s.stack| - 1]))
  }

  /** A loop that is entered is left again with repetitions of its end to run, or it stays on the stack. */
  function LoopOutcome(count: nat, body: Block, s: State): State {
    var behind := Rested(body, Ran(s, 4 + Size(body), Rounds(count, body)));
    if Left(body).Some? then Leaving(body, behind)
    else Opened(behind, [Level(s.pc + 4, s.pc + 2 + Size(body), count, 0)] + OpenLevels(body, s.pc + 4))
  }

  /** `s` with the DO stack of `t` and the registers that show it. */
  function WithLoops(s: State, t: State): State {
    s.(stack := t.stack, dostart := t.dostart, doend := t.doend, dcount := t.dcount, depthField := t.depthField,
       active := t.active)
  }

  lemma RestedWithLoops(body: Block, s: State, t: State, n: nat, trace: seq<nat>)
    ensures Rested(body, Ran(WithLoops(s, t), n, trace)) == WithLoops(Rested(body, Ran(s, n, trace)), t)
  {
    hide Arms, Clears;
  }

  lemma LeavingWithLoops(body: Block, s: State, t: State)
    ensures Leaving(body, WithLoops(s, t)) == WithLoops(Leaving(body, s), t)
  {
    hide Left;
  }

  /** Running to the end of a body does not depend on the loops around it. */
  lemma AfterWithLoops(s: State, t: State, body: Block, n: nat)
    ensures After(WithLoops(s, t), body, n) == WithLoops(After(s, body, n), t)
  {
    hide WithLoops, Rested, Ran, Leaving, Trace, Size, Times;
    RestedWithLoops(body, s, t, Size(body), Times(Trace(body, true), n));
    LeavingWithLoops(body, Rested(body, Ran(s, Size(body), Times(Trace(body, true), n))), t);
  }

  lemma AfterRan(s: State, body: Block, n: nat)
    ensures After(s, body, n).stack == s.stack && WithLoops(After(s, body, n), s) == After(s, body, n)
  {
    hide Left, Arms, Clears, Trace, Size, Times;
  }

  /** Iterations still to run, counting the current one. */
  function Iterations(count: nat, terminate: nat): (left: nat)
    ensures left >= 1
  {
    if count == 0 || terminate == 1 then 1
    else 1 + Iterations(count - 1, if terminate == 2 then 1 else terminate)
  }

  lemma {:induction false} IterationsCount(count: nat, terminate: nat)
    ensures terminate == 1 ==> Iterations(count, terminate) == 1
    ensures terminate == 2 ==> Iterations(count, terminate) == if count == 0 then 1 else 2
    ensures terminate == 0 ==> Iterations(count, terminate) == count + 1
  {
    if count > 0 {
      IterationsCount(count - 1, if terminate == 2 then 1 else terminate);
    }
  }

  lemma OnceIsWhole(trace: seq<nat>, steps: nat)
    ensures Times(trace, 1) == trace && Scaled(1, steps) == steps
  {
    assert Times(trace, 1) == trace + Times(trace, 0);
    assert Scaled(1, steps) == steps + Scaled(0, steps);
  }

  /** The outcome of the first item, then of the rest, is that of the block. */
  lemma OutcomeOfRest(b: Block, s: State, closes: bool)
    requires !b.Empty? && !(closes && b.rest.Empty?) && (closes ==> Clean(b))
    ensures Outcome(b.rest, Outcome(Item(b), s, false), closes) == Outcome(b, s, closes)
  {
    hide Trace, Size, Clean, Left, OpenLevels, Arms, Clears, Mirror, CompleteIteration, Rested;
    var next := Outcome(Item(b), s, false);
    ItemFirst(b, closes);
    RanTwice(s, b, closes);
    if closes {
      LastIsBehind(b);
    }
    OutcomeBehind(Item(b), s);
  }

  lemma RanRan(s: State, m: nat, first: seq<nat>, n: nat, second: seq<nat>)
    ensures Ran(Ran(s, m, first), n, second) == Ran(s, m + n, first + second)
  {
    assert s.trace + first + second == s.trace + (first + second);
  }

  lemma RanRested(b: Block, s: State, n: nat, trace: seq<nat>)
    ensures Ran(Rested(b, s), n, trace) == Rested(b, Ran(s, n, trace))
  {
    hide Arms, Clears;
  }

  lemma RanTwice(s: State, b: Block, closes: bool)
    requires !b.Empty? && !(closes && b.rest.Empty?)
    ensures Rested(b.rest, Ran(Outcome(Item(b), s, false), Size(b.rest), Trace(b.rest, closes)))
         == Rested(b, Ran(s, Size(b), Trace(b, closes)))
  {
    hide Trace, Size, Rested, Ran, StepCount, Left, OpenLevels, Mirror, CompleteIteration;
    ItemFirst(b, closes);
    RanRested(Item(b), Ran(s, Size(Item(b)), Trace(Item(b), false)), Size(b.rest), Trace(b.rest, closes));
    RanRan(s, Size(Item(b)), Trace(Item(b), false), Size(b.rest), Trace(b.rest, closes));
  }

  /** A block that may run leads to its outcome, and on the way control stays inside it. */
  lemma {:induction false} BlockRuns(program: Program, b: Block, s: State, closes: bool)
    requires Runnable(program, b, s, closes)
    ensures Reaches(program, s, StepCount(b, closes), Outcome(b, s, closes), s.pc, s.pc + Size(b))
    decreases b, 1, 0
  {
    hide Reaches, Runnable, Outcome, StepCount, Trace;
    if b.Empty? {
      EmptyRuns(program, s, closes);
    } else if closes && b.rest.Empty? {
      LastRuns(program, b, s);
    } else {
      var next := Outcome(Item(b), s, false);
      RestIsRunnable(program, b, s, closes);
      ItemFirst(b, closes);
      ClosingIsClean(program, b, s, closes);
      OutcomeOfRest(b, s, closes);
      ItemRuns(program, b, s);
      BlockRuns(program, b.rest, next, closes);
      ReachesWider(program, s, StepCount(Item(b), false), next, s.pc, s.pc + Size(Item(b)), s.pc, s.pc + Size(b));
      ReachesWider(program, next, StepCount(b.rest, closes), Outcome(b, s, closes), next.pc, next.pc + Size(b.rest),
                   s.pc, s.pc + Size(b));
      ReachesMore(program, s, StepCount(Item(b), false), next, StepCount(b.rest, closes), Outcome(b, s, closes),
                  s.pc, s.pc + Size(b));
    }
  }

  lemma ClosingIsClean(program: Program, b: Block, s: State, closes: bool)
    requires Runnable(program, b, s, closes)
    ensures closes ==> Clean(b)
  {
  }

  lemma EmptyRuns(program: Program, s: State, closes: bool)
    requires Runnable(program, Empty, s, closes)
    ensures Reaches(program, s, StepCount(Empty, closes), Outcome(Empty, s, closes), s.pc, s.pc + Size(Empty))
  {
    assert s.trace + [] == s.trace;
  }

  lemma {:induction false} ItemRuns(program: Program, b: Block, s: State)
    requires !b.Empty? && Runnable(program, Item(b), s, false)
    ensures Reaches(program, s, StepCount(Item(b), false), Outcome(Item(b), s, false), s.pc, s.pc + Size(Item(b)))
    decreases b, 0, 0
  {
    hide Reaches, Step, Steps;
    match b
    case One(tag, _) =>
      PlainStep(program, s, tag);
      ReachesOne(program, s, s.pc, s.pc + 2);
      OneOutcome(tag, s, false);
    case Repeated(count, tag, _) =>
      RepeatedRuns(program, count, tag, s);
    case Loop(count, body, _) =>
      LoopParts(program, count, body, s, false);
      LoopLeaves(program, count, body, s);
      LoopItemRuns(program, count, body, s);
  }

  lemma OneOutcome(tag: nat, s: State, closes: bool)
    ensures StepCount(One(tag, Empty), closes) == 1 && Size(One(tag, Empty)) == 2 && Left(One(tag, Empty)) == Some(0)
    ensures Trace(One(tag, Empty), closes) == [tag] && Rested(One(tag, Empty), s) == s
  {
    assert StepCount(Empty, closes) == 0 && Trace(Empty, closes) == [] && !Arms(Empty) && !Clears(Empty) && Size(Empty) == 0;
  }

  lemma RepeatedOutcome(count: nat, tag: nat, s: State, closes: bool)
    ensures var b := Repeated(count, tag, Empty);
            var n := if closes then 1 else count + 1;
            && StepCount(b, closes) == 1 + n && Size(b) == 4 && Left(b) == Some(count) && Trace(b, closes) == Times([tag], n)
            && Rested(b, s) == if count > 0 then s.(repeatPc := None, rcount := 0, repeatBit := false) else s.(rcount := 0)
  {
    var b := Repeated(count, tag, Empty);
    assert StepCount(Empty, closes) == 0 && Trace(Empty, closes) == [] && !Arms(Empty) && !Clears(Empty) && Size(Empty) == 0;
    assert Times([tag], if closes then 1 else count + 1) + [] == Times([tag], if closes then 1 else count + 1);
  }

  lemma RepeatedRuns(program: Program, count: nat, tag: nat, s: State)
    requires Runnable(program, Repeated(count, tag, Empty), s, false)
    ensures var b := Repeated(count, tag, Empty);
            Reaches(program, s, StepCount(b, false), Outcome(b, s, false), s.pc, s.pc + Size(b))
  {
    hide Reaches, Step, Steps, Times, Runnable, Rested, StepCount, Trace, Size, Left, OpenLevels, CompleteIteration;
    RepeatedOutcome(count, tag, Ran(s, 4, Times([tag], count + 1)), false);
    RepeatedParts(program, count, tag, s, false);
    var armed := Step(program, s);
    RepeatStep(program, s, count);
    ReachesOne(program, s, s.pc, s.pc + 4);
    var t := Outcome(Repeated(count, tag, Empty), s, false);
    if count == 0 {
      PlainStep(program, armed, tag);
      ReachesOne(program, armed, s.pc, s.pc + 4);
      OnceIsWhole([tag], 0);
    } else {
      PendingRuns(program, s, s.pc + 2, count + 1, tag);
      ReachesWider(program, armed, count + 1, t, s.pc + 2, s.pc + 4, s.pc, s.pc + 4);
    }
    ReachesMore(program, s, 1, armed, count + 1, t, s.pc, s.pc + 4);
  }

  lemma RepeatedParts(program: Program, count: nat, tag: nat, s: State, closes: bool)
    requires Runnable(program, Repeated(count, tag, Empty), s, closes)
    ensures s.pc in program && program[s.pc] == Repeat(count) && s.pc + 2 in program && program[s.pc + 2] == Plain(tag)
    ensures s.repeatPc != Some(s.pc) && !EndsAt(s, s.pc) && (EndsAt(s, s.pc + 2) <==> closes)
    ensures count == 0 ==> s.repeatPc != Some(s.pc + 2)
  {
    hide Mirror;
    assert Size(Empty) == 0;
  }

  /** What a loop needs to be entered. */
  ghost predicate Enterable(program: Program, count: nat, body: Block, s: State) {
    && Shown(s) && |s.stack| < DO_LEVELS && !body.Empty? && Clean(body)
    && s.pc in program && program[s.pc] == Do(count, s.pc + 2 + Size(body)) && Placed(program, body, s.pc + 4)
    && (count == 0 && s.stack != [] ==> ZeroCountWorkaround(program, Top(s).start, s.pc + 4))
    && WellFormed(program, body, s.pc + 4, |s.stack| + 1, s.pc + 4)
    && (Elsewhere(s, 4 + Size(body)) || (EndsArmed(body) && s.repeatPc == Some(s.pc + 2 + Size(body))))
  }

  lemma LoopParts(program: Program, count: nat, body: Block, s: State, closes: bool)
    requires Runnable(program, Loop(count, body, Empty), s, closes)
    ensures Enterable(program, count, body, s)
    ensures s.pc + 2 + Size(body) in program && program[s.pc + 2 + Size(body)] == Plain(LastTag(body))
    ensures EndsAt(s, s.pc + 2 + Size(body)) <==> closes
    ensures !closes ==> Left(body).Some?
  {
    hide Mirror, ZeroCountWorkaround;
    assert Size(Empty) == 0;
    LastIsPlaced(program, body, s.pc + 4, |s.stack| + 1, s.pc + 4);
  }

  lemma {:induction false} LastIsPlaced(program: Program, b: Block, address: nat, depth: nat, outerStart: nat)
    requires !b.Empty? && Placed(program, b, address) && WellFormed(program, b, address, depth, outerStart)
    ensures Size(b) >= 2 && address + Size(b) - 2 in program && program[address + Size(b) - 2] == Plain(LastTag(b))
  {
    hide ZeroCountWorkaround;
    match b
    case One(_, rest) =>
      if !rest.Empty? {
        LastIsPlaced(program, rest, address + 2, depth, outerStart);
      }
    case Repeated(_, _, rest) =>
      if !rest.Empty? {
        LastIsPlaced(program, rest, address + 4, depth, outerStart);
      }
    case Loop(_, body, rest) =>
      LastIsPlaced(program, body, address + 4, depth + 1, address + 4);
      if !rest.Empty? {
        LastIsPlaced(program, rest, address + 4 + Size(body), depth, outerStart);
      }
  }

  lemma LoopCounts(count: nat, body: Block, s: State, closes: bool)
    ensures var b, tail := Loop(count, body, Empty), Tail(body, closes);
            && StepCount(b, closes) == 1 + RoundSteps(count, body) + tail && Size(b) == 4 + Size(body)
            && Trace(b, closes) == Rounds(count, body) + Times([LastTag(body)], tail)
            && Rested(b, s) == Rested(body, s)
            && Left(b) == if Remaining(body) > 0 then Some(Remaining(body) - 1) else None
  {
    var tail := Tail(body, closes);
    assert StepCount(Empty, closes) == 0 && Trace(Empty, closes) == [] && !Arms(Empty) && !Clears(Empty) && Size(Empty) == 0;
    assert Rounds(count, body) + Times([LastTag(body)], tail) + [] == Rounds(count, body) + Times([LastTag(body)], tail);
  }

  /** The repetitions that a loop leaves behind run, unless it stands at the end of another one. */
  lemma LoopItemRuns(program: Program, count: nat, body: Block, s: State)
    requires Runnable(program, Loop(count, body, Empty), s, false)
    requires Reaches(program, s, 1 + RoundSteps(count, body), LoopOutcome(count, body, s), s.pc, s.pc + 4 + Size(body))
    ensures var b := Loop(count, body, Empty);
            Reaches(program, s, StepCount(b, false), Outcome(b, s, false), s.pc, s.pc + Size(b))
  {
    hide Reaches, Runnable, Enterable, Times, Rounds, RoundSteps, StepCount, Trace, Size, Left, EndsArmed, LastTag, Opened,
         OpenLevels, EndsAt, CompleteIteration, Remaining, Rested;
    LoopParts(program, count, body, s, false);
    LoopCounts(count, body, Ran(s, 4 + Size(body), Trace(Loop(count, body, Empty), false)), false);
    LeftIsArmed(body);
    RestedBehind(body, s, 4 + Size(body), Rounds(count, body), Times([LastTag(body)], Remaining(body)));
    var behind := Rested(body, Ran(s, 4 + Size(body), Rounds(count, body)));
    var end, r := s.pc + 2 + Size(body), Remaining(body);
    var t := Outcome(Loop(count, body, Empty), s, false);
    if r == 0 {
      NoTimes(LastTag(body));
      assert s.trace + (Rounds(count, body) + []) == s.trace + Rounds(count, body);
    } else {
      EndsAlike(body, s, 4 + Size(body), Rounds(count, body), end);
      PendingRuns(program, behind, end, r, LastTag(body));
      var last := Times([LastTag(body)], r);
      assert s.trace + Rounds(count, body) + last == s.trace + (Rounds(count, body) + last);
      ReachesWider(program, Pending(behind, end, r), r, t, end, end + 2, s.pc, s.pc + 4 + Size(body));
      ReachesMore(program, s, 1 + RoundSteps(count, body), Pending(behind, end, r), r, t, s.pc, s.pc + 4 + Size(body));
    }
  }

  lemma RestedBehind(body: Block, s: State, n: nat, first: seq<nat>, second: seq<nat>)
    ensures var behind := Rested(body, Ran(s, n, first));
            && behind.pc == s.pc + n && behind.trace == s.trace + first && behind.stack == s.stack
            && behind.(trace := s.trace + first + second) == Rested(body, Ran(s, n, first + second))
            && (Arms(body) ==> behind == behind.(repeatPc := None, rcount := 0, repeatBit := false))
  {
    hide Arms, Clears;
    assert s.trace + first + second == s.trace + (first + second);
  }

  lemma EndsAlike(body: Block, s: State, n: nat, trace: seq<nat>, address: nat)
    ensures EndsAt(Rested(body, Ran(s, n, trace)), address) == EndsAt(s, address)
  {
    hide Arms, Clears;
  }

  lemma NoTimes(tag: nat)
    ensures Times([tag], 0) == []
  {
  }

  /** The last item of a loop body completes an iteration, if it has a repetition of its end for that. */
  lemma {:induction false} LastRuns(program: Program, b: Block, s: State)
    requires !b.Empty? && b.rest.Empty? && Runnable(program, b, s, true)
    ensures Reaches(program, s, StepCount(b, true), Outcome(b, s, true), s.pc, s.pc + Size(b))
    decreases b, 0, 0
  {
    hide Reaches, Runnable, Outcome, StepCount, Trace, Size, Enterable, LoopOutcome, RoundSteps;
    match b
    case One(tag, _) => LastOneRuns(program, tag, s);
    case Repeated(count, tag, _) => LastRepeatedRuns(program, count, tag, s);
    case Loop(count, body, _) =>
      LoopParts(program, count, body, s, true);
      LoopLeaves(program, count, body, s);
      LastLoopRuns(program, count, body, s);
  }

  lemma LastOneRuns(program: Program, tag: nat, s: State)
    requires Runnable(program, One(tag, Empty), s, true)
    ensures var b := One(tag, Empty); Reaches(program, s, StepCount(b, true), Outcome(b, s, true), s.pc, s.pc + Size(b))
  {
    hide Reaches, Step, Steps, Mirror, CompleteIteration;
    assert !EndsArmed(Empty);
    OneOutcome(tag, Ran(s, 2, [tag]), true);
    PlainStep(program, s, tag);
    ReachesOne(program, s, s.pc, s.pc + 2);
  }

  lemma LastRepeatedRuns(program: Program, count: nat, tag: nat, s: State)
    requires Runnable(program, Repeated(count, tag, Empty), s, true)
    ensures var b := Repeated(count, tag, Empty); Reaches(program, s, StepCount(b, true), Outcome(b, s, true), s.pc, s.pc + Size(b))
  {
    hide Reaches, Step, Steps, Times, Runnable, Rested, StepCount, Trace, CompleteIteration, Size, Left, OpenLevels, Mirror;
    RunnableIsShown(program, Repeated(count, tag, Empty), s);
    RepeatedOutcome(count, tag, Ran(s, 4, Times([tag], 1)), true);
    RepeatedParts(program, count, tag, s, true);
    var armed := Step(program, s);
    RepeatStep(program, s, count);
    ReachesOne(program, s, s.pc, s.pc + 4);
    OnceIsWhole([tag], 0);
    if count == 0 {
      PlainStep(program, armed, tag);
    } else {
      PendingStep(program, s, s.pc + 2, count + 1, tag);
    }
    ReachesOne(program, armed, s.pc, s.pc + 4);
    ReachesMore(program, s, 1, armed, 1, Step(program, armed), s.pc, s.pc + 4);
  }

  lemma LastLoopRuns(program: Program, count: nat, body: Block, s: State)
    requires Runnable(program, Loop(count, body, Empty), s, true)
    requires Reaches(program, s, 1 + RoundSteps(count, body), LoopOutcome(count, body, s), s.pc, s.pc + 4 + Size(body))
    ensures var b := Loop(count, body, Empty); Reaches(program, s, StepCount(b, true), Outcome(b, s, true), s.pc, s.pc + Size(b))
  {
    hide Reaches, Runnable, Enterable, Times, Rounds, RoundSteps, StepCount, Trace, Size, Left, EndsArmed, LastTag,
         CompleteIteration, Mirror, Rested, Opened, OpenLevels, EndsAt, Shown, Remaining, Arms;
    LoopParts(program, count, body, s, true);
    LoopCounts(count, body, Ran(s, 4 + Size(body), Trace(Loop(count, body, Empty), true)), true);
    LeftIsArmed(body);
    RunnableIsShown(program, Loop(count, body, Empty), s);
    RestedBehind(body, s, 4 + Size(body), Rounds(count, body), [LastTag(body)]);
    EndsAlike(body, s, 4 + Size(body), Rounds(count, body), s.pc + 2 + Size(body));
    LastLeaves(count, body);
    var behind := Rested(body, Ran(s, 4 + Size(body), Rounds(count, body)));
    var end, r := s.pc + 2 + Size(body), Remaining(body);
    if r == 0 {
      NoTimes(LastTag(body));
      assert s.trace + (Rounds(count, body) + []) == s.trace + Rounds(count, body);
      StuckOutcome(count, body, s);
    } else {
      OnceIsWhole([LastTag(body)], 0);
      assert s.trace + Rounds(count, body) + [LastTag(body)] == s.trace + (Rounds(count, body) + [LastTag(body)]);
      PendingStep(program, behind, end, r, LastTag(body));
      ReachesOne(program, Pending(behind, end, r), s.pc, s.pc + 4 + Size(body));
      ReachesMore(program, s, 1 + RoundSteps(count, body), Pending(behind, end, r), 1, Step(program, Pending(behind, end, r)),
                  s.pc, s.pc + 4 + Size(body));
    }
  }

  lemma LastLeaves(count: nat, body: Block)
    ensures Remaining(Loop(count, body, Empty)) == if Remaining(body) > 0 then Remaining(body) - 1 else 0
    ensures Remaining(body) > 0 ==> Left(body).Some?
  {
  }

  lemma RunnableIsShown(program: Program, b: Block, s: State)
    requires Runnable(program, b, s, true)
    ensures Shown(s) && s.stack != []
  {
  }

  lemma StuckOutcome(count: nat, body: Block, s: State)
    requires Shown(s) && s.stack != [] && Remaining(body) == 0
    ensures LoopOutcome(count, body, s) == Opened(Rested(body, Ran(s, 4 + Size(body), Rounds(count, body))),
                                                  OpenLevels(Loop(count, body, Empty), s.pc))
  {
    hide Rounds, Size, Rested, Ran, Shown, Opened;
    if Left(body).Some? {
      RanShown(body, s, 4 + Size(body), Rounds(count, body));
      OpenedNothing(Rested(body, Ran(s, 4 + Size(body), Rounds(count, body))));
    }
  }

  lemma RanShown(body: Block, s: State, n: nat, trace: seq<nat>)
    requires Shown(s)
    ensures Shown(Rested(body, Ran(s, n, trace)))
  {
    hide Arms, Clears, Shown;
    ShownAlike(s, Rested(body, Ran(s, n, trace)));
  }

  lemma OpenedNothing(s: State)
    requires Shown(s)
    ensures Opened(s, []) == s
  {
    assert s.stack + [] == s.stack;
  }

  lemma {:induction false} LoopLeaves(program: Program, count: nat, body: Block, s: State)
    requires Enterable(program, count, body, s)
    ensures Reaches(program, s, 1 + RoundSteps(count, body), LoopOutcome(count, body, s), s.pc, s.pc + 4 + Size(body))
    decreases body, 3, 0
  {
    hide Reaches, Step, Steps, RoundSteps, StepCount, Trace, Rounds, Mirror, LoopEnded, LoopOutcome, Iterations, Runnable, Outcome;
    var entered := Entered(s, count, s.pc + 2 + Size(body));
    EnteredAtStart(program, count, body, s);
    ReachesOne(program, s, s.pc, s.pc + 4 + Size(body));
    var t := LoopOutcome(count, body, s);
    if Left(body).Some? {
      LoopRuns(program, body, entered);
      IterationsCount(count, 0);
      EnteredEnded(s, count, body);
    } else {
      BlockRuns(program, body, entered, true);
      EnteredOpened(s, count, body);
    }
    RoundCounts(count, body);
    ReachesWider(program, entered, RoundSteps(count, body), t, s.pc + 4, s.pc + 4 + Size(body), s.pc, s.pc + 4 + Size(body));
    ReachesMore(program, s, 1, entered, RoundSteps(count, body), t, s.pc, s.pc + 4 + Size(body));
  }

  lemma RoundCounts(count: nat, body: Block)
    ensures RoundSteps(count, body)
         == if Left(body).Some? then Scaled(count + 1, StepCount(body, true)) else StepCount(body, true)
    ensures Rounds(count, body) == if Left(body).Some? then Times(Trace(body, true), count + 1) else Trace(body, true)
  {
  }

  lemma EnteredAtStart(program: Program, count: nat, body: Block, s: State)
    requires Enterable(program, count, body, s)
    ensures var entered := Entered(s, count, s.pc + 2 + Size(body));
            && Step(program, s) == entered && AtStart(program, body, entered) && entered.pc == s.pc + 4
            && Top(entered) == Level(s.pc + 4, s.pc + 2 + Size(body), count, 0)
  {
    hide Mirror, ZeroCountWorkaround, Placed, WellFormed, Clean, Size, Step;
    DoStep(program, s, count, s.pc + 2 + Size(body));
  }

  /** Leaving a loop restores the registers of the loop around it. */
  lemma EnteredEnded(s: State, count: nat, body: Block)
    requires Shown(s) && Left(body).Some?
    ensures LoopEnded(Entered(s, count, s.pc + 2 + Size(body)), body, count + 1) == LoopOutcome(count, body, s)
  {
    hide Trace, Rounds, Size, Times, Left, Leaving, Rested, Ran, After, Shown, Mirror;
    RoundCounts(count, body);
    var end := s.pc + 2 + Size(body);
    var entered, moved := Entered(s, count, end), s.(pc := s.pc + 4);
    assert entered == WithLoops(moved, entered);
    AfterWithLoops(moved, entered, body, count + 1);
    var t := After(moved, body, count + 1);
    AfterRan(moved, body, count + 1);
    MovedIsRan(s, body, count + 1);
    ShownWithLoops(s, t);
    assert entered.stack[..|entered.stack| - 1] == s.stack;
    MirrorRestores(t, WithLoops(t, entered).(stack := s.stack));
  }

  lemma MovedIsRan(s: State, body: Block, n: nat)
    ensures After(s.(pc := s.pc + 4), body, n)
         == Leaving(body, Rested(body, Ran(s, 4 + Size(body), Times(Trace(body, true), n))))
  {
    hide Trace, Size, Times, Leaving, Rested, Ran;
    MovedRan(s);
    RanRan(s, 4, [], Size(body), Times(Trace(body, true), n));
    assert [] + Times(Trace(body, true), n) == Times(Trace(body, true), n);
  }

  lemma MovedRan(s: State)
    ensures s.(pc := s.pc + 4) == Ran(s, 4, [])
  {
    assert s.trace + [] == s.trace;
  }

  lemma ShownWithLoops(s: State, t: State)
    requires Shown(s) && WithLoops(t, s) == t
    ensures Shown(t)
  {
  }

  lemma MirrorRestores(s: State, t: State)
    requires Shown(s) && t == s.(dostart := t.dostart, doend := t.doend, dcount := t.dcount, depthField := t.depthField,
                                 active := true)
    ensures Mirror(t) == s
  {
  }

  lemma EnteredOpened(s: State, count: nat, body: Block)
    requires Left(body).None?
    ensures Outcome(body, Entered(s, count, s.pc + 2 + Size(body)), true) == LoopOutcome(count, body, s)
  {
    hide Trace, Rounds, Size, Times, OpenLevels, Rested, Ran, Opened, Left;
    RoundCounts(count, body);
    var entered, moved := Entered(s, count, s.pc + 2 + Size(body)), s.(pc := s.pc + 4);
    assert entered == WithLoops(moved, entered);
    RestedWithLoops(body, moved, entered, Size(body), Trace(body, true));
    MovedRan(s);
    RanRan(s, 4, [], Size(body), Trace(body, true));
    assert [] + Trace(body, true) == Trace(body, true);
    var behind := Rested(body, Ran(s, 4 + Size(body), Trace(body, true)));
    RestedStack(body, s);
    OpenedTwice(behind, entered, [Level(s.pc + 4, s.pc + 2 + Size(body), count, 0)], OpenLevels(body, s.pc + 4));
  }

  lemma RestedStack(body: Block, s: State)
    ensures Rested(body, Ran(s, 4 + Size(body), Trace(body, true))).stack == s.stack
  {
    hide Trace, Size, Arms, Clears;
  }

  lemma OpenedTwice(s: State, entered: State, first: seq<Level>, second: seq<Level>)
    requires first != [] && entered.stack == s.stack + first && entered.active
    ensures Opened(WithLoops(s, entered), second) == Opened(s, first + second)
  {
    assert s.stack + first + second == s.stack + (first + second);
  }

  /** A loop at the start of an iteration runs its body for as many iterations as are left, then leaves. */
  lemma {:induction false} LoopRuns(program: Program, body: Block, s: State)
    requires AtStart(program, body, s) && Left(body).Some?
    ensures var n := Iterations(Top(s).count, Top(s).terminate);
            Reaches(program, s, Scaled(n, StepCount(body, true)), LoopEnded(s, body, n), s.pc, s.pc + Size(body))
    decreases body, 2, Top(s).count
  {
    hide Reaches, StepCount, Runnable, CompleteIteration, LoopEnded, Outcome, Trace;
    RunnableIsShown(program, body, s);
    BlockRuns(program, body, s, true);
    var n := Iterations(Top(s).count, Top(s).terminate);
    var next := Outcome(body, s, true);
    IterationEnds(program, body, s);
    OnceIsWhole([], StepCount(body, true));
    if n > 1 {
      LoopRuns(program, body, next);
      ReachesMore(program, s, StepCount(body, true), next, Scaled(n - 1, StepCount(body, true)), LoopEnded(s, body, n),
                  s.pc, s.pc + Size(body));
    }
  }

  /** The loop goes back to its start, with one iteration less to run, or it is left. */
  lemma IterationEnds(program: Program, body: Block, s: State)
    requires AtStart(program, body, s) && Left(body).Some?
    ensures var next := Outcome(body, s, true);
            && next == CompleteIteration(After(s, body, 1))
            && if Top(s).count > 0 && Top(s).terminate != 1 then
                 AtStart(program, body, next) && next.pc == s.pc
                 && Top(next) == Level(s.pc, Top(s).end, Top(s).count - 1, if Top(s).terminate == 2 then 1 else Top(s).terminate)
                 && forall n: nat :: LoopEnded(next, body, n) == LoopEnded(s, body, n + 1)
               else next == LoopEnded(s, body, 1)
  {
    hide Trace, Placed, WellFormed, Clean, Size, Left, Times, EndsArmed, LoopEnded, After, CompleteIteration, OpenLevels, Opened,
         Rested, Runnable;
    RunnableIsShown(program, body, s);
    AfterOnce(program, body, s);
    AfterRan(s, body, 1);
    var next := Outcome(body, s, true);
    if Top(s).count > 0 && Top(s).terminate != 1 {
      NextAtStart(program, body, s);
      forall n: nat ensures LoopEnded(next, body, n) == LoopEnded(s, body, n + 1) {
        LoopEndsAlike(s, body, n);
      }
    } else {
      LoopEndsNow(s, body);
    }
  }

  lemma AfterOnce(program: Program, body: Block, s: State)
    requires Runnable(program, body, s, true) && Left(body).Some?
    ensures s.stack != [] && After(s, body, 1).stack == s.stack && Outcome(body, s, true) == CompleteIteration(After(s, body, 1))
  {
    hide Trace, Placed, WellFormed, Clean, Size, Times, EndsArmed, CompleteIteration, OpenLevels, Opened, Rested, Leaving, Ran;
    OnceIsWhole(Trace(body, true), 0);
    AfterRan(s, body, 1);
  }

  lemma AfterRepeat(s: State, body: Block, n: nat)
    ensures var t := After(s, body, n);
            t.repeatPc == s.repeatPc || t.repeatPc == None || (EndsArmed(body) && t.repeatPc == Some(s.pc + Size(body) - 2))
  {
    hide Trace, Times, Left, Remaining, Arms, Clears, EndsArmed, Size;
    LeftIsArmed(body);
  }

  lemma NextAtStart(program: Program, body: Block, s: State)
    requires AtStart(program, body, s) && Top(s).count > 0 && Top(s).terminate != 1
    ensures var next := CompleteIteration(After(s, body, 1));
            && next.stack != [] && AtStart(program, body, next) && next.pc == s.pc
            && Top(next) == Level(s.pc, Top(s).end, Top(s).count - 1, if Top(s).terminate == 2 then 1 else Top(s).terminate)
  {
    hide Placed, WellFormed, Clean, Size, EndsArmed, After, Shown;
    AfterRan(s, body, 1);
    AfterRepeat(s, body, 1);
    NextIsShown(s, After(s, body, 1));
  }

  lemma NextIsShown(s: State, t: State)
    requires Shown(s) && WithLoops(t, s) == t && s.stack != [] && Top(s).count > 0 && Top(s).terminate != 1
    ensures t.stack != [] && Shown(CompleteIteration(t))
  {
  }

  lemma LoopEndsNow(s: State, body: Block)
    requires s.stack != [] && (Top(s).count == 0 || Top(s).terminate == 1)
    ensures CompleteIteration(After(s, body, 1)) == LoopEnded(s, body, 1)
  {
    hide After, Mirror;
    AfterRan(s, body, 1);
  }

  /** Only the levels below, the program counter, the trace and the repetitions show once a loop is left. */
  lemma LoopEndsAlike(s: State, body: Block, n: nat)
    requires s.stack != [] && Top(s).count > 0 && Top(s).terminate != 1 && Top(s).start == s.pc
    ensures CompleteIteration(After(s, body, 1)).stack != []
    ensures LoopEnded(CompleteIteration(After(s, body, 1)), body, n) == LoopEnded(s, body, n + 1)
  {
    hide After, Mirror, CompleteIteration;
    AfterRan(s, body, 1);
    var next := CompleteIteration(After(s, body, 1));
    NextIsRan(s, body);
    AfterWithLoops(After(s, body, 1).(pc := s.pc), next, body, n);
    AfterAfter(s, body, n);
    AfterRan(s, body, n + 1);
    var t := After(s, body, n + 1);
    assert LoopEnded(next, body, n) == Mirror(WithLoops(t, next).(stack := next.stack[..|next.stack| - 1]));
    PoppedAlike(s, next, t);
  }

  lemma NextIsRan(s: State, body: Block)
    requires s.stack != [] && Top(s).count > 0 && Top(s).terminate != 1 && Top(s).start == s.pc
    ensures var next := CompleteIteration(After(s, body, 1));
            && next == WithLoops(After(s, body, 1).(pc := s.pc), next)
            && |next.stack| == |s.stack| && next.stack[..|s.stack| - 1] == s.stack[..|s.stack| - 1]
            && next == After(s, body, 1).(pc := s.pc, stack := next.stack, dcount := next.dcount)
  {
    hide After, Mirror;
    AfterRan(s, body, 1);
  }

  lemma PoppedAlike(s: State, next: State, t: State)
    requires |s.stack| == |next.stack| > 0 && next.stack[..|s.stack| - 1] == s.stack[..|s.stack| - 1]
    requires next == next.(dostart := s.dostart, doend := s.doend, depthField := s.depthField, active := s.active)
    requires WithLoops(t, s) == t
    ensures Mirror(WithLoops(t, next).(stack := next.stack[..|next.stack| - 1]))
         == Mirror(t.(stack := s.stack[..|s.stack| - 1]))
  {
  }

  /** `n` iterations more, from the start of the body. */
  lemma AfterAfter(s: State, body: Block, n: nat)
    ensures After(After(s, body, 1).(pc := s.pc), body, n) == After(s, body, n + 1)
  {
    hide Trace, Size, Arms, Clears, Left, Remaining, EndsArmed, Times, Rested, Ran;
    LeftIsArmed(body);
    var trace := Trace(body, true);
    OnceIsWhole(trace, 0);
    OneMore(trace, n);
    var u := Rested(body, Ran(s, Size(body), trace));
    RestedLeaving(body, u, s.pc, Size(body), Times(trace, n));
    RestedTwice(body, s, Size(body), trace, Times(trace, n));
  }

  lemma OneMore(trace: seq<nat>, n: nat)
    ensures Times(trace, n + 1) == trace + Times(trace, n)
  {
  }

  /** Repetitions cut short do not matter behind a REPEAT that is run again. */
  lemma RestedLeaving(body: Block, u: State, pc: nat, n: nat, trace: seq<nat>)
    requires Remaining(body) > 0 ==> Arms(body)
    ensures Rested(body, Ran(Leaving(body, u).(pc := pc), n, trace)) == Rested(body, Ran(u.(pc := pc), n, trace))
  {
    hide Arms, Clears, Remaining;
  }

  lemma RestedTwice(body: Block, s: State, n: nat, first: seq<nat>, second: seq<nat>)
    ensures Rested(body, Ran(Rested(body, Ran(s, n, first)).(pc := s.pc), n, second))
         == Rested(body, Ran(s, n, first + second))
  {
    hide Arms, Clears;
    assert s.trace + first + second == s.trace + (first + second);
  }
}
