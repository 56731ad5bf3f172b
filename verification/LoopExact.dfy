/**
Exactly when structured code runs as it is written: for every block, for each way in which the last
instruction of a loop may be repeated or shared with other loops.
*/
module LoopExact {
  import opened Wrappers
  import opened DoLoop
  import opened LoopCode
  import Division

  // ---------------------------------------------------------------------------------------
  // When the instructions run are those of the text
  // ---------------------------------------------------------------------------------------

  /** In each loop the repetitions of its end are used up when it goes back to its start, or it never does. */
  predicate Exact(b: Block) {
    match b
    case Empty => true
    case One(_, rest) => Exact(rest)
    case Repeated(_, _, rest) => Exact(rest)
    case Loop(count, body, rest) => Exact(body) && (count == 0 || Remaining(body) == 0) && Exact(rest)
  }

  lemma {:induction false} TimesLength(trace: seq<nat>, n: nat)
    ensures |Times(trace, n)| == n * |trace|
  {
    if n > 0 {
      TimesLength(trace, n - 1);
      Division.Distributes(n - 1, 1, |trace|);
    }
  }

  lemma {:induction false} TimesAdd(trace: seq<nat>, m: nat, n: nat)
    ensures Times(trace, m + n) == Times(trace, m) + Times(trace, n)
  {
    if m == 0 {
      assert [] + Times(trace, n) == Times(trace, n);
    } else {
      TimesAdd(trace, m - 1, n);
      assert trace + (Times(trace, m - 1) + Times(trace, n)) == trace + Times(trace, m - 1) + Times(trace, n);
    }
  }

  /** The lengths of `n` rounds that leave `left` repetitions at the end, and of `n` rounds in full. */
  lemma RoundsLength(n: nat, round: nat, left: nat, full: nat)
    requires n >= 1 && round + left <= full
    ensures n * round + left <= n * full
    ensures n * round + left == n * full <==> round + left == full && (n == 1 || left == 0)
  {
    Division.Distributes(n - 1, 1, full);
    Division.Distributes(n - 1, 1, round);
    if round < full && n > 1 {
      Division.MultipleIsLarge(full - round, n - 1);
      assert (n - 1) * full == (n - 1) * round + (full - round) * (n - 1);
      GapGrows(n - 1, full - round);
    } else {
      Division.Monotone(round, full, n - 1);
    }
  }

  lemma GapGrows(n: nat, gap: nat)
    requires n >= 1 && gap >= 1
    ensures gap * n >= gap && gap * n >= n
  {
    Division.Monotone(1, n, gap);
    Division.Monotone(1, gap, n);
  }

  lemma RoundsMatch(n: nat, round: seq<nat>, tag: nat, left: nat, full: seq<nat>)
    requires n >= 1 && |round| + left <= |full|
    ensures |Times(round, n)| + left <= |Times(full, n)|
    ensures |Times(round, n)| + left == |Times(full, n)| <==> |round| + left == |full| && (n == 1 || left == 0)
    ensures round + Times([tag], left) == full && (n == 1 || left == 0)
        ==> Times(round, n) + Times([tag], left) == Times(full, n)
  {
    TimesLength(round, n);
    TimesLength(full, n);
    RoundsLength(n, |round|, left, |full|);
    OnceIsWhole(round, 0);
    OnceIsWhole(full, 0);
    if left == 0 {
      assert round + [] == round && Times(round, n) + [] == Times(round, n);
    }
  }

  /** Where repetitions are still left, the block is not behind its last instruction yet. */
  function LeftOver(b: Block, closes: bool): nat {
    if closes then Remaining(b) else 0
  }

  predicate Leaves(b: Block, closes: bool) {
    if closes then Clean(b) && Left(b).Some? else Whole(b)
  }

  /** What `b` runs, with the repetitions left, is no more than the text says, and as much only if it is the same. */
  ghost predicate Follows(b: Block, closes: bool) {
    var left := LeftOver(b, closes);
    && |Trace(b, closes)| + left <= |Unrolled(b)|
    && (|Trace(b, closes)| + left == |Unrolled(b)| <==> Exact(b))
    && (Exact(b) ==> Trace(b, closes) + Times([LastTag(b)], left) == Unrolled(b))
  }

  lemma {:induction false} TraceFollows(b: Block, closes: bool)
    requires Leaves(b, closes)
    ensures Follows(b, closes)
    decreases b, 1
  {
    if b.Empty? {
      NoTimes(NOP);
    } else if b.rest.Empty? {
      LastFollows(b, closes);
    } else {
      PartsLeave(b, closes);
      LastFollows(b, false);
      TraceFollows(b.rest, closes);
      ItemThenRest(b, closes);
    }
  }

  lemma PartsLeave(b: Block, closes: bool)
    requires !b.Empty? && !b.rest.Empty? && Leaves(b, closes)
    ensures Leaves(Item(b), false) && Leaves(b.rest, closes)
  {
    LastIsBehind(b);
    if !closes {
      ItemIsWhole(b);
    }
  }

  lemma ItemUnrolls(b: Block)
    requires !b.Empty?
    ensures Unrolled(b) == Unrolled(Item(b)) + Unrolled(b.rest)
    ensures Exact(b) <==> Exact(Item(b)) && Exact(b.rest)
  {
    hide Times, Remaining;
    assert Unrolled(Empty) == [] && Exact(Empty);
    match b
    case Empty =>
    case One(tag, rest) => assert [tag] + [] + Unrolled(rest) == [tag] + Unrolled(rest);
    case Repeated(count, tag, rest) =>
      assert Times([tag], count + 1) + [] == Times([tag], count + 1);
    case Loop(count, body, rest) =>
      assert Times(Unrolled(body), count + 1) + [] == Times(Unrolled(body), count + 1);
  }

  lemma ItemThenRest(b: Block, closes: bool)
    requires !b.Empty? && !b.rest.Empty? && Follows(Item(b), false) && Follows(b.rest, closes)
    ensures Follows(b, closes)
  {
    hide Trace, Unrolled, Exact, Times, LastTag, Left, StepCount;
    ItemFirst(b, closes);
    ItemUnrolls(b);
    LastIsBehind(b);
    NoTimes(LastTag(Item(b)));
    var left := LeftOver(b, closes);
    assert Remaining(b) == Remaining(b.rest);
    assert Trace(Item(b), false) + [] == Trace(Item(b), false);
    var last := Times([LastTag(b)], left);
    assert Trace(Item(b), false) + Trace(b.rest, closes) + last == Trace(Item(b), false) + (Trace(b.rest, closes) + last);
  }

  lemma {:induction false} LastFollows(b: Block, closes: bool)
    requires !b.Empty? && Leaves(Item(b), closes)
    ensures Follows(Item(b), closes)
    decreases b, 0
  {
    match b
    case One(tag, _) => OneFollows(tag, closes);
    case Repeated(count, tag, _) => RepeatedFollows(count, tag, closes);
    case Loop(count, body, _) =>
      LoopBodyLeaves(count, body, closes);
      TraceFollows(body, true);
      LoopFollows(count, body, closes);
  }

  lemma OneFollows(tag: nat, closes: bool)
    ensures Follows(One(tag, Empty), closes)
  {
    OneOutcome(tag, DEFAULT, closes);
    NoTimes(tag);
    assert Unrolled(Empty) == [] && Exact(Empty);
    assert Unrolled(One(tag, Empty)) == [tag];
  }

  lemma RepeatedFollows(count: nat, tag: nat, closes: bool)
    ensures Follows(Repeated(count, tag, Empty), closes)
  {
    RepeatedOutcome(count, tag, DEFAULT, closes);
    var b, n := Repeated(count, tag, Empty), if closes then 1 else count + 1;
    assert Unrolled(Empty) == [] && Exact(Empty);
    assert Unrolled(b) == Times([tag], count + 1);
    hide Times;
    TimesLength([tag], n);
    TimesLength([tag], count + 1);
    TimesAdd([tag], n, LeftOver(b, closes));
  }

  lemma LoopBodyLeaves(count: nat, body: Block, closes: bool)
    requires Leaves(Loop(count, body, Empty), closes)
    ensures Leaves(body, true) && (closes ==> Remaining(body) > 0)
  {
  }

  /** The rounds of a loop with some of the repetitions behind them, and the others still left. */
  lemma RoundsAndTail(n: nat, round: seq<nat>, tag: nat, tail: nat, left: nat, full: seq<nat>)
    requires n >= 1 && |round| + (tail + left) <= |full|
    ensures var trace := Times(round, n) + Times([tag], tail);
            && |trace| + left <= |Times(full, n)|
            && (|trace| + left == |Times(full, n)| <==> |round| + (tail + left) == |full| && (n == 1 || tail + left == 0))
            && ((round + Times([tag], tail + left) == full && (n == 1 || tail + left == 0))
                ==> trace + Times([tag], left) == Times(full, n))
  {
    hide Times;
    RoundsMatch(n, round, tag, tail + left, full);
    TimesLength([tag], tail);
    TimesAdd([tag], tail, left);
    var rounds := Times(round, n);
    assert rounds + Times([tag], tail) + Times([tag], left) == rounds + (Times([tag], tail) + Times([tag], left));
  }

  lemma LoopFollows(count: nat, body: Block, closes: bool)
    requires Leaves(Loop(count, body, Empty), closes) && Follows(body, true)
    ensures Follows(Loop(count, body, Empty), closes)
  {
    hide Times, Trace, Unrolled, LastTag, Left, RoundSteps, StepCount, Rested, Exact, Leaves, Remaining, Rounds, Size;
    var b := Loop(count, body, Empty);
    LoopBodyLeaves(count, body, closes);
    BodyIsLeft(body);
    LoopCounts(count, body, DEFAULT, closes);
    RoundCounts(count, body);
    LoopUnrolls(count, body);
    LastLeaves(count, body);
    RoundsAndTail(count + 1, Trace(body, true), LastTag(body), Tail(body, closes), LeftOver(b, closes), Unrolled(body));
  }

  lemma BodyIsLeft(body: Block)
    ensures Leaves(body, true) ==> Left(body).Some?
  {
  }

  lemma LoopUnrolls(count: nat, body: Block)
    ensures var b := Loop(count, body, Empty);
            && Unrolled(b) == Times(Unrolled(body), count + 1) && LastTag(b) == LastTag(body)
            && (Exact(b) <==> Exact(body) && (count == 0 || Remaining(body) == 0))
  {
    hide Times, Remaining;
    assert Unrolled(Empty) == [] && Exact(Empty);
    assert Times(Unrolled(body), count + 1) + [] == Times(Unrolled(body), count + 1);
  }

  const DEFAULT: State := State(0, [], 0, 0, 0, 0, false, None, 0, false, false, false, [])

  /** A block that leaves its loops runs the instructions of its text exactly if it is exact. */
  lemma TraceIsUnrolledExactly(b: Block)
    requires Whole(b)
    ensures Trace(b, false) == Unrolled(b) <==> Exact(b)
  {
    hide Trace, Unrolled, Exact, LastTag;
    TraceFollows(b, false);
    NoTimes(LastTag(b));
    assert Trace(b, false) + [] == Trace(b, false);
  }

  // ---------------------------------------------------------------------------------------
  // A loop that is not left
  // ---------------------------------------------------------------------------------------

  /** Control is behind the end of level `k`, and the levels above it start behind its end as well. */
  ghost predicate Stuck(s: State, k: nat) {
    && k < |s.stack| && s.stack[k].end < s.pc
    && forall i :: k < i < |s.stack| ==> s.stack[i].start > s.stack[k].end
  }

  /** Whatever code comes, the level is never left. */
  lemma StepKeepsStuck(program: Program, s: State, k: nat)
    requires Stuck(s, k)
    ensures Stuck(Step(program, s), k)
  {
    hide Execute, RepeatTail, CompleteIteration;
    if s.pc in program {
      var t := RepeatTail(Execute(program, s, program[s.pc]), s.pc);
      ExecuteKeepsStuck(program, s, k);
      assert t.stack[k] == t.stack[..k + 1][k] == s.stack[..k + 1][k] == s.stack[k];
      if t.stack != [] && |t.stack| <= |s.stack| && s.pc == Top(t).end {
        CompletionKeepsStuck(t, s.pc, k);
      }
    }
  }

  lemma ExecuteKeepsStuck(program: Program, s: State, k: nat)
    requires Stuck(s, k) && s.pc in program
    ensures var t := RepeatTail(Execute(program, s, program[s.pc]), s.pc);
            Stuck(t, k) && t.stack[..k + 1] == s.stack[..k + 1] && t.pc >= s.pc
  {
    hide ExecuteDo, ExecuteRepeat;
    match program[s.pc]
    case Plain(_) =>
    case Do(count, end) => DoKeepsStuck(program, s, count, end, k);
    case Repeat(count) => RepeatMoves(s, count);
  }

  lemma DoKeepsStuck(program: Program, s: State, count: nat, end: nat, k: nat)
    requires Stuck(s, k)
    ensures var t := ExecuteDo(program, s, count, end);
            Stuck(t, k) && t.stack[..k + 1] == s.stack[..k + 1] && t.pc >= s.pc
  {
    hide ZeroCountWorkaround;
  }

  lemma RepeatMoves(s: State, count: nat)
    ensures ExecuteRepeat(s, count).stack == s.stack && ExecuteRepeat(s, count).pc == s.pc + 2
  {
  }

  lemma CompletionKeepsStuck(t: State, end: nat, k: nat)
    requires Stuck(t, k) && Top(t).end == end && t.stack[k].end < end
    ensures Stuck(CompleteIteration(t), k)
  {
    MirrorKeeps(t.(stack := t.stack[..|t.stack| - 1]));
    hide Mirror;
  }

  lemma MirrorKeeps(s: State)
    ensures Mirror(s).stack == s.stack && Mirror(s).pc == s.pc
  {
  }

  lemma {:induction false} StepsKeepStuck(program: Program, s: State, n: nat, k: nat)
    requires Stuck(s, k)
    ensures Stuck(Steps(program, s, n), k)
    decreases n
  {
    hide Step, Stuck;
    if n > 0 {
      StepKeepsStuck(program, s, k);
      StepsKeepStuck(program, Step(program, s), n - 1, k);
    }
  }

  /** Some level from the `depth`-th on is stuck after `n` steps between the bounds. */
  ghost predicate Sticks(program: Program, s: State, n: nat, depth: nat, low: nat, high: nat) {
    Within(program, s, n, low, high) && exists k :: k >= depth && Stuck(Steps(program, s, n), k)
  }

  lemma StuckLater(program: Program, s: State, m: nat, t: State, n: nat, depth: nat, low: nat, high: nat)
    requires Reaches(program, s, m, t, low, high) && Sticks(program, t, n, depth, low, high)
    ensures Sticks(program, s, m + n, depth, low, high)
  {
    hide Stuck, Step;
    ReachesMore(program, s, m, t, n, Steps(program, t, n), low, high);
  }

  lemma SticksWider(program: Program, s: State, n: nat, depth: nat, fewer: nat, low: nat, high: nat, lower: nat, higher: nat)
    requires Sticks(program, s, n, depth, low, high) && lower <= low && high <= higher && fewer <= depth
    ensures Sticks(program, s, n, fewer, lower, higher)
  {
    hide Stuck, Step;
    ReachesWider(program, s, n, Steps(program, s, n), low, high, lower, higher);
  }

  lemma PartsThatLeave(b: Block, closes: bool)
    requires !b.Empty? && !(closes && b.rest.Empty?)
    ensures Leaves(Item(b), false) && Leaves(b.rest, closes) ==> Leaves(b, closes)
  {
    assert Whole(Empty);
    if !b.rest.Empty? {
      LastIsBehind(b);
    }
  }

  /** A block with a loop that is not left gets stuck in it, in the first iteration of all loops around it. */
  lemma {:induction false} UnleftSticks(program: Program, b: Block, s: State, closes: bool) returns (n: nat)
    requires Standing(program, b, s, closes) && !Leaves(b, closes)
    ensures closes ==> s.stack != []
    ensures Sticks(program, s, n, if closes then |s.stack| - 1 else |s.stack|, s.pc, s.pc + Size(b))
    decreases b, 1
  {
    hide Standing, Sticks, Reaches, Leaves, Outcome, Size;
    EmptyLeaves(b, closes);
    StandingIsShown(program, b, s, closes);
    if closes && b.rest.Empty? {
      n := LastSticks(program, b, s);
    } else {
      ItemStands(program, b, s, closes);
      PartsThatLeave(b, closes);
      BlockSplits(b);
      var depth := if closes then |s.stack| - 1 else |s.stack|;
      if !Leaves(Item(b), false) {
        n := ItemSticks(program, b, s);
        SticksWider(program, s, n, |s.stack|, depth, s.pc, s.pc + Size(Item(b)), s.pc, s.pc + Size(b));
      } else {
        var next, m := Outcome(Item(b), s, false), StepCount(Item(b), false);
        LeavesIsRunnable(program, Item(b), s);
        BlockRuns(program, Item(b), s, false);
        n := UnleftSticks(program, b.rest, next, closes);
        ReachesWider(program, s, m, next, s.pc, s.pc + Size(Item(b)), s.pc, s.pc + Size(b));
        SticksWider(program, next, n, depth, depth, next.pc, next.pc + Size(b.rest), s.pc, s.pc + Size(b));
        StuckLater(program, s, m, next, n, depth, s.pc, s.pc + Size(b));
        n := m + n;
      }
    }
  }

  lemma EmptyLeaves(b: Block, closes: bool)
    ensures b.Empty? ==> Leaves(b, closes)
  {
  }

  lemma StandingIsShown(program: Program, b: Block, s: State, closes: bool)
    requires Standing(program, b, s, closes)
    ensures Shown(s) && (closes ==> s.stack != [] && Top(s).end + 2 == s.pc + Size(b))
  {
  }

  lemma BlockSplits(b: Block)
    requires !b.Empty?
    ensures Size(b) == Size(Item(b)) + Size(b.rest)
  {
    ItemFirst(b, false);
  }

  lemma LeavesIsRunnable(program: Program, b: Block, s: State)
    requires Standing(program, b, s, false) && Leaves(b, false)
    ensures Runnable(program, b, s, false)
  {
  }

  lemma {:induction false} ItemSticks(program: Program, b: Block, s: State) returns (n: nat)
    requires !b.Empty? && Standing(program, Item(b), s, false) && !Leaves(Item(b), false)
    ensures Sticks(program, s, n, |s.stack|, s.pc, s.pc + Size(Item(b)))
    decreases b, 0
  {
    hide Standing, Sticks, Size, Clean, Left;
    assert Whole(Empty);
    match b
    case Loop(count, body, _) => n := LoopSticks(program, count, body, s, false);
    case One(tag, _) => assert false;
    case Repeated(count, tag, _) => assert false;
  }

  lemma {:induction false} LastSticks(program: Program, b: Block, s: State) returns (n: nat)
    requires !b.Empty? && b.rest.Empty? && Standing(program, b, s, true) && !Leaves(b, true)
    ensures s.stack != [] && Sticks(program, s, n, |s.stack| - 1, s.pc, s.pc + Size(b))
    decreases b, 0
  {
    hide Standing, Sticks, Reaches, Size, StepCount, Outcome;
    StandingIsShown(program, b, s, true);
    assert Clean(Empty);
    match b
    case One(tag, _) => assert false;
    case Repeated(count, tag, _) => assert false;
    case Loop(count, body, _) =>
      if Clean(body) && Left(body).Some? {
        n := StepCount(b, true);
        LastRuns(program, b, s);
        LeftBehind(count, body, s);
        SticksNow(program, s, n, Outcome(b, s, true), s.pc, s.pc + Size(b));
      } else {
        n := LoopSticks(program, count, body, s, true);
        SticksWider(program, s, n, |s.stack|, |s.stack| - 1, s.pc, s.pc + Size(b), s.pc, s.pc + Size(b));
      }
  }

  lemma LeftBehind(count: nat, body: Block, s: State)
    requires Shown(s) && s.stack != [] && Left(body) == Some(0)
    ensures var b := Loop(count, body, Empty);
            Outcome(b, s, true).pc == s.pc + Size(b) && Outcome(b, s, true).stack == s.stack
  {
    hide Trace, Size, Arms, Clears, Mirror;
    var b := Loop(count, body, Empty);
    assert OpenLevels(b, s.pc) == [] && Left(b) == None;
    assert s.stack + [] == s.stack;
    var behind := Rested(b, Ran(s, Size(b), Trace(b, true)));
    MirrorKeeps(behind.(stack := behind.stack + [], active := behind.active || false));
  }

  lemma SticksNow(program: Program, s: State, n: nat, t: State, low: nat, high: nat)
    requires Reaches(program, s, n, t, low, high) && t.stack == s.stack != [] && Top(s).end < t.pc
    ensures Sticks(program, s, n, |s.stack| - 1, low, high)
  {
    hide Step;
    assert Stuck(t, |s.stack| - 1);
  }

  lemma {:induction false} LoopSticks(program: Program, count: nat, body: Block, s: State, closes: bool) returns (n: nat)
    requires Standing(program, Loop(count, body, Empty), s, closes) && !(Clean(body) && Left(body).Some?)
    ensures Sticks(program, s, n, |s.stack|, s.pc, s.pc + Size(Loop(count, body, Empty)))
    decreases body, 2
  {
    hide Standing, Sticks, Reaches, Size, Step;
    var entered := Entered(s, count, s.pc + 2 + Size(body));
    EnteredStands(program, count, body, s, closes);
    n := UnleftSticks(program, body, entered, true);
    var high := s.pc + Size(Loop(count, body, Empty));
    ReachesOne(program, s, s.pc, high);
    SticksWider(program, entered, n, |s.stack|, |s.stack|, entered.pc, entered.pc + Size(body), s.pc, high);
    StuckLater(program, s, 1, entered, n, |s.stack|, s.pc, high);
    n := 1 + n;
  }

  lemma EnteredStands(program: Program, count: nat, body: Block, s: State, closes: bool)
    requires Standing(program, Loop(count, body, Empty), s, closes)
    ensures var entered := Entered(s, count, s.pc + 2 + Size(body));
            && Step(program, s) == entered && Standing(program, body, entered, true) && entered.pc == s.pc + 4
            && |entered.stack| == |s.stack| + 1 && Size(Loop(count, body, Empty)) == 4 + Size(body)
  {
    hide Mirror, ZeroCountWorkaround, Step;
    assert Size(Empty) == 0;
    DoStep(program, s, count, s.pc + 2 + Size(body));
  }

  // ---------------------------------------------------------------------------------------
  // Exactly when code runs as it is written
  // ---------------------------------------------------------------------------------------

  /** Every loop is left, and goes round as its text says. */
  predicate AsWritten(b: Block) {
    Whole(b) && Exact(b)
  }

  /** After `n` steps control comes out behind the block, its text has run, and all else is as it was. */
  ghost predicate RunsAsWritten(program: Program, b: Block, s: State, n: nat) {
    Reaches(program, s, n, Ran(s, Size(b), Unrolled(b)), s.pc, s.pc + Size(b))
  }

  /** For every block of code: that happens if and only if every loop in it is left and is exact. */
  lemma RunsAsWrittenExactly(program: Program, b: Block, s: State)
    requires Ready(s) && Standing(program, b, s, false)
    ensures (exists n: nat :: RunsAsWritten(program, b, s, n)) <==> AsWritten(b)
  {
    hide Standing, Reaches, Size, Trace, Unrolled, Whole, Exact, StepCount, Sticks;
    var written := Ran(s, Size(b), Unrolled(b));
    if Whole(b) {
      var n := StepCount(b, false);
      BlockRuns(program, b, s, false);
      ReadyRests(b, s);
      TraceIsUnrolledExactly(b);
      assert Exact(b) ==> RunsAsWritten(program, b, s, n);
      if m: nat :| RunsAsWritten(program, b, s, m) {
        FirstExitIsUnique(program, s, m, written, n, Ran(s, Size(b), Trace(b, false)), s.pc, s.pc + Size(b));
        SameTrace(s, Size(b), Trace(b, false), Unrolled(b));
      }
    } else {
      var n := UnleftSticks(program, b, s, false);
      forall m: nat ensures !RunsAsWritten(program, b, s, m) {
        StuckIsNotWritten(program, s, n, m, written, s.pc, s.pc + Size(b));
      }
    }
  }

  lemma ReadyRests(b: Block, s: State)
    requires Ready(s)
    ensures Outcome(b, s, false) == Ran(s, Size(b), Trace(b, false))
  {
    hide Trace, Size, Arms, Clears, Mirror;
  }

  lemma SameTrace(s: State, size: nat, first: seq<nat>, second: seq<nat>)
    requires Ran(s, size, first) == Ran(s, size, second)
    ensures first == second
  {
    assert first == (s.trace + first)[|s.trace|..] == (s.trace + second)[|s.trace|..] == second;
  }

  /** Before control leaves the range it is not behind it, and once a level is stuck the stack is never as before. */
  lemma StuckIsNotWritten(program: Program, s: State, n: nat, m: nat, t: State, low: nat, high: nat)
    requires Sticks(program, s, n, |s.stack|, low, high) && t.stack == s.stack && t.pc >= high
    ensures !Reaches(program, s, m, t, low, high)
  {
    hide Step;
    if m < n {
      InsideBefore(program, s, n, m, low, high);
    } else {
      var k :| k >= |s.stack| && Stuck(Steps(program, s, n), k);
      StepsAdd(program, s, n, m - n);
      StepsKeepStuck(program, Steps(program, s, n), m - n, k);
    }
  }

  lemma {:induction false} StepsAdd(program: Program, s: State, m: nat, n: nat)
    ensures Steps(program, s, m + n) == Steps(program, Steps(program, s, m), n)
    decreases m
  {
    hide Step;
    if m > 0 {
      StepsAdd(program, Step(program, s), m - 1, n);
    }
  }

  // ---------------------------------------------------------------------------------------
  // What the last instruction of a loop decides
  // ---------------------------------------------------------------------------------------

  function Append(prefix: Block, b: Block): Block {
    match prefix
    case Empty => b
    case One(tag, rest) => One(tag, Append(rest, b))
    case Repeated(count, tag, rest) => Repeated(count, tag, Append(rest, b))
    case Loop(count, body, rest) => Loop(count, body, Append(rest, b))
  }

  lemma AppendItem(prefix: Block, b: Block)
    requires !prefix.Empty? && !b.Empty?
    ensures !Append(prefix, b).Empty? && Item(Append(prefix, b)) == Item(prefix)
    ensures Append(prefix, b).rest == Append(prefix.rest, b) && !Append(prefix.rest, b).Empty?
  {
  }

  lemma {:induction false} AppendRuns(prefix: Block, b: Block, closes: bool)
    requires !b.Empty?
    ensures var all := Append(prefix, b);
            && Size(all) == Size(prefix) + Size(b)
            && Trace(all, closes) == Trace(prefix, false) + Trace(b, closes)
            && StepCount(all, closes) == StepCount(prefix, false) + StepCount(b, closes)
            && forall s :: Rested(b, Rested(prefix, s)) == Rested(all, s)
  {
    hide Times, Rounds, RoundSteps, Tail;
    if prefix.Empty? {
      assert Trace(Empty, false) + Trace(b, closes) == Trace(b, closes) && !Arms(Empty) && !Clears(Empty);
    } else {
      AppendItem(prefix, b);
      AppendRuns(prefix.rest, b, closes);
      AppendOfItem(prefix, b, closes);
    }
  }

  lemma AppendOfItem(prefix: Block, b: Block, closes: bool)
    requires !prefix.Empty? && !b.Empty?
    requires var all := Append(prefix.rest, b);
             && Size(all) == Size(prefix.rest) + Size(b)
             && Trace(all, closes) == Trace(prefix.rest, false) + Trace(b, closes)
             && StepCount(all, closes) == StepCount(prefix.rest, false) + StepCount(b, closes)
             && forall s :: Rested(b, Rested(prefix.rest, s)) == Rested(all, s)
    ensures var all := Append(prefix, b);
            && Size(all) == Size(prefix) + Size(b)
            && Trace(all, closes) == Trace(prefix, false) + Trace(b, closes)
            && StepCount(all, closes) == StepCount(prefix, false) + StepCount(b, closes)
            && forall s :: Rested(b, Rested(prefix, s)) == Rested(all, s)
  {
    hide Trace, Size, StepCount, Rested, Append;
    var all := Append(prefix, b);
    AppendItem(prefix, b);
    ItemFirst(all, closes);
    ItemFirst(prefix, false);
    var item := Trace(Item(prefix), false);
    assert item + (Trace(prefix.rest, false) + Trace(b, closes)) == item + Trace(prefix.rest, false) + Trace(b, closes);
    forall s ensures Rested(b, Rested(prefix, s)) == Rested(all, s) {
      assert Rested(prefix, s) == Rested(prefix.rest, Rested(Item(prefix), s));
      assert Rested(all, s) == Rested(Append(prefix.rest, b), Rested(Item(prefix), s));
    }
  }

  lemma {:induction false} AppendEnds(prefix: Block, b: Block)
    requires !b.Empty?
    ensures var all := Append(prefix, b);
            && !all.Empty? && Left(all) == Left(b) && LastTag(all) == LastTag(b)
            && (Clean(all) <==> Whole(prefix) && Clean(b)) && (Exact(all) <==> Exact(prefix) && Exact(b))
  {
    hide Remaining;
    if !prefix.Empty? {
      AppendItem(prefix, b);
      AppendEnds(prefix.rest, b);
      LastIsBehind(Append(prefix, b));
    }
  }

  /** With a plain end a loop runs as it is written. */
  lemma PlainEnd(count: nat, prefix: Block, tag: nat)
    requires AsWritten(prefix)
    ensures AsWritten(Loop(count, Append(prefix, One(tag, Empty)), Empty))
  {
    hide Append;
    AppendEnds(prefix, One(tag, Empty));
    assert Clean(Empty) && Exact(Empty) && Whole(Empty);
  }

  /**
  With its end under REPEAT it does if and only if the REPEAT count is zero or the loop count is. Each
  of its iterations runs the end once, and the REPEAT count is served once, behind the last of them.
  */
  lemma RepeatedEnd(count: nat, prefix: Block, c: nat, tag: nat)
    requires AsWritten(prefix)
    ensures var loop := Loop(count, Append(prefix, Repeated(c, tag, Empty)), Empty);
            && (AsWritten(loop) <==> c == 0 || count == 0)
            && Whole(loop)
            && Trace(loop, false) == Times(Unrolled(prefix) + [tag], count + 1) + Times([tag], c)
  {
    hide Append, Times;
    var last := Repeated(c, tag, Empty);
    var body := Append(prefix, last);
    AppendEnds(prefix, last);
    AppendRuns(prefix, last, true);
    TraceIsUnrolledExactly(prefix);
    RepeatedOutcome(c, tag, DEFAULT, true);
    OnceIsWhole([tag], 0);
    LoopCounts(count, body, DEFAULT, false);
    assert Clean(Empty) && Exact(Empty) && Whole(Empty);
  }

  /** So the end of such a loop runs count + c + 1 times. */
  lemma RepeatedEndCount(count: nat, prefix: Block, c: nat, tag: nat)
    requires AsWritten(prefix) && Occurrences(Unrolled(prefix), tag) == 0
    ensures Occurrences(Trace(Loop(count, Append(prefix, Repeated(c, tag, Empty)), Empty), false), tag) == count + c + 1
  {
    hide Append, Times, Trace, Unrolled, Occurrences;
    RepeatedEnd(count, prefix, c, tag);
    var round := Unrolled(prefix) + [tag];
    OccurrencesAppend(Times(round, count + 1), Times([tag], c), tag);
    OccurrencesAppend(Unrolled(prefix), [tag], tag);
    OneOccurrence(tag, tag);
    TimesOccurrences(round, count + 1, tag);
    TimesOccurrences([tag], c, tag);
  }

  /**
  With its end shared by an inner loop it does if and only if the inner loop has a count of zero and
  leaves a repetition of the end, and no more than one unless the outer count is zero too.
  */
  lemma SharedEnd(count: nat, prefix: Block, k: nat, inner: Block)
    requires AsWritten(prefix)
    ensures AsWritten(Loop(count, Append(prefix, Loop(k, inner, Empty)), Empty))
       <==> Clean(inner) && Exact(inner) && k == 0 && Remaining(inner) > 0 && (count == 0 || Remaining(inner) == 1)
  {
    hide Append;
    var last := Loop(k, inner, Empty);
    AppendEnds(prefix, last);
    assert Clean(Empty) && Exact(Empty) && Whole(Empty);
  }

  /**
  A shared end without a repetition left, as when it is a plain instruction: behind both loops the
  outer one is still on the stack with its whole count, whatever the counts, and its body has run once.
  */
  lemma SharedEndKeepsOuterLoop(program: Program, s: State, count: nat, prefix: Block, k: nat, inner: Block)
    requires var loop := Loop(count, Append(prefix, Loop(k, inner, Empty)), Empty);
             Standing(program, loop, s, false)
    requires Ready(s) && Whole(prefix) && Clean(inner) && Left(inner) == Some(0)
    ensures var body := Append(prefix, Loop(k, inner, Empty));
            var t := Steps(program, s, 1 + StepCount(body, true));
            && t.pc == s.pc + 4 + Size(body)
            && t.stack == s.stack + [Level(s.pc + 4, s.pc + 2 + Size(body), count, 0)]
            && t.trace == s.trace + (Trace(prefix, false) + Times(Trace(inner, true), k + 1))
  {
    hide Append, Times, Standing, Trace, Size, StepCount, Steps, Clean, Rested, Rounds, RoundSteps, OpenLevels, LoopOutcome, Left,
         Enterable, Within;
    var last := Loop(k, inner, Empty);
    var body := Append(prefix, last);
    SharedTrace(prefix, k, inner);
    AppendEnds(prefix, last);
    AppendOpens(prefix, last, s.pc + 4);
    LastOpens(k, inner, s.pc + 4 + Size(prefix));
    StandingEnters(program, count, body, s);
    LoopLeaves(program, count, body, s);
    RoundCounts(count, body);
    OpenedState(count, body, s);
  }

  lemma SharedTrace(prefix: Block, k: nat, inner: Block)
    requires Left(inner) == Some(0)
    ensures Trace(Append(prefix, Loop(k, inner, Empty)), true) == Trace(prefix, false) + Times(Trace(inner, true), k + 1)
  {
    hide Append, Times, Trace, Rounds, StepCount, RoundSteps, Size, Rested, Remaining, LastTag, Tail;
    AppendRuns(prefix, Loop(k, inner, Empty), true);
    LoopCounts(k, inner, DEFAULT, true);
    RoundCounts(k, inner);
    LastOpens(k, inner, 0);
    NoTimes(LastTag(inner));
    assert Times(Trace(inner, true), k + 1) + [] == Times(Trace(inner, true), k + 1);
  }

  lemma LastOpens(k: nat, inner: Block, address: nat)
    requires Left(inner) == Some(0)
    ensures var last := Loop(k, inner, Empty);
            OpenLevels(last, address) == [] && Left(last) == None && (Clean(last) <==> Clean(inner)) && Tail(inner, true) == 0
  {
    assert Clean(Empty);
  }

  lemma {:induction false} AppendOpens(prefix: Block, b: Block, address: nat)
    requires !b.Empty?
    ensures OpenLevels(Append(prefix, b), address) == OpenLevels(b, address + Size(prefix))
  {
    if !prefix.Empty? {
      AppendItem(prefix, b);
      AppendOpens(prefix.rest, b, address + Size(Item(prefix)));
      OpenBehind(Append(prefix, b));
      BlockSplits(prefix);
    }
  }

  lemma StandingEnters(program: Program, count: nat, body: Block, s: State)
    requires Standing(program, Loop(count, body, Empty), s, false) && Clean(body)
    ensures Enterable(program, count, body, s)
  {
    hide Mirror, ZeroCountWorkaround;
    assert Size(Empty) == 0;
  }

  lemma OpenedState(count: nat, body: Block, s: State)
    requires Left(body).None?
    ensures var t := LoopOutcome(count, body, s);
            && t.pc == s.pc + 4 + Size(body) && t.trace == s.trace + Rounds(count, body)
            && t.stack == s.stack + ([Level(s.pc + 4, s.pc + 2 + Size(body), count, 0)] + OpenLevels(body, s.pc + 4))
  {
    hide Rounds, Size, OpenLevels, Arms, Clears;
  }

  /** Loops that share their end, outermost first, with code before each; the end is under REPEAT. */
  function Chain(counts: seq<nat>, prefixes: seq<Block>, c: nat, tag: nat): Block
    requires |counts| == |prefixes|
  {
    if counts == [] then Repeated(c, tag, Empty)
    else Loop(counts[0], Append(prefixes[0], Chain(counts[1..], prefixes[1..], c, tag)), Empty)
  }

  /** Each loop of the chain takes one of the repetitions. */
  lemma {:induction false} ChainEnds(counts: seq<nat>, prefixes: seq<Block>, c: nat, tag: nat)
    requires |counts| == |prefixes| && forall b :: b in prefixes ==> AsWritten(b)
    ensures var chain := Chain(counts, prefixes, c, tag);
            && !chain.Empty? && Clean(chain)
            && Left(chain) == (if c >= |counts| then Some(c - |counts|) else None)
            && (Exact(chain) <==> forall i :: 0 <= i < |counts| ==> counts[i] == 0 || c + 1 + i <= |counts|)
    decreases |counts|
  {
    assert Clean(Empty) && Exact(Empty);
    if counts != [] {
      var rest, inner := counts[1..], Chain(counts[1..], prefixes[1..], c, tag);
      assert prefixes[0] in prefixes;
      ChainEnds(rest, prefixes[1..], c, tag);
      AppendEnds(prefixes[0], inner);
      assert forall i :: 0 < i < |counts| ==> counts[i] == rest[i - 1];
      assert forall i :: 0 <= i < |rest| ==> rest[i] == counts[i + 1];
    }
  }

  /**
  `k` loops that share their end, under REPEAT c, run as they are written if and only if c is at least
  k - 1, all loops inside the outermost one have a count of zero, and it has too unless c is k - 1.
  */
  lemma SharedEndsExactly(counts: seq<nat>, prefixes: seq<Block>, c: nat, tag: nat)
    requires |counts| == |prefixes| > 0 && forall b :: b in prefixes ==> AsWritten(b)
    ensures AsWritten(Chain(counts, prefixes, c, tag))
       <==> c >= |counts| - 1 && (forall i :: 0 < i < |counts| ==> counts[i] == 0) && (counts[0] == 0 || c == |counts| - 1)
  {
    hide Append;
    ChainEnds(counts, prefixes, c, tag);
    ChainEnds(counts[1..], prefixes[1..], c, tag);
    assert prefixes[0] in prefixes;
    AppendEnds(prefixes[0], Chain(counts[1..], prefixes[1..], c, tag));
    assert Whole(Empty);
  }

  // ---------------------------------------------------------------------------------------
  // Nested counts multiply
  // ---------------------------------------------------------------------------------------

  /** Loops with these counts around one instruction, each body closed by a padding instruction. */
  function Nest(counts: seq<nat>, tag: nat, pad: nat): Block {
    if counts == [] then One(tag, Empty) else Loop(counts[0], Nest(counts[1..], tag, pad), One(pad, Empty))
  }

  function IterationProduct(counts: seq<nat>): nat {
    if counts == [] then 1 else (counts[0] + 1) * IterationProduct(counts[1..])
  }

  function Occurrences(trace: seq<nat>, tag: nat): nat {
    if trace == [] then 0 else Occurrences(trace[..|trace| - 1], tag) + if trace[|trace| - 1] == tag then 1 else 0
  }

  lemma {:induction false} OccurrencesAppend(a: seq<nat>, b: seq<nat>, tag: nat)
    ensures Occurrences(a + b, tag) == Occurrences(a, tag) + Occurrences(b, tag)
  {
    if b == [] {
      assert a + b == a;
    } else {
      assert (a + b)[..|a + b| - 1] == a + b[..|b| - 1];
      OccurrencesAppend(a, b[..|b| - 1], tag);
    }
  }

  lemma {:induction false} TimesOccurrences(trace: seq<nat>, n: nat, tag: nat)
    ensures Occurrences(Times(trace, n), tag) == n * Occurrences(trace, tag)
  {
    if n > 0 {
      TimesOccurrences(trace, n - 1, tag);
      OccurrencesAppend(trace, Times(trace, n - 1), tag);
      Division.Distributes(n - 1, 1, Occurrences(trace, tag));
    }
  }

  lemma OneOccurrence(tag: nat, sought: nat)
    ensures Occurrences([tag], sought) == if tag == sought then 1 else 0
  {
    assert [tag][..0] == [];
  }

  lemma {:induction false} NestOccurrences(counts: seq<nat>, tag: nat, pad: nat)
    requires tag != pad
    ensures Occurrences(Unrolled(Nest(counts, tag, pad)), tag) == IterationProduct(counts)
  {
    hide Occurrences, Times;
    if counts == [] {
      OneOccurrence(tag, tag);
      assert Unrolled(One(tag, Empty)) == [tag];
    } else {
      var body := Unrolled(Nest(counts[1..], tag, pad));
      NestOccurrences(counts[1..], tag, pad);
      TimesOccurrences(body, counts[0] + 1, tag);
      OneOccurrence(pad, tag);
      assert Unrolled(One(pad, Empty)) == [pad];
      OccurrencesAppend(Times(body, counts[0] + 1), [pad], tag);
    }
  }

  lemma {:induction false} NestIsAsWritten(counts: seq<nat>, tag: nat, pad: nat)
    ensures AsWritten(Nest(counts, tag, pad)) && Clean(Nest(counts, tag, pad)) && Left(Nest(counts, tag, pad)) == Some(0)
  {
    assert Whole(Empty) && Clean(Empty) && Exact(Empty);
    if counts != [] {
      NestIsAsWritten(counts[1..], tag, pad);
      assert Whole(One(pad, Empty)) && Clean(One(pad, Empty)) && Exact(One(pad, Empty)) && Left(One(pad, Empty)) == Some(0);
    }
  }

  /** Nested loops end, leave everything as it was, and run the inner instruction the product of the counts plus one. */
  lemma NestedLoopsTerminate(program: Program, s: State, counts: seq<nat>, tag: nat, pad: nat) returns (steps: nat)
    requires tag != pad && Ready(s) && Standing(program, Nest(counts, tag, pad), s, false)
    ensures var t := Steps(program, s, steps);
            && t == s.(pc := s.pc + Size(Nest(counts, tag, pad)), trace := t.trace)
            && s.trace <= t.trace
            && Occurrences(t.trace, tag) == Occurrences(s.trace, tag) + IterationProduct(counts)
  {
    hide Steps, Standing, Unrolled, Size, Within;
    var b := Nest(counts, tag, pad);
    NestIsAsWritten(counts, tag, pad);
    RunsAsWrittenExactly(program, b, s);
    var n: nat :| RunsAsWritten(program, b, s, n);
    steps := n;
    OccurrencesAppend(s.trace, Unrolled(b), tag);
    NestOccurrences(counts, tag, pad);
  }
}
