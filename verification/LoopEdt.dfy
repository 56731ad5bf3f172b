/** Setting CORCON.EDT in a loop: with which iteration the loop ends. */
module LoopEdt {
  import opened Wrappers
  import opened DoLoop
  import opened LoopCode
  import opened LoopExact

  // ---------------------------------------------------------------------------------------
  // Ending a loop early
  // ---------------------------------------------------------------------------------------

  /** A step whose instruction also sets EDT. */
  function StepWithEdt(program: Program, s: State): State {
    if s.pc !in program then s
    else DoTail(RepeatTail(WriteEdt(Execute(program, s, program[s.pc]), s.pc), s.pc), s.pc, |s.stack|)
  }

  /** One iteration in which EDT is set by the instruction after `before` steps, with `after` steps behind it. */
  function EdtIteration(program: Program, s: State, before: nat, after: nat): State {
    Steps(program, StepWithEdt(program, Steps(program, s, before)), after)
  }

  function EdtIterations(program: Program, s: State, before: nat, after: nat, n: nat): State
    decreases n
  {
    if n == 0 then s else EdtIterations(program, EdtIteration(program, s, before, after), before, after, n - 1)
  }

  function Marked(s: State, terminate: nat): State
    requires s.stack != []
  {
    WithTop(s, Top(s).(terminate := terminate))
  }

  /** In the last two instructions of the body EDT is late. */
  function Mark(rest: Block): nat {
    if Size(rest) <= 2 then 2 else 1
  }

  lemma EdtStep(program: Program, tag: nat, rest: Block, s: State)
    requires Runnable(program, One(tag, rest), s, true)
    ensures s.stack != []
    ensures var t := Marked(Ran(s, 2, [tag]), Mark(rest));
            if rest.Empty? then StepWithEdt(program, s) == CompleteIteration(t)
            else StepWithEdt(program, s) == t && Runnable(program, rest, t, true)
  {
    hide CompleteIteration, ZeroCountWorkaround;
    if rest.Empty? {
      assert !EndsArmed(Empty);
    } else {
      BlockIsLarge(rest);
    }
  }

  /** The state at the end of the first iteration. */
  lemma AfterOne(s: State, b: Block)
    ensures After(s, b, 1) == Leaving(b, Rested(b, Ran(s, Size(b), Trace(b, true))))
  {
    hide Leaving, Rested, Ran, Size, Trace, Times;
    OnceIsWhole(Trace(b, true), 0);
  }

  lemma AfterNothing(s: State)
    ensures After(s, Empty, 1) == s && StepCount(Empty, true) == 0
  {
    AfterOne(s, Empty);
    assert s.trace + [] == s.trace;
  }

  lemma EdtStepRuns(program: Program, tag: nat, rest: Block, s: State)
    requires Runnable(program, One(tag, rest), s, true) && Left(rest).Some?
    ensures s.stack != [] && After(Marked(Ran(s, 2, [tag]), Mark(rest)), rest, 1).stack != []
    ensures Steps(program, StepWithEdt(program, s), StepCount(rest, true))
         == CompleteIteration(After(Marked(Ran(s, 2, [tag]), Mark(rest)), rest, 1))
  {
    hide StepWithEdt, Runnable, CompleteIteration, After, Outcome, StepCount, Within, Step, Mark;
    EdtStep(program, tag, rest, s);
    var t := Marked(Ran(s, 2, [tag]), Mark(rest));
    AfterRan(t, rest, 1);
    if rest.Empty? {
      AfterNothing(t);
    } else {
      BlockRuns(program, rest, t, true);
      AfterOnce(program, rest, t);
    }
  }

  /** The end of the iteration seen from behind a plain instruction, or behind any code of the body. */
  lemma AfterFirst(s: State, tag: nat, rest: Block)
    ensures After(Ran(s, 2, [tag]), rest, 1) == After(s, One(tag, rest), 1)
  {
    hide Trace, Size, Times, Rested, Ran, Remaining, After;
    AfterOne(Ran(s, 2, [tag]), rest);
    AfterOne(s, One(tag, rest));
    FirstOfTrace(tag, rest);
    RanRan(s, 2, [tag], Size(rest), Trace(rest, true));
  }

  lemma FirstOfTrace(tag: nat, rest: Block)
    ensures Trace(One(tag, rest), true) == [tag] + Trace(rest, true) && Size(One(tag, rest)) == 2 + Size(rest)
    ensures Remaining(One(tag, rest)) == Remaining(rest) && forall s :: Rested(One(tag, rest), s) == Rested(rest, s)
  {
  }

  lemma AfterPrefix(s: State, prefix: Block, last: Block)
    requires !last.Empty?
    ensures After(Outcome(prefix, s, false), last, 1) == After(s, Append(prefix, last), 1)
  {
    hide Trace, Size, Times, Rested, Ran, StepCount, Left, Append, Remaining;
    var next := Outcome(prefix, s, false);
    AfterOne(next, last);
    AfterOne(s, Append(prefix, last));
    AppendRuns(prefix, last, true);
    AppendEnds(prefix, last);
    RemainingIs(last, Append(prefix, last));
    RanRested(prefix, Ran(s, Size(prefix), Trace(prefix, false)), Size(last), Trace(last, true));
    RanRan(s, Size(prefix), Trace(prefix, false), Size(last), Trace(last, true));
  }

  lemma RemainingIs(a: Block, b: Block)
    requires Left(a) == Left(b)
    ensures Remaining(a) == Remaining(b)
  {
  }

  /** Both parts of a body can run. */
  lemma PartsAreRunnable(program: Program, prefix: Block, last: Block, s: State)
    requires Runnable(program, Append(prefix, last), s, true) && !last.Empty?
    ensures Runnable(program, prefix, s, false)
    ensures Runnable(program, last, Outcome(prefix, s, false), true)
  {
    hide Outcome, Append, Shown, Placed, WellFormed, Left, EndsArmed, Exact, Size, Trace, StepCount, Clean, Whole;
    PartsFit(program, prefix, last, s);
    OutcomeBehind(prefix, s);
  }

  lemma PartsFit(program: Program, prefix: Block, last: Block, s: State)
    requires !last.Empty?
    ensures var body := Append(prefix, last);
            && Size(body) == Size(prefix) + Size(last) && Size(last) >= 2 && EndsArmed(body) == EndsArmed(last)
            && (Clean(body) <==> Whole(prefix) && Clean(last))
            && (Placed(program, body, s.pc) <==> Placed(program, prefix, s.pc) && Placed(program, last, s.pc + Size(prefix)))
            && (WellFormed(program, body, s.pc, |s.stack|, OuterStart(s))
                <==> WellFormed(program, prefix, s.pc, |s.stack|, OuterStart(s))
                     && WellFormed(program, last, s.pc + Size(prefix), |s.stack|, OuterStart(s)))
  {
    hide Append, Placed, WellFormed, EndsArmed, Size, Clean, Whole;
    AppendRuns(prefix, last, true);
    AppendEnds(prefix, last);
    AppendArmed(prefix, last);
    AppendIsPlaced(program, prefix, last, s.pc, |s.stack|, OuterStart(s));
    BlockIsLarge(last);
  }

  lemma {:induction false} AppendArmed(prefix: Block, last: Block)
    requires !last.Empty?
    ensures EndsArmed(Append(prefix, last)) == EndsArmed(last)
  {
    if !prefix.Empty? {
      AppendItem(prefix, last);
      AppendArmed(prefix.rest, last);
    }
  }

  lemma {:induction false} AppendIsPlaced(program: Program, prefix: Block, b: Block, address: nat, depth: nat, outerStart: nat)
    ensures Placed(program, Append(prefix, b), address)
       <==> Placed(program, prefix, address) && Placed(program, b, address + Size(prefix))
    ensures WellFormed(program, Append(prefix, b), address, depth, outerStart)
       <==> WellFormed(program, prefix, address, depth, outerStart)
            && WellFormed(program, b, address + Size(prefix), depth, outerStart)
  {
    hide ZeroCountWorkaround;
    assert Size(Empty) == 0;
    if !prefix.Empty? {
      AppendIsPlaced(program, prefix.rest, b, address + Size(Item(prefix)), depth, outerStart);
    }
  }

  /** An iteration in which EDT is set ends like one that began with the loop marked. */
  lemma EdtIterationEnds(program: Program, prefix: Block, tag: nat, rest: Block, s: State)
    requires AtStart(program, Append(prefix, One(tag, rest)), s) && Left(rest).Some?
    ensures s.stack != [] && After(Marked(s, Mark(rest)), Append(prefix, One(tag, rest)), 1).stack != []
    ensures EdtIteration(program, s, StepCount(prefix, false), StepCount(rest, true))
         == CompleteIteration(After(Marked(s, Mark(rest)), Append(prefix, One(tag, rest)), 1))
  {
    hide Runnable, CompleteIteration, After, Outcome, StepCount, StepWithEdt, Append, Mark, Within, Step, WithLoops;
    var last := One(tag, rest);
    var body := Append(prefix, last);
    RunnableIsShown(program, body, s);
    PartsAreRunnable(program, prefix, last, s);
    BlockRuns(program, prefix, s, false);
    var middle := Outcome(prefix, s, false);
    OutcomeBehind(prefix, s);
    EdtStepRuns(program, tag, rest, middle);
    MarkedIsWith(s, Ran(middle, 2, [tag]), Mark(rest));
    MarkedIsWith(s, s, Mark(rest));
    AfterWithLoops(Ran(middle, 2, [tag]), Marked(s, Mark(rest)), rest, 1);
    AfterFirst(middle, tag, rest);
    AfterPrefix(s, prefix, last);
    AfterWithLoops(s, Marked(s, Mark(rest)), body, 1);
    AfterRan(Marked(s, Mark(rest)), body, 1);
  }

  lemma MarkedIsWith(s: State, t: State, terminate: nat)
    requires s.stack != [] && t == s.(pc := t.pc, trace := t.trace, repeatPc := t.repeatPc, rcount := t.rcount, repeatBit := t.repeatBit)
    ensures Marked(t, terminate) == WithLoops(t, Marked(s, terminate))
  {
  }

  /** A marked loop at the start of an iteration still is; the mark decides how many iterations are left. */
  lemma MarkedAtStart(program: Program, body: Block, s: State, terminate: nat)
    requires AtStart(program, body, s)
    ensures s.stack != [] && AtStart(program, body, Marked(s, terminate))
    ensures Marked(s, terminate).stack != [] && Top(Marked(s, terminate)) == Top(s).(terminate := terminate)
  {
    hide Placed, WellFormed, Clean, Size, EndsArmed;
  }

  lemma MarkedEnds(body: Block, s: State, terminate: nat, n: nat)
    requires s.stack != []
    ensures LoopEnded(Marked(s, terminate), body, n) == LoopEnded(s, body, n)
  {
    hide After, Mirror;
    var marked := Marked(s, terminate);
    MarkedIsWith(s, s, terminate);
    AfterWithLoops(s, marked, body, n);
    AfterRan(s, body, n);
    assert marked.stack[..|marked.stack| - 1] == s.stack[..|s.stack| - 1];
  }

  /**
  EDT set by any plain instruction of an iteration ends the loop with this iteration; set by one of
  the last two, with the next iteration, if there is one.
  */
  lemma EdtEndsLoop(program: Program, prefix: Block, tag: nat, rest: Block, s: State)
    requires AtStart(program, Append(prefix, One(tag, rest)), s) && Left(rest).Some?
    ensures s.stack != []
    ensures var body := Append(prefix, One(tag, rest));
            var t := EdtIteration(program, s, StepCount(prefix, false), StepCount(rest, true));
            if Size(rest) <= 2 && Top(s).count > 0 then
              Steps(program, t, StepCount(body, true)) == LoopEnded(s, body, 2)
            else
              t == LoopEnded(s, body, 1)
  {
    hide Runnable, EdtIteration, CompleteIteration, After, Outcome, StepCount, Append, Size, LoopEnded, Within, Step, Left, Marked;
    var body := Append(prefix, One(tag, rest));
    RunnableIsShown(program, body, s);
    var marked := Marked(s, Mark(rest));
    EdtIterationEnds(program, prefix, tag, rest, s);
    MarkedAtStart(program, body, s, Mark(rest));
    IterationsCount(Top(s).count, Mark(rest));
    EdtLeaves(prefix, tag, rest);
    IterationEnds(program, body, marked);
    MarkedEnds(body, s, Mark(rest), 1);
    MarkedEnds(body, s, Mark(rest), 2);
    if Size(rest) <= 2 && Top(s).count > 0 {
      var next := Outcome(body, marked, true);
      RunnableIsShown(program, body, next);
      LoopRuns(program, body, next);
      IterationsCount(Top(next).count, 1);
      OnceIsWhole([], StepCount(body, true));
      assert LoopEnded(next, body, 1) == LoopEnded(marked, body, 2);
    }
  }

  lemma EdtLeaves(prefix: Block, tag: nat, rest: Block)
    requires Left(rest).Some?
    ensures Left(Append(prefix, One(tag, rest))).Some?
  {
    AppendEnds(prefix, One(tag, rest));
  }

  /** Set late in every iteration, EDT never ends the loop: it runs all count + 1 iterations. */
  lemma {:induction false} LateEdtNeverEndsLoop(program: Program, prefix: Block, tag: nat, rest: Block, s: State)
    requires AtStart(program, Append(prefix, One(tag, rest)), s) && Left(rest).Some? && Size(rest) <= 2
    ensures s.stack != []
    ensures EdtIterations(program, s, StepCount(prefix, false), StepCount(rest, true), Top(s).count + 1)
         == LoopEnded(s, Append(prefix, One(tag, rest)), Top(s).count + 1)
    decreases if s.stack != [] then Top(s).count else 0
  {
    hide Runnable, EdtIteration, CompleteIteration, After, Outcome, StepCount, Append, Size, LoopEnded, Within, Step, Left, Marked;
    var body := Append(prefix, One(tag, rest));
    RunnableIsShown(program, body, s);
    var marked := Marked(s, 2);
    EdtIterationEnds(program, prefix, tag, rest, s);
    MarkedAtStart(program, body, s, 2);
    EdtLeaves(prefix, tag, rest);
    IterationEnds(program, body, marked);
    MarkedEnds(body, s, 2, Top(s).count + 1);
    var next := Outcome(body, marked, true);
    if Top(s).count > 0 {
      RunnableIsShown(program, body, next);
      LateEdtNeverEndsLoop(program, prefix, tag, rest, next);
      assert LoopEnded(next, body, Top(next).count + 1) == LoopEnded(marked, body, Top(s).count + 1);
    } else {
      NoIterations(program, next, StepCount(prefix, false), StepCount(rest, true));
    }
  }

  lemma NoIterations(program: Program, s: State, before: nat, after: nat)
    ensures EdtIterations(program, s, before, after, 0) == s
  {
  }
}
