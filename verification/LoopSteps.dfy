/** What any run of instructions shows of the loop hardware: when it traps, when it is undefined, and the registers at rest. */
module LoopSteps {
  import opened DoLoop

  /** The instruction to run is a DO while four loops are open. */
  predicate OpensFifth(program: Program, s: State) {
    s.pc in program && program[s.pc].Do? && |s.stack| == 4
  }

  /**
  It is a DO with a count of zero in an open loop, and not both the outer loop begins with two
  no-operation words and the inner one with a third.
  */
  predicate OpensUndefined(program: Program, s: State) {
    && s.pc in program && program[s.pc].Do? && program[s.pc].count == 0 && 0 < |s.stack| < 4
    && exists address :: address in {Top(s).start, Top(s).start + 2, s.pc + 4}
                         && (address in program ==> program[address] != Plain(0))
  }

  lemma WorkaroundWords(program: Program, s: State)
    requires s.pc in program && program[s.pc].Do? && program[s.pc].count == 0 && 0 < |s.stack| < 4
    ensures ZeroCountWorkaround(program, Top(s).start, s.pc + 4) <==> !OpensUndefined(program, s)
  {
    if !ZeroCountWorkaround(program, Top(s).start, s.pc + 4) {
      var missing := if !(Top(s).start in program && program[Top(s).start] == Plain(0)) then Top(s).start
                     else if !(Top(s).start + 2 in program && program[Top(s).start + 2] == Plain(0)) then Top(s).start + 2
                     else s.pc + 4;
      assert missing in {Top(s).start, Top(s).start + 2, s.pc + 4} && (missing in program ==> program[missing] != Plain(0));
    }
  }

  /** No open loop leaves anything in DOSTART, DOEND and DCOUNT. */
  ghost predicate ClearAtRest(s: State) {
    |s.stack| <= 4 && (s.stack == [] ==> s.dostart == s.doend == s.dcount == s.depthField == 0 && !s.active)
  }

  lemma IterationKeepsTraps(s: State)
    requires ClearAtRest(s) && s.stack != []
    ensures var t := CompleteIteration(s);
            ClearAtRest(t) && t.stackTrap == s.stackTrap && t.undefined == s.undefined
  {
  }

  lemma TailsKeepTraps(s: State, instructionPc: nat, depthBefore: nat)
    requires ClearAtRest(s)
    ensures var t := DoTail(RepeatTail(s, instructionPc), instructionPc, depthBefore);
            ClearAtRest(t) && t.stackTrap == s.stackTrap && t.undefined == s.undefined
  {
    hide CompleteIteration;
    var t := RepeatTail(s, instructionPc);
    assert ClearAtRest(t) && t.stackTrap == s.stackTrap && t.undefined == s.undefined;
    if t.stack != [] {
      IterationKeepsTraps(t);
    }
  }

  lemma StepShows(program: Program, s: State)
    requires ClearAtRest(s)
    ensures var t := Step(program, s);
            && ClearAtRest(t)
            && (t.stackTrap <==> s.stackTrap || OpensFifth(program, s))
            && (t.undefined <==> s.undefined || OpensUndefined(program, s))
  {
    hide DoTail, RepeatTail, ZeroCountWorkaround, OpensUndefined;
    if s.pc in program {
      var t := Execute(program, s, program[s.pc]);
      if program[s.pc].Do? && program[s.pc].count == 0 && 0 < |s.stack| < 4 {
        WorkaroundWords(program, s);
      } else {
        OnlyZeroCounts(program, s);
      }
      TailsKeepTraps(t, s.pc, |s.stack|);
    } else {
      OnlyZeroCounts(program, s);
    }
  }

  lemma OnlyZeroCounts(program: Program, s: State)
    ensures OpensUndefined(program, s) ==> s.pc in program && program[s.pc].Do? && program[s.pc].count == 0 && 0 < |s.stack| < 4
  {
  }

  /**
  Over any run the stack trap is raised exactly by a DO in four open loops, a nested DO of count zero
  without its no-operation words is exactly what is undefined, and between loops the registers are clear.
  */
  lemma {:induction false} RunShows(program: Program, s: State, n: nat)
    requires ClearAtRest(s)
    ensures var t := Steps(program, s, n);
            && ClearAtRest(t)
            && (t.stackTrap <==> s.stackTrap || exists k: nat :: k < n && OpensFifth(program, Steps(program, s, k)))
            && (t.undefined <==> s.undefined || exists k: nat :: k < n && OpensUndefined(program, Steps(program, s, k)))
  {
    hide Step, Steps, OpensFifth, OpensUndefined, ClearAtRest;
    NoStep(program, s);
    if n > 0 {
      RunShows(program, s, n - 1);
      LastStep(program, s, n);
      StepShows(program, Steps(program, s, n - 1));
    }
  }

  lemma NoStep(program: Program, s: State)
    ensures Steps(program, s, 0) == s
  {
  }

  lemma {:induction false} LastStep(program: Program, s: State, n: nat)
    requires n > 0
    ensures Steps(program, s, n) == Step(program, Steps(program, s, n - 1))
    decreases n
  {
    hide Step;
    if n > 1 {
      LastStep(program, Step(program, s), n - 1);
    }
  }
}
