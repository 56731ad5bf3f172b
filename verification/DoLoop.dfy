/**
Hardware loops: the four-deep DO stack with its register mirrors, and REPEAT.

The stack is kept as the sequence of its active levels, innermost last. Code is a map from program
address to instruction, and the instructions executed are recorded by their tags.
*/
module DoLoop {
  import opened Wrappers

  const DO_LEVELS: nat := 4

  /** One level: `terminate` is 1 when the loop ends with this iteration, 2 with the next. */
  datatype Level = Level(start: nat, end: nat, count: nat, terminate: nat)

  datatype State = State(
    pc: nat,
    stack: seq<Level>,
    dostart: nat,
    doend: nat,
    dcount: nat,
    depthField: nat,
    active: bool,
    repeatPc: Option<nat>,
    rcount: nat,
    repeatBit: bool,
    stackTrap: bool,
    undefined: bool,
    trace: seq<nat>)

  datatype Instruction =
    | Plain(tag: nat)
    | Do(count: nat, end: nat)
    | Repeat(count: nat)

  type Program = map<nat, Instruction>

  /** The tag of the all-zero program word. */
  const NOP: nat := 0

  function Top(s: State): Level
    requires s.stack != []
  {
    s.stack[|s.stack| - 1]
  }

  function WithTop(s: State, level: Level): State
    requires s.stack != []
  {
    s.(stack := s.stack[|s.stack| - 1 := level])
  }

  // ---------------------------------------------------------------------------------------
  // Instructions and register writes
  // ---------------------------------------------------------------------------------------

  /** DOSTART, DOEND and DCOUNT show the innermost level, or zero when there is none. */
  function Mirror(s: State): State {
    var s := s.(depthField := |s.stack|);
    if s.stack == [] then s.(dostart := 0, doend := 0, dcount := 0, active := false)
    else s.(dostart := Top(s).start, doend := Top(s).end, dcount := Top(s).count)
  }

  /** What happens after the last instruction of the innermost loop. */
  function CompleteIteration(s: State): State
    requires s.stack != []
  {
    var level := Top(s);
    if level.count != 0 && level.terminate != 1 then
      var next := level.(count := level.count - 1, terminate := if level.terminate == 2 then 1 else level.terminate);
      WithTop(s, next).(dcount := level.count - 1, pc := level.start)
    else
      Mirror(s.(stack := s.stack[..|s.stack| - 1]))
  }

  /** A nested loop of count zero is well defined only between these no-operation words. */
  predicate ZeroCountWorkaround(program: Program, outerStart: nat, innerStart: nat) {
    && outerStart in program && program[outerStart] == Plain(NOP)
    && outerStart + 2 in program && program[outerStart + 2] == Plain(NOP)
    && innerStart in program && program[innerStart] == Plain(NOP)
  }

  function ExecuteDo(program: Program, s: State, count: nat, end: nat): State {
    var s := s.(pc := s.pc + 4);
    if |s.stack| >= DO_LEVELS then s.(stackTrap := true)
    else if count == 0 && s.stack != [] && !ZeroCountWorkaround(program, Top(s).start, s.pc) then s.(undefined := true)
    else
      s.(stack := s.stack + [Level(s.pc, end, count, 0)], dostart := s.pc, doend := end, dcount := count,
         depthField := |s.stack| + 1, active := true)
  }

  function ExecuteRepeat(s: State, count: nat): State {
    var s := s.(pc := s.pc + 2, rcount := count);
    if count != 0 then s.(repeatPc := Some(s.pc), repeatBit := true) else s
  }

  function Execute(program: Program, s: State, instruction: Instruction): State {
    match instruction
    case Plain(tag) => s.(pc := s.pc + 2, trace := s.trace + [tag])
    case Do(count, end) => ExecuteDo(program, s, count, end)
    case Repeat(count) => ExecuteRepeat(s, count)
  }

  function RepeatTail(s: State, instructionPc: nat): State {
    if s.repeatPc != Some(instructionPc) then s
    else if s.rcount != 0 then
      s.(rcount := s.rcount - 1, pc := instructionPc, repeatBit := s.repeatBit && s.rcount != 1)
    else s.(repeatPc := None, repeatBit := false)
  }

  function DoTail(s: State, instructionPc: nat, depthBefore: nat): State {
    if s.stack != [] && |s.stack| <= depthBefore && instructionPc == Top(s).end then CompleteIteration(s) else s
  }

  function Step(program: Program, s: State): State {
    if s.pc !in program then s
    else DoTail(RepeatTail(Execute(program, s, program[s.pc]), s.pc), s.pc, |s.stack|)
  }

  function Steps(program: Program, s: State, count: nat): State
    decreases count
  {
    if count == 0 then s else Steps(program, Step(program, s), count - 1)
  }

  function WriteDcount(s: State, high: bool, value: nat): State
    requires value < 0x100
  {
    var dcount := if high then s.dcount % 0x100 + value * 0x100 else s.dcount - s.dcount % 0x100 + value;
    var s := s.(dcount := dcount);
    if s.stack == [] then s else WithTop(s, Top(s).(count := dcount))
  }

  /** A write to one byte of DOEND; only bits 1 to 21 of the result are kept. */
  function WriteDoend(s: State, byte: nat, value: nat): State
    requires byte < 4 && value < 0x100
  {
    var scale := [1, 0x100, 0x1_0000, 0x100_0000][byte];
    var written := s.doend - s.doend / scale % 0x100 * scale + value * scale;
    var doend := (written - written % 2) % 0x40_0000;
    var s := s.(doend := doend);
    if s.stack == [] then s else WithTop(s, Top(s).(end := doend))
  }

  /** Setting CORCON.EDT: too late for this iteration in its last two instructions. */
  function WriteEdt(s: State, instructionPc: nat): State {
    if s.stack == [] then s
    else
      var late := instructionPc == Top(s).end || instructionPc + 2 == Top(s).end;
      WithTop(s, Top(s).(terminate := if late then 2 else 1))
  }

  // ---------------------------------------------------------------------------------------
  // The registers always show the stack
  // ---------------------------------------------------------------------------------------

  ghost predicate Mirrored(s: State) {
    && |s.stack| <= DO_LEVELS
    && s.depthField == |s.stack|
    && s.active == (s.stack != [])
    && (s.stack != [] ==> s.dostart == Top(s).start && s.doend == Top(s).end && s.dcount == Top(s).count)
  }

  datatype Action =
    | RunStep
    | SetDcount(high: bool, value: nat)
    | SetDoend(byte: nat, value: nat)
    | SetEdt(instructionPc: nat)

  predicate ValidAction(a: Action) {
    match a
    case SetDcount(_, value) => value < 0x100
    case SetDoend(byte, value) => byte < 4 && value < 0x100
    case _ => true
  }

  function Act(program: Program, s: State, a: Action): State
    requires ValidAction(a)
  {
    match a
    case RunStep => Step(program, s)
    case SetDcount(high, value) => WriteDcount(s, high, value)
    case SetDoend(byte, value) => WriteDoend(s, byte, value)
    case SetEdt(instructionPc) => WriteEdt(s, instructionPc)
  }

  function ActAll(program: Program, s: State, actions: seq<Action>): State
    requires forall a :: a in actions ==> ValidAction(a)
    decreases |actions|
  {
    if actions == [] then s else ActAll(program, Act(program, s, actions[0]), actions[1..])
  }

  lemma ExecuteKeepsMirrors(program: Program, s: State, instruction: Instruction)
    requires Mirrored(s)
    ensures Mirrored(Execute(program, s, instruction))
  {
    hide ZeroCountWorkaround;
  }

  lemma CompletionKeepsMirrors(s: State)
    requires Mirrored(s) && s.stack != []
    ensures Mirrored(CompleteIteration(s))
  {
  }

  lemma StepKeepsMirrors(program: Program, s: State)
    requires Mirrored(s)
    ensures Mirrored(Step(program, s))
  {
    hide Execute, CompleteIteration;
    if s.pc in program {
      ExecuteKeepsMirrors(program, s, program[s.pc]);
      var tail := RepeatTail(Execute(program, s, program[s.pc]), s.pc);
      if tail.stack != [] {
        CompletionKeepsMirrors(tail);
      }
    }
  }

  lemma ActKeepsMirrors(program: Program, s: State, a: Action)
    requires Mirrored(s) && ValidAction(a)
    ensures Mirrored(Act(program, s, a))
  {
    hide Step;
    if a.RunStep? {
      StepKeepsMirrors(program, s);
    }
  }

  /** Any mix of instructions and register writes keeps the mirrors and the depth fields true. */
  lemma {:induction false} MirrorsHold(program: Program, s: State, actions: seq<Action>)
    requires Mirrored(s) && forall a :: a in actions ==> ValidAction(a)
    ensures Mirrored(ActAll(program, s, actions))
    decreases |actions|
  {
    hide Mirrored, Act;
    if actions != [] {
      ActKeepsMirrors(program, s, actions[0]);
      MirrorsHold(program, Act(program, s, actions[0]), actions[1..]);
    }
  }

  /** No REPEAT is in progress and the registers show the stack. */
  ghost predicate Ready(s: State) {
    && |s.stack| <= DO_LEVELS && s.active == (s.stack != []) && Mirror(s) == s
    && s.repeatPc == None && s.rcount == 0 && !s.repeatBit
  }

  // ---------------------------------------------------------------------------------------
  // The loop registers of the core
  // ---------------------------------------------------------------------------------------

  /** The four parallel arrays of the DO stack are one array of levels here. */
  class LoopRegisters {
    var pc: nat
    var depth: nat
    const levels: array<Level>
    var dostart: nat
    var doend: nat
    var dcount: nat
    var depthField: nat
    var active: bool
    var repeatActive: bool
    var repeatPc: nat
    var rcount: nat
    var repeatBit: bool
    var stackTrap: bool
    var undefined: bool
    ghost var trace: seq<nat>

    ghost predicate Valid()
      reads this
    {
      depth <= DO_LEVELS == levels.Length
    }

    ghost function View(): State
      requires Valid()
      reads this, levels
    {
      State(pc, levels[..depth], dostart, doend, dcount, depthField, active,
            if repeatActive then Some(repeatPc) else None, rcount, repeatBit, stackTrap, undefined, trace)
    }

    constructor ()
      ensures Valid() && Ready(View()) && View().stack == [] && fresh(levels)
    {
      pc, depth, dostart, doend, dcount, depthField := 0, 0, 0, 0, 0, 0;
      active, repeatActive, repeatPc, rcount, repeatBit := false, false, 0, 0, false;
      stackTrap, undefined, trace := false, false, [];
      levels := new Level[DO_LEVELS](_ => Level(0, 0, 0, 0));
    }

    method CompleteDoLoopIteration()
      requires Valid() && depth > 0
      modifies this, levels
      ensures Valid() && View() == CompleteIteration(old(View()))
    {
      hide Mirror;
      var level := depth - 1;
      if levels[level].count != 0 && levels[level].terminate != 1 {
        levels[level] := levels[level].(count := levels[level].count - 1);
        if levels[level].terminate == 2 {
          levels[level] := levels[level].(terminate := 1);
        }
        dcount := levels[level].count;
        pc := levels[level].start;
        return;
      }
      assert old(View()).stack[..level] == levels[..level];
      LeaveLoop();
    }

    method LeaveLoop()
      requires Valid() && depth > 0
      modifies this, levels
      ensures Valid() && View() == Mirror(old(View()).(stack := old(levels[..depth - 1])))
    {
      var level := depth - 1;
      levels[level] := levels[level].(terminate := 0);
      depth := depth - 1;
      depthField := depth;
      assert levels[..depth] == old(levels[..depth - 1]);
      if depth == 0 {
        dostart, doend, dcount := 0, 0, 0;
        active := false;
        return;
      }
      level := depth - 1;
      dostart := levels[level].start;
      doend := levels[level].end;
      dcount := levels[level].count;
    }

    method ExecuteDoInstruction(program: Program, doCount: nat, doEnd: nat)
      requires Valid()
      modifies this, levels
      ensures Valid() && View() == ExecuteDo(program, old(View()), doCount, doEnd)
    {
      hide ZeroCountWorkaround, Mirror, CompleteIteration, Step;
      assert depth != 0 ==> Top(View()) == levels[depth - 1];
      pc := pc + 4;
      if depth == DO_LEVELS {
        stackTrap := true;
        return;
      }
      if doCount == 0 && depth != 0 && !ZeroCountWorkaround(program, levels[depth - 1].start, pc) {
        undefined := true;
        return;
      }
      EnterLoop(doCount, doEnd);
    }

    method EnterLoop(doCount: nat, doEnd: nat)
      requires Valid() && depth < DO_LEVELS
      modifies this, levels
      ensures Valid()
      ensures View() == old(View()).(stack := old(View()).stack + [Level(old(pc), doEnd, doCount, 0)], dostart := old(pc),
                                     doend := doEnd, dcount := doCount, depthField := old(depth) + 1, active := true)
    {
      var level := depth;
      depth := depth + 1;
      levels[level] := Level(pc, doEnd, doCount, 0);
      dostart, doend, dcount := pc, doEnd, doCount;
      depthField := depth;
      active := true;
    }

    method ExecuteRepeatInstruction(repeatCount: nat)
      requires Valid()
      modifies this
      ensures Valid() && View() == ExecuteRepeat(old(View()), repeatCount)
    {
      pc := pc + 2;
      rcount := repeatCount;
      if rcount != 0 {
        repeatActive := true;
        repeatPc := pc;
        repeatBit := true;
      }
    }

    /** What follows every instruction: the REPEAT count, then the end of the innermost loop. */
    method FinishInstruction(instructionPc: nat, depthBefore: nat)
      requires Valid()
      modifies this, levels
      ensures Valid()
      ensures View() == DoTail(RepeatTail(old(View()), instructionPc), instructionPc, depthBefore)
    {
      hide CompleteIteration;
      assert depth != 0 ==> Top(View()) == levels[depth - 1];
      if repeatActive && instructionPc == repeatPc {
        if rcount != 0 {
          rcount := rcount - 1;
          pc := repeatPc;
          if rcount == 0 {
            repeatBit := false;
          }
        } else {
          repeatActive := false;
          repeatBit := false;
        }
      }
      if depth != 0 && depth <= depthBefore && instructionPc == levels[depth - 1].end {
        CompleteDoLoopIteration();
      }
    }

    method WriteDcountByte(high: bool, value: nat)
      requires Valid() && value < 0x100
      modifies this, levels
      ensures Valid() && View() == WriteDcount(old(View()), high, value)
    {
      if high {
        dcount := dcount % 0x100 + value * 0x100;
      } else {
        dcount := dcount - dcount % 0x100 + value;
      }
      if depth != 0 {
        levels[depth - 1] := levels[depth - 1].(count := dcount);
      }
    }

    method WriteDoendByte(byte: nat, value: nat)
      requires Valid() && byte < 4 && value < 0x100
      modifies this, levels
      ensures Valid() && View() == WriteDoend(old(View()), byte, value)
    {
      var scale := [1, 0x100, 0x1_0000, 0x100_0000][byte];
      doend := doend - doend / scale % 0x100 * scale + value * scale;
      doend := (doend - doend % 2) % 0x40_0000;
      if depth != 0 {
        levels[depth - 1] := levels[depth - 1].(end := doend);
      }
    }

    method WriteCorconEdt(instructionPc: nat)
      requires Valid()
      modifies levels
      ensures Valid() && View() == WriteEdt(old(View()), instructionPc)
    {
      if depth != 0 {
        var level := depth - 1;
        var late := instructionPc == levels[level].end || instructionPc + 2 == levels[level].end;
        levels[level] := levels[level].(terminate := if late then 2 else 1);
      }
    }
  }
}
