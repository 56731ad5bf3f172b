/**
Subroutine calls and stack frames. CALL pushes the return address together with the stack-frame-
active bit, LNK pushes the frame pointer W14 and opens a frame, ULNK and RETURN undo them.
*/
module CallStack {
  import Division
  import opened Wrappers

  const MEMORY_WORDS: nat := 0x8000
  const STACK_FLOOR: nat := 0x1000
  const PROGRAM_RANGE: nat := 0x80_0000

  /** The registers and data words (two bytes each) that calls use. */
  datatype State = State(
    pc: nat,
    w14: nat,
    w15: nat,
    sfa: bool,
    callDepth: nat,
    splim: nat,
    splimEnabled: bool,
    stackError: bool,
    memory: seq<nat>)

  ghost predicate Valid(s: State) {
    && |s.memory| == MEMORY_WORDS
    && (forall i :: 0 <= i < MEMORY_WORDS ==> s.memory[i] < 0x1_0000)
    && s.w15 < 0x1_0000 && s.w15 % 2 == 0 && s.w14 < 0x1_0000
    && s.pc < PROGRAM_RANGE && s.pc % 2 == 0
  }

  // ---------------------------------------------------------------------------------------
  // The instructions
  // ---------------------------------------------------------------------------------------

  function ProgramAddress(address: nat): (pc: nat)
    ensures pc < PROGRAM_RANGE && pc % 2 == 0
    ensures address < PROGRAM_RANGE && address % 2 == 0 ==> pc == address
  {
    var wrapped := address % PROGRAM_RANGE;
    wrapped - wrapped % 2
  }

  function Checked(s: State, address: int, wrapped: bool): State {
    s.(stackError := s.stackError || address < STACK_FLOOR
                     || (s.splimEnabled && (address % 0x1_0000 > s.splim || wrapped)))
  }

  function StackPointer(value: int): (w15: nat)
    ensures w15 < 0x1_0000 && w15 % 2 == 0
    ensures 0 <= value < 0x1_0000 && value % 2 == 0 ==> w15 == value
  {
    value % 0x1_0000 - value % 0x1_0000 % 2
  }

  function Read(s: State, address: nat): (value: nat)
    requires Valid(s) && address < 0x1_0000
    ensures value < 0x1_0000
  {
    s.memory[address / 2]
  }

  function Write(s: State, address: nat, value: nat): (t: State)
    requires Valid(s) && address < 0x1_0000 && value < 0x1_0000
    ensures Valid(t)
  {
    s.(memory := s.memory[address / 2 := value])
  }

  function PushWord(s: State, value: nat): (t: State)
    requires Valid(s) && value < 0x1_0000
    ensures Valid(t)
  {
    var t := Write(Checked(s, s.w15, s.w15 > 0xfffd), s.w15, value);
    t.(w15 := StackPointer(t.w15 + 2))
  }

  function PopCheck(s: State): (t: State)
    requires Valid(s)
    ensures Valid(t)
  {
    var t := Checked(s, s.w15 - 2, s.w15 < 2);
    t.(w15 := StackPointer(t.w15 - 2))
  }

  function PushProgramCounter(s: State, address: nat): (t: State)
    requires Valid(s) && address < PROGRAM_RANGE
    ensures Valid(t)
  {
    var low := address % 0x1_0000 - address % 2 + if s.sfa then 1 else 0;
    var t := PushWord(PushWord(s, low), address / 0x1_0000);
    t.(sfa := false, callDepth := t.callDepth + 1)
  }

  /** The popped address, and the state with the stack-frame bit it carried. */
  function PopProgramCounter(s: State): (r: (State, nat))
    requires Valid(s) && s.callDepth > 0
    ensures Valid(r.0) && r.1 < PROGRAM_RANGE && r.1 % 2 == 0
  {
    var t := PopCheck(s);
    var high := Read(t, t.w15) % 0x80;
    var u := PopCheck(t);
    var low := Read(u, u.w15);
    (u.(sfa := low % 2 == 1, callDepth := u.callDepth - 1), high * 0x1_0000 + (low - low % 2))
  }

  /** CALL: `length` is 4 bytes with a literal target, 2 with a computed one. */
  function Call(s: State, length: nat, target: nat): (t: State)
    requires Valid(s)
    ensures Valid(t)
  {
    PushProgramCounter(s, ProgramAddress(s.pc + length)).(pc := ProgramAddress(target))
  }

  function Return(s: State): (t: State)
    requires Valid(s) && s.callDepth > 0
    ensures Valid(t)
  {
    var (t, target) := PopProgramCounter(s);
    t.(pc := target)
  }

  function Link(s: State, size: nat): (t: State)
    requires Valid(s) && size % 2 == 0 && size < 0x4000
    ensures Valid(t)
  {
    var t := PushWord(s.(stackError := s.stackError || s.sfa), s.w14);
    var top := t.w15 + size;
    Checked(t.(w14 := t.w15, sfa := true, w15 := StackPointer(top), pc := ProgramAddress(s.pc + 2)),
            StackPointer(top), top > 0xffff)
  }

  function Unlink(s: State): (t: State)
    requires Valid(s)
    ensures Valid(t)
  {
    var t := PopCheck(s.(stackError := s.stackError || !s.sfa, w15 := StackPointer(s.w14)));
    t.(w14 := Read(t, t.w15), sfa := false, pc := ProgramAddress(s.pc + 2))
  }

  /** PUSH of a file register. */
  function Push(s: State, source: nat): (t: State)
    requires Valid(s) && source < 0x1_0000
    ensures Valid(t)
  {
    PushWord(s, Read(s, source)).(pc := ProgramAddress(s.pc + 2))
  }

  /** POP into a file register. */
  function Pop(s: State, destination: nat): (t: State)
    requires Valid(s) && destination < 0x1_0000
    ensures Valid(t)
  {
    var t := PopCheck(s);
    Write(t, destination, Read(t, t.w15)).(pc := ProgramAddress(s.pc + 2))
  }

  function Store(s: State, address: nat, value: nat): (t: State)
    requires Valid(s) && address < 0x1_0000 && value < 0x1_0000
    ensures Valid(t)
  {
    Write(s, address, value).(pc := ProgramAddress(s.pc + 2))
  }

  // ---------------------------------------------------------------------------------------
  // Well-nested executions
  // ---------------------------------------------------------------------------------------

  /**
  The instructions executed by straight-line code with calls: a call runs the whole subroutine,
  with or without a frame; `Save` brackets code with PUSH and POP; `Local` stores into the frame;
  `Global` stores outside the stack.
  */
  datatype Code =
    | Done
    | Subroutine(length: nat, target: nat, frame: Option<nat>, body: Code, rest: Code)
    | Save(source: nat, saved: Code, destination: nat, rest: Code)
    | Local(offset: nat, value: nat, rest: Code)
    | Global(address: nat, value: nat, rest: Code)

  /** Well formed code inside a frame of `frame` bytes (if any), with the stack from `base` up. */
  predicate WellFormed(code: Code, frame: Option<nat>, base: nat) {
    match code
    case Done => true
    case Subroutine(length, target, inner, body, rest) =>
      && (length == 2 || length == 4)
      && (inner.Some? ==> inner.value % 2 == 0 && inner.value < 0x4000)
      && WellFormed(body, inner, base) && WellFormed(rest, frame, base)
    case Save(source, saved, destination, rest) =>
      && source < 0x1_0000 && destination < base && destination % 2 == 0
      && WellFormed(saved, frame, base) && WellFormed(rest, frame, base)
    case Local(offset, value, rest) =>
      && frame.Some? && offset < frame.value && offset % 2 == 0 && value < 0x1_0000
      && WellFormed(rest, frame, base)
    case Global(address, value, rest) =>
      && address < base && address % 2 == 0 && value < 0x1_0000
      && WellFormed(rest, frame, base)
  }

  function Max(a: nat, b: nat): nat {
    if a < b then b else a
  }

  function FrameBytes(frame: Option<nat>): nat {
    match frame case None => 0 case Some(size) => 2 + size
  }

  /** The stack bytes that the code needs above W15. */
  function StackNeed(code: Code): nat {
    match code
    case Done => 0
    case Subroutine(_, _, frame, body, rest) => Max(4 + FrameBytes(frame) + StackNeed(body), StackNeed(rest))
    case Save(_, saved, _, rest) => Max(2 + StackNeed(saved), StackNeed(rest))
    case Local(_, _, rest) => StackNeed(rest)
    case Global(_, _, rest) => StackNeed(rest)
  }

  /** The program bytes of the code itself, not of the subroutines it calls. */
  function Length(code: Code): nat {
    match code
    case Done => 0
    case Subroutine(length, _, _, _, rest) => length + Length(rest)
    case Save(_, saved, _, rest) => 4 + Length(saved) + Length(rest)
    case Local(_, _, rest) => 2 + Length(rest)
    case Global(_, _, rest) => 2 + Length(rest)
  }

  function Run(s: State, code: Code, base: nat, frame: Option<nat>): (t: State)
    requires Valid(s) && WellFormed(code, frame, base) && base < 0x1_0000
    ensures Valid(t)
    decreases code
  {
    match code
    case Done => s
    case Subroutine(length, target, inner, body, rest) =>
      var left := Leave(Run(Enter(s, length, target, inner), body, base, inner), inner);
      if left.callDepth == 0 then left else Run(Return(left), rest, base, frame)
    case Save(source, saved, destination, rest) =>
      Run(Pop(Run(Push(s, source), saved, base, frame), destination), rest, base, frame)
    case Local(offset, value, rest) =>
      Run(Store(s, (s.w14 + offset) % 0x1_0000, value), rest, base, frame)
    case Global(address, value, rest) =>
      Run(Store(s, address, value), rest, base, frame)
  }

  /** No stack error yet, the stack within [base, limit], and W14 on the open frame. */
  ghost predicate InStack(s: State, frame: Option<nat>, base: nat, limit: nat) {
    && Valid(s) && !s.stackError
    && STACK_FLOOR <= base <= s.w15 <= limit <= 0xfffc && base % 2 == 0
    && (s.splimEnabled ==> limit <= s.splim)
    && (s.sfa <==> frame.Some?)
    && (frame.Some? ==> base <= s.w14 && s.w14 % 2 == 0 && s.w14 + frame.value <= s.w15)
  }

  /** The stack words below W15 stay, except those of the frame that the code itself may store into. */
  ghost predicate Untouched(s: State, t: State, frame: Option<nat>, base: nat) {
    && |s.memory| == |t.memory| == MEMORY_WORDS
    && forall i :: base <= 2 * i < s.w15 && 0 <= i < MEMORY_WORDS
                   && !(frame.Some? && s.w14 <= 2 * i < s.w14 + frame.value)
                   ==> t.memory[i] == s.memory[i]
  }

  /** The registers that code must leave as it found them. */
  ghost predicate Restored(s: State, t: State) {
    && t.w14 == s.w14 && t.w15 == s.w15 && t.sfa == s.sfa && t.callDepth == s.callDepth
    && t.splim == s.splim && t.splimEnabled == s.splimEnabled && !t.stackError
  }

  /** There is room for `bytes` more on the stack below the limit. */
  ghost predicate Room(s: State, bytes: nat, limit: nat) {
    && Valid(s) && !s.stackError && STACK_FLOOR <= s.w15 && s.w15 + bytes <= limit <= 0xfffc
    && (s.splimEnabled ==> limit <= s.splim)
  }

  lemma PushWordMoves(s: State, value: nat)
    requires Valid(s) && s.w15 <= 0xfffc && value < 0x1_0000
    ensures var t := PushWord(s, value);
            t == s.(memory := s.memory[s.w15 / 2 := value], w15 := s.w15 + 2, stackError := t.stackError)
  {
  }

  lemma PopCheckMoves(s: State)
    requires Valid(s) && s.w15 >= 2
    ensures PopCheck(s) == s.(w15 := s.w15 - 2, stackError := PopCheck(s).stackError)
  {
  }

  lemma PushWordFits(s: State, value: nat, limit: nat)
    requires Room(s, 2, limit) && value < 0x1_0000
    ensures PushWord(s, value) == s.(memory := s.memory[s.w15 / 2 := value], w15 := s.w15 + 2)
  {
  }

  lemma PopCheckFits(s: State, limit: nat)
    requires Room(s, 0, limit) && STACK_FLOOR + 2 <= s.w15
    ensures PopCheck(s) == s.(w15 := s.w15 - 2)
  {
  }

  lemma CallFits(s: State, length: nat, target: nat, limit: nat)
    requires Room(s, 4, limit)
    ensures Call(s, length, target)
         == s.(memory := s.memory[s.w15 / 2 := ProgramAddress(s.pc + length) % 0x1_0000 + if s.sfa then 1 else 0]
                                 [s.w15 / 2 + 1 := ProgramAddress(s.pc + length) / 0x1_0000],
               w15 := s.w15 + 4, sfa := false, callDepth := s.callDepth + 1, pc := ProgramAddress(target))
  {
    hide PushWord;
    var pc := ProgramAddress(s.pc + length);
    var low := pc % 0x1_0000 - pc % 2 + if s.sfa then 1 else 0;
    PushWordFits(s, low, limit);
    PushWordFits(PushWord(s, low), pc / 0x1_0000, limit);
  }

  lemma LinkFits(s: State, size: nat, limit: nat)
    requires size % 2 == 0 && size < 0x4000 && Room(s, 2 + size, limit) && !s.sfa
    ensures Link(s, size)
         == s.(memory := s.memory[s.w15 / 2 := s.w14], w14 := s.w15 + 2, w15 := s.w15 + 2 + size,
               sfa := true, pc := ProgramAddress(s.pc + 2))
  {
    hide PushWord;
    PushWordFits(s, s.w14, limit);
  }

  /** What code promises when it runs from `s` to `t`. */
  ghost predicate Returns(s: State, t: State, length: nat, frame: Option<nat>, base: nat) {
    Restored(s, t) && Untouched(s, t, frame, base) && t.pc == ProgramAddress(s.pc + length)
  }

  function Enter(s: State, length: nat, target: nat, inner: Option<nat>): (t: State)
    requires Valid(s) && (inner.Some? ==> inner.value % 2 == 0 && inner.value < 0x4000)
    ensures Valid(t)
  {
    var called := Call(s, length, target);
    if inner.Some? then Link(called, inner.value) else called
  }

  /** A call within the stack opens its frame above everything that is in use. */
  lemma EnterOpensFrame(s: State, length: nat, target: nat, inner: Option<nat>, frame: Option<nat>, base: nat, limit: nat)
    requires InStack(s, frame, base, limit) && s.w15 + 4 + FrameBytes(inner) <= limit
    requires inner.Some? ==> inner.value % 2 == 0 && inner.value < 0x4000
    ensures var t := Enter(s, length, target, inner);
            && InStack(t, inner, base, limit)
            && t.w15 == s.w15 + 4 + FrameBytes(inner)
            && (inner.Some? ==> t.w14 == s.w15 + 6) && (inner.None? ==> t.w14 == s.w14)
            && t.callDepth == s.callDepth + 1 && t.splim == s.splim && t.splimEnabled == s.splimEnabled
            && Untouched(s, t, frame, base)
            && t.memory[s.w15 / 2] == ProgramAddress(s.pc + length) % 0x1_0000 + (if s.sfa then 1 else 0)
            && t.memory[s.w15 / 2 + 1] == ProgramAddress(s.pc + length) / 0x1_0000
            && (inner.Some? ==> t.memory[s.w15 / 2 + 2] == s.w14)
    ensures var t := Enter(s, length, target, inner);
            target % 2 == 0 && target < 0x7f_fffe ==> t.pc == if inner.Some? then target + 2 else target
  {
    hide Call, Link, ProgramAddress;
    CallFits(s, length, target, limit);
    if inner.Some? {
      LinkFits(Call(s, length, target), inner.value, limit);
    }
  }

  function Leave(ran: State, inner: Option<nat>): (t: State)
    requires Valid(ran)
    ensures Valid(t)
  {
    if inner.Some? then Unlink(ran) else ran
  }

  lemma UnlinkFits(s: State, limit: nat)
    requires Room(s, 0, limit) && s.sfa && STACK_FLOOR + 2 <= s.w14 <= s.w15 && s.w14 % 2 == 0
    ensures Unlink(s) == s.(w14 := Read(s, s.w14 - 2), w15 := s.w14 - 2, sfa := false, pc := ProgramAddress(s.pc + 2))
  {
    hide PopCheck, ProgramAddress;
    PopCheckFits(s.(w15 := s.w14), limit);
  }

  lemma ReturnFits(s: State, pc: nat, sfa: bool, limit: nat)
    requires Room(s, 0, limit) && STACK_FLOOR + 4 <= s.w15 && s.callDepth > 0 && pc < PROGRAM_RANGE && pc % 2 == 0
    requires s.memory[s.w15 / 2 - 2] == pc % 0x1_0000 + (if sfa then 1 else 0)
    requires s.memory[s.w15 / 2 - 1] == pc / 0x1_0000
    ensures Return(s) == s.(w15 := s.w15 - 4, sfa := sfa, callDepth := s.callDepth - 1, pc := pc)
  {
    hide PopCheck;
    PopCheckFits(s, limit);
    PopCheckFits(s.(w15 := s.w15 - 2), limit);
    PoppedAddress(s.(w15 := s.w15 - 4), pc, sfa);
  }

  /** A body that keeps its frame and restores its registers returns to where the call came from. */
  lemma LeaveReturns(s: State, length: nat, target: nat, inner: Option<nat>, ran: State,
                     frame: Option<nat>, base: nat, limit: nat)
    requires InStack(s, frame, base, limit) && s.w15 + 4 + FrameBytes(inner) <= limit
    requires inner.Some? ==> inner.value % 2 == 0 && inner.value < 0x4000
    requires Valid(ran) && exists n :: Returns(Enter(s, length, target, inner), ran, n, inner, base)
    ensures Leave(ran, inner).callDepth > 0
    ensures Returns(s, Return(Leave(ran, inner)), length, frame, base)
  {
    hide Enter, ProgramAddress, Unlink, Return;
    EnterOpensFrame(s, length, target, inner, frame, base, limit);
    var entered := Enter(s, length, target, inner);
    assert ran.memory[s.w15 / 2] == entered.memory[s.w15 / 2];
    assert ran.memory[s.w15 / 2 + 1] == entered.memory[s.w15 / 2 + 1];
    if inner.Some? {
      assert ran.memory[s.w15 / 2 + 2] == entered.memory[s.w15 / 2 + 2];
      UnlinkFits(ran, limit);
    }
    ReturnFits(Leave(ran, inner), ProgramAddress(s.pc + length), s.sfa, limit);
  }

  lemma PoppedAddress(s: State, pc: nat, sfa: bool)
    requires Valid(s) && s.w15 + 2 < 0x1_0000 && pc < PROGRAM_RANGE && pc % 2 == 0
    requires s.memory[s.w15 / 2] == pc % 0x1_0000 + (if sfa then 1 else 0)
    requires s.memory[s.w15 / 2 + 1] == pc / 0x1_0000
    ensures var high := Read(s, s.w15 + 2) % 0x80;
            var low := Read(s, s.w15);
            (low % 2 == 1) == sfa && high * 0x1_0000 + (low - low % 2) == pc
  {
  }

  lemma EvenPart(address: nat)
    ensures var even := address - address % 2;
            && even % 2 == 0 && even / 0x1_0000 == address / 0x1_0000
            && even % 0x1_0000 == address % 0x1_0000 - address % 2
  {
    var high, low := address / 0x1_0000, address % 0x1_0000;
    assert address == 2 * (0x8000 * high) + low;
    assert address % 2 == low % 2;
    Division.Unique(address - address % 2, 0x1_0000, high, low - low % 2);
  }

  /** What a push of an address leaves for the pop: its even part and the stack-frame bit. */
  lemma PushedAddress(s: State, address: nat)
    requires Valid(s) && s.w15 <= 0xfff8 && address < PROGRAM_RANGE
    ensures var t := PushProgramCounter(s, address);
            var even := address - address % 2;
            && t.w15 == s.w15 + 4 && t.callDepth == s.callDepth + 1 && even % 2 == 0
            && t.memory[s.w15 / 2] == even % 0x1_0000 + (if s.sfa then 1 else 0)
            && t.memory[s.w15 / 2 + 1] == even / 0x1_0000
  {
    hide PushWord;
    var low := address % 0x1_0000 - address % 2 + if s.sfa then 1 else 0;
    PushWordMoves(s, low);
    PushWordMoves(PushWord(s, low), address / 0x1_0000);
    EvenPart(address);
  }

  lemma PoppedCounter(s: State, pc: nat, sfa: bool)
    requires Valid(s) && 4 <= s.w15 && s.callDepth > 0 && pc < PROGRAM_RANGE && pc % 2 == 0
    requires s.memory[s.w15 / 2 - 2] == pc % 0x1_0000 + (if sfa then 1 else 0)
    requires s.memory[s.w15 / 2 - 1] == pc / 0x1_0000
    ensures var (t, target) := PopProgramCounter(s);
            target == pc && t.w15 == s.w15 - 4 && t.sfa == sfa && t.callDepth == s.callDepth - 1
  {
    hide PopCheck;
    PopCheckMoves(s);
    PopCheckMoves(PopCheck(s));
    PoppedAddress(s.(w15 := s.w15 - 4), pc, sfa);
  }

  /** A return address survives the stack exactly when it is an even 23-bit address. */
  lemma ReturnAddressSurvives(s: State, address: nat)
    requires Valid(s) && STACK_FLOOR <= s.w15 <= 0xfff8 && address < PROGRAM_RANGE
    ensures var (t, target) := PopProgramCounter(PushProgramCounter(s, address));
            && (target == address <==> address % 2 == 0)
            && t.w15 == s.w15 && t.sfa == s.sfa && t.callDepth == s.callDepth
  {
    hide PushProgramCounter, PopProgramCounter;
    PushedAddress(s, address);
    PoppedCounter(PushProgramCounter(s, address), address - address % 2, s.sfa);
  }

  /** PUSH and POP around code that restores its registers carry one word past it. */
  lemma SaveRestores(s: State, source: nat, ran: State, length: nat, destination: nat,
                     frame: Option<nat>, base: nat, limit: nat)
    requires InStack(s, frame, base, limit) && s.w15 + 2 <= limit && length % 2 == 0
    requires source < 0x1_0000 && destination < base && destination % 2 == 0
    ensures InStack(Push(s, source), frame, base, limit) && Push(s, source).w15 == s.w15 + 2
    ensures Valid(ran) && Returns(Push(s, source), ran, length, frame, base)
            ==> Returns(s, Pop(ran, destination), 4 + length, frame, base)
                && Read(Pop(ran, destination), destination) == Read(s, source)
  {
    hide PushWord, PopCheck, ProgramAddress;
    PushWordFits(s, Read(s, source), limit);
    if Valid(ran) && Returns(Push(s, source), ran, length, frame, base) {
      assert ran.memory[s.w15 / 2] == Push(s, source).memory[s.w15 / 2];
      PopCheckFits(ran, limit);
      ProgramAddressAdds(s.pc, 2, length);
      ProgramAddressAdds(s.pc, 2 + length, 2);
    }
  }

  lemma ReturnsCompose(s: State, t: State, u: State, m: nat, n: nat, frame: Option<nat>, base: nat, limit: nat)
    requires InStack(s, frame, base, limit) && Valid(t) && Returns(s, t, m, frame, base) && m % 2 == 0
    ensures InStack(t, frame, base, limit) && t.w15 == s.w15
    ensures Returns(t, u, n, frame, base) ==> Returns(s, u, m + n, frame, base)
  {
    ProgramAddressAdds(s.pc, m, n);
    hide ProgramAddress;
  }

  lemma StoreReturns(s: State, address: nat, value: nat, frame: Option<nat>, base: nat, limit: nat)
    requires InStack(s, frame, base, limit) && address < 0x1_0000 && address % 2 == 0 && value < 0x1_0000
    requires address < base || (frame.Some? && s.w14 <= address < s.w14 + frame.value)
    ensures Returns(s, Store(s, address, value), 2, frame, base)
  {
  }

  /**
  Well-nested code that fits the stack raises no stack error, continues after itself, and leaves
  the frame registers, the call depth and every older frame as they were, at any nesting depth.
  */
  lemma {:induction false} RunRestores(s: State, code: Code, base: nat, limit: nat, frame: Option<nat>)
    requires WellFormed(code, frame, base) && InStack(s, frame, base, limit)
    requires s.w15 + StackNeed(code) <= limit
    ensures Returns(s, Run(s, code, base, frame), Length(code), frame, base)
    decreases code, 1
  {
    hide Enter, Leave, Return, Push, Pop, Store, Returns, Valid, InStack, ProgramAddress;
    InStackFacts(s, frame, base, limit);
    match code
    case Done => DoneReturns(s, frame, base, limit);
    case Subroutine(_, _, _, _, _) => SubroutineRestores(s, code, base, limit, frame);
    case Save(_, _, _, _) => SavedRestores(s, code, base, limit, frame);
    case Local(offset, value, rest) =>
      var after := Store(s, s.w14 + offset, value);
      StoreReturns(s, s.w14 + offset, value, frame, base, limit);
      ReturnsCompose(s, after, Run(after, rest, base, frame), 2, Length(rest), frame, base, limit);
      RunRestores(after, rest, base, limit, frame);
    case Global(address, value, rest) =>
      var after := Store(s, address, value);
      StoreReturns(s, address, value, frame, base, limit);
      ReturnsCompose(s, after, Run(after, rest, base, frame), 2, Length(rest), frame, base, limit);
      RunRestores(after, rest, base, limit, frame);
  }

  lemma {:induction false} SubroutineRestores(s: State, code: Code, base: nat, limit: nat, frame: Option<nat>)
    requires code.Subroutine? && WellFormed(code, frame, base) && InStack(s, frame, base, limit)
    requires s.w15 + StackNeed(code) <= limit
    ensures Returns(s, Run(s, code, base, frame), Length(code), frame, base)
    decreases code, 0
  {
    hide Enter, Leave, Return, Push, Pop, Store, Returns, Valid, InStack, ProgramAddress;
    InStackFacts(s, frame, base, limit);
    var Subroutine(length, target, inner, body, rest) := code;
    var entered := Enter(s, length, target, inner);
    EnterOpensFrame(s, length, target, inner, frame, base, limit);
    RunRestores(entered, body, base, limit, inner);
    var ran := Run(entered, body, base, inner);
    LeaveReturns(s, length, target, inner, ran, frame, base, limit);
    var after := Return(Leave(ran, inner));
    ReturnsCompose(s, after, Run(after, rest, base, frame), length, Length(rest), frame, base, limit);
    RunRestores(after, rest, base, limit, frame);
  }

  lemma {:induction false} SavedRestores(s: State, code: Code, base: nat, limit: nat, frame: Option<nat>)
    requires code.Save? && WellFormed(code, frame, base) && InStack(s, frame, base, limit)
    requires s.w15 + StackNeed(code) <= limit
    ensures Returns(s, Run(s, code, base, frame), Length(code), frame, base)
    decreases code, 0
  {
    hide Enter, Leave, Return, Push, Pop, Store, Returns, Valid, InStack, ProgramAddress;
    InStackFacts(s, frame, base, limit);
    var Save(source, saved, destination, rest) := code;
    var pushed := Push(s, source);
    LengthIsEven(saved, frame, base);
    SaveRestores(s, source, pushed, Length(saved), destination, frame, base, limit);
    RunRestores(pushed, saved, base, limit, frame);
    var ran := Run(pushed, saved, base, frame);
    SaveRestores(s, source, ran, Length(saved), destination, frame, base, limit);
    var after := Pop(ran, destination);
    ReturnsCompose(s, after, Run(after, rest, base, frame), 4 + Length(saved), Length(rest), frame, base, limit);
    RunRestores(after, rest, base, limit, frame);
  }

  lemma {:induction false} LengthIsEven(code: Code, frame: Option<nat>, base: nat)
    requires WellFormed(code, frame, base)
    ensures Length(code) % 2 == 0
  {
    match code
    case Done =>
    case Subroutine(_, _, _, _, rest) => LengthIsEven(rest, frame, base);
    case Save(_, saved, _, rest) => LengthIsEven(saved, frame, base); LengthIsEven(rest, frame, base);
    case Local(_, _, rest) => LengthIsEven(rest, frame, base);
    case Global(_, _, rest) => LengthIsEven(rest, frame, base);
  }

  lemma InStackFacts(s: State, frame: Option<nat>, base: nat, limit: nat)
    requires InStack(s, frame, base, limit)
    ensures Valid(s) && base <= s.w15 <= limit <= 0xfffc
    ensures frame.Some? ==> s.w14 + frame.value <= s.w15 && s.w14 % 2 == 0
  {
  }

  lemma DoneReturns(s: State, frame: Option<nat>, base: nat, limit: nat)
    requires InStack(s, frame, base, limit)
    ensures Returns(s, s, 0, frame, base)
  {
  }

  lemma EvenProgramAddress(address: nat)
    requires address % 2 == 0
    ensures ProgramAddress(address) == address % PROGRAM_RANGE
  {
    assert address == address / PROGRAM_RANGE * PROGRAM_RANGE + address % PROGRAM_RANGE;
  }

  lemma WrapsOnce(a: nat, n: nat)
    ensures (a % PROGRAM_RANGE + n) % PROGRAM_RANGE == (a + n) % PROGRAM_RANGE
  {
    assert a == a / PROGRAM_RANGE * PROGRAM_RANGE + a % PROGRAM_RANGE;
  }

  lemma ProgramAddressAdds(pc: nat, m: nat, n: nat)
    requires pc % 2 == 0 && m % 2 == 0
    ensures ProgramAddress(ProgramAddress(pc + m) + n) == ProgramAddress(pc + m + n)
  {
    EvenProgramAddress(pc + m);
    WrapsOnce(pc + m, n);
  }

  // ---------------------------------------------------------------------------------------
  // The core
  // ---------------------------------------------------------------------------------------

  class Core {
    var pc: nat
    var w14: nat
    var w15: nat
    var sfa: bool
    var callDepth: nat
    var splim: nat
    var splimEnabled: bool
    var stackError: bool
    const memory: array<nat>

    constructor (splim: nat, splimEnabled: bool)
      ensures View() == State(0, 0, STACK_FLOOR, false, 0, splim, splimEnabled, false, seq(MEMORY_WORDS, _ => 0))
      ensures Valid(View()) && fresh(memory)
    {
      pc, w14, w15, sfa, callDepth := 0, 0, STACK_FLOOR, false, 0;
      this.splim, this.splimEnabled, stackError := splim, splimEnabled, false;
      memory := new nat[MEMORY_WORDS](_ => 0);
      new;
      assert memory[..] == seq(MEMORY_WORDS, _ => 0);
    }

    ghost function View(): State
      reads this, memory
    {
      State(pc, w14, w15, sfa, callDepth, splim, splimEnabled, stackError, memory[..])
    }

    method CheckStackAddress(address: int, wrapped: bool)
      modifies this`stackError
      ensures View() == Checked(old(View()), address, wrapped)
    {
      var underflow := address < STACK_FLOOR;
      var overflow := splimEnabled && address % 0x1_0000 > splim;
      if !underflow && !overflow && !(splimEnabled && wrapped) {
        return;
      }
      stackError := true;
    }

    method PushStackWord(value: nat)
      requires Valid(View()) && value < 0x1_0000
      modifies this`w15, this`stackError, memory
      ensures View() == PushWord(old(View()), value)
    {
      CheckStackAddress(w15, w15 > 0xfffd);
      memory[w15 / 2] := value;
      w15 := StackPointer(w15 + 2);
    }

    method PopAddress()
      requires Valid(View())
      modifies this`w15, this`stackError
      ensures View() == PopCheck(old(View()))
    {
      CheckStackAddress(w15 - 2, w15 < 2);
      w15 := StackPointer(w15 - 2);
    }

    method StackAddress(address: nat)
      requires Valid(View()) && address < PROGRAM_RANGE
      modifies this`w15, this`sfa, this`callDepth, this`stackError, memory
      ensures View() == PushProgramCounter(old(View()), address)
    {
      hide PushWord;
      PushStackWord(address % 0x1_0000 - address % 2 + if sfa then 1 else 0);
      PushStackWord(address / 0x1_0000);
      sfa := false;
      callDepth := callDepth + 1;
    }

    method UnstackAddress() returns (address: nat)
      requires Valid(View()) && callDepth > 0
      modifies this`w15, this`sfa, this`callDepth, this`stackError
      ensures (View(), address) == PopProgramCounter(old(View()))
    {
      hide PopCheck;
      PopAddress();
      var high := memory[w15 / 2] % 0x80;
      PopAddress();
      var low := memory[w15 / 2];
      sfa := low % 2 == 1;
      callDepth := callDepth - 1;
      address := high * 0x1_0000 + (low - low % 2);
    }

    method ExecuteCall(length: nat, target: nat)
      requires Valid(View())
      modifies this`pc, this`w15, this`sfa, this`callDepth, this`stackError, memory
      ensures View() == Call(old(View()), length, target)
    {
      hide PushProgramCounter, ProgramAddress;
      StackAddress(ProgramAddress(pc + length));
      pc := ProgramAddress(target);
    }

    /** RETURN outside any call stops the simulation instead. */
    method ExecuteReturn() returns (returned: bool)
      requires Valid(View())
      modifies this`pc, this`w15, this`sfa, this`callDepth, this`stackError
      ensures returned == (old(callDepth) > 0)
      ensures View() == if old(callDepth) > 0 then Return(old(View())) else old(View())
    {
      hide PopProgramCounter;
      if callDepth == 0 {
        return false;
      }
      pc := UnstackAddress();
      return true;
    }

    method ExecuteLink(size: nat)
      requires Valid(View()) && size % 2 == 0 && size < 0x4000
      modifies this`pc, this`w14, this`w15, this`sfa, this`stackError, memory
      ensures View() == Link(old(View()), size)
    {
      hide PushWord, ProgramAddress, StackPointer;
      if sfa {
        stackError := true;
      }
      PushStackWord(w14);
      w14 := w15;
      sfa := true;
      var top := w15 + size;
      w15 := StackPointer(top);
      CheckStackAddress(w15, top > 0xffff);
      pc := ProgramAddress(pc + 2);
    }

    method ExecuteUnlink()
      requires Valid(View())
      modifies this`pc, this`w14, this`w15, this`sfa, this`stackError
      ensures View() == Unlink(old(View()))
    {
      hide PopCheck, ProgramAddress, StackPointer;
      if !sfa {
        stackError := true;
      }
      w15 := StackPointer(w14);
      PopAddress();
      w14 := memory[w15 / 2];
      sfa := false;
      pc := ProgramAddress(pc + 2);
    }
  }
}
