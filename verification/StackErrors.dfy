/**
When a stack error is raised: by one push or pop, by LNK and ULNK, and by whole well-nested
executions on a stack with a limit.
*/
module StackErrors {
  import opened CallStack
  import opened Wrappers

  /** A push checks the word it writes, a pop the word it reads. */
  lemma PushAndPopRaise(s: State, value: nat)
    requires Valid(s) && value < 0x1_0000
    ensures PushWord(s, value).stackError
            <==> s.stackError || s.w15 < 0x1000 || (s.splimEnabled && (s.w15 > s.splim || s.w15 == 0xfffe))
    ensures PopCheck(s).stackError
            <==> s.stackError || s.w15 < 0x1002 || (s.splimEnabled && s.w15 > s.splim + 2)
  {
  }

  /** LNK checks the word it writes and the address behind the frame, and needs the frame bit clear. */
  lemma LinkRaises(s: State, size: nat)
    requires Valid(s) && size % 2 == 0 && size < 0x4000
    ensures Link(s, size).stackError
            <==> s.stackError || s.sfa || s.w15 < 0x1000 || (s.w15 + 2 + size) % 0x1_0000 < 0x1000
                 || (s.splimEnabled && (s.w15 > s.splim || s.w15 + 2 + size > 0xffff || s.w15 + 2 + size > s.splim))
  {
  }

  /** ULNK checks the word it reads, below W14, and needs the frame bit set. */
  lemma UnlinkRaises(s: State)
    requires Valid(s)
    ensures var top := s.w14 - s.w14 % 2;
            Unlink(s).stackError
            <==> s.stackError || !s.sfa || top < 0x1002 || (s.splimEnabled && top > s.splim + 2)
  {
  }

  // ---------------------------------------------------------------------------------------
  // Whole executions
  // ---------------------------------------------------------------------------------------

  /** The bytes above W15 up to and with the highest word that the code checks; 0 when it checks none. */
  function CheckedBytes(code: Code): nat {
    match code
    case Done => 0
    case Subroutine(_, _, frame, body, rest) =>
      Max(Max(EnterBytes(frame), 4 + FrameBytes(frame) + CheckedBytes(body)), CheckedBytes(rest))
    case Save(_, saved, _, rest) => Max(2 + CheckedBytes(saved), CheckedBytes(rest))
    case Local(_, _, rest) => CheckedBytes(rest)
    case Global(_, _, rest) => CheckedBytes(rest)
  }

  function EnterBytes(frame: Option<nat>): nat {
    match frame case None => 4 case Some(size) => 8 + size
  }

  predicate Over(s: State, w15: nat, bytes: nat) {
    s.splimEnabled && bytes > 0 && w15 + bytes - 2 > s.splim
  }

  /** The state as a core without stack limit and stack error has it. */
  function Blind(s: State): State {
    s.(stackError := false, splimEnabled := false)
  }

  /** The limit changes nothing but the stack error, which is raised above it. */
  ghost predicate Raises(s: State, t: State, blind: State, w15: nat, bytes: nat) {
    && Blind(t) == blind && t.splim == s.splim && t.splimEnabled == s.splimEnabled
    && (t.stackError <==> s.stackError || Over(s, w15, bytes))
  }

  lemma PushRaises(s: State, value: nat)
    requires Valid(s) && STACK_FLOOR <= s.w15 <= 0xfffc && value < 0x1_0000
    ensures Raises(s, PushWord(s, value), PushWord(Blind(s), value), s.w15, 2)
  {
  }

  lemma PopRaises(s: State)
    requires Valid(s) && STACK_FLOOR + 2 <= s.w15
    ensures Raises(s, PopCheck(s), PopCheck(Blind(s)), s.w15 - 2, 2)
  {
  }

  lemma CallRaises(s: State, length: nat, target: nat)
    requires Valid(s) && STACK_FLOOR <= s.w15 <= 0xfff8
    ensures Raises(s, Call(s, length, target), Call(Blind(s), length, target), s.w15, 4)
  {
    hide PushWord, ProgramAddress;
    var pc := ProgramAddress(s.pc + length);
    var low := pc % 0x1_0000 - pc % 2 + if s.sfa then 1 else 0;
    PushRaises(s, low);
    PushWordMoves(s, low);
    PushRaises(PushWord(s, low), pc / 0x1_0000);
  }

  lemma EnterRaises(s: State, length: nat, target: nat, inner: Option<nat>)
    requires Valid(s) && STACK_FLOOR <= s.w15 && s.w15 + 4 + FrameBytes(inner) <= 0xfffc
    requires inner.Some? ==> inner.value % 2 == 0 && inner.value < 0x4000
    ensures Raises(s, Enter(s, length, target, inner), Enter(Blind(s), length, target, inner), s.w15, EnterBytes(inner))
  {
    hide Call, PushWord, ProgramAddress;
    CallRaises(s, length, target);
    CallFits(Blind(s), length, target, 0xfffc);
    var called := Call(s, length, target);
    if inner.Some? {
      PushRaises(called, called.w14);
      PushWordMoves(called, called.w14);
    }
  }

  lemma ReturnRaises(s: State)
    requires Valid(s) && STACK_FLOOR + 4 <= s.w15 && s.callDepth > 0
    ensures Raises(s, Return(s), Return(Blind(s)), s.w15 - 4, 4)
  {
    hide PopCheck;
    PopRaises(s);
    PopCheckMoves(s);
    PopRaises(PopCheck(s));
  }

  lemma UnlinkFollows(s: State)
    requires Valid(s) && s.sfa && STACK_FLOOR + 2 <= s.w14 && s.w14 % 2 == 0
    ensures Raises(s, Unlink(s), Unlink(Blind(s)), s.w14 - 2, 2)
  {
    hide PopCheck, ProgramAddress;
    PopRaises(s.(w15 := s.w14));
  }

  /** Leaving a subroutine checks no word above those that entering it checked. */
  lemma LeaveRaises(s: State, length: nat, target: nat, inner: Option<nat>, ran: State, n: nat,
                    frame: Option<nat>, base: nat, limit: nat)
    requires InStack(Blind(s), frame, base, limit) && s.w15 + 4 + FrameBytes(inner) <= limit
    requires inner.Some? ==> inner.value % 2 == 0 && inner.value < 0x4000
    requires Valid(ran) && Returns(Enter(Blind(s), length, target, inner), Blind(ran), n, inner, base)
    ensures Leave(ran, inner).callDepth > 0 && Leave(Blind(ran), inner).callDepth > 0
    ensures Raises(ran, Return(Leave(ran, inner)), Return(Leave(Blind(ran), inner)), s.w15, if inner.Some? then 6 else 4)
  {
    hide Enter, ProgramAddress, Unlink, Return;
    EnterOpensFrame(Blind(s), length, target, inner, frame, base, limit);
    var entered := Enter(Blind(s), length, target, inner);
    if inner.Some? {
      UnlinkFollows(ran);
      UnlinkFits(Blind(ran), limit);
    }
    ReturnRaises(Leave(ran, inner));
  }

  /**
  A well-nested execution raises a stack error if and only if a word that it checks lies above an
  enabled limit; the limit changes nothing else.
  */
  lemma {:induction false} RunRaises(s: State, code: Code, base: nat, limit: nat, frame: Option<nat>)
    requires WellFormed(code, frame, base) && InStack(Blind(s), frame, base, limit)
    requires s.w15 + StackNeed(code) <= limit
    ensures Raises(s, Run(s, code, base, frame), Run(Blind(s), code, base, frame), s.w15, CheckedBytes(code))
    decreases code, 1
  {
    hide Enter, Leave, Return, Push, Pop, Store, Returns, Valid, InStack, ProgramAddress, Raises;
    BlindInStack(s, frame, base, limit);
    match code
    case Done => DoneRaises(s);
    case Subroutine(_, _, _, _, _) => SubroutineRaises(s, code, base, limit, frame);
    case Save(_, _, _, _) => SavedRaises(s, code, base, limit, frame);
    case Local(offset, value, rest) =>
      StoreReturns(Blind(s), s.w14 + offset, value, frame, base, limit);
      StoreRaises(s, s.w14 + offset, value, rest, base, limit, frame);
    case Global(address, value, rest) =>
      StoreReturns(Blind(s), address, value, frame, base, limit);
      StoreRaises(s, address, value, rest, base, limit, frame);
  }

  lemma DoneRaises(s: State)
    ensures Raises(s, s, Blind(s), s.w15, 0)
  {
  }

  lemma {:induction false} StoreRaises(s: State, address: nat, value: nat, rest: Code, base: nat, limit: nat,
                                       frame: Option<nat>)
    requires WellFormed(rest, frame, base) && InStack(Blind(s), frame, base, limit)
    requires s.w15 + StackNeed(rest) <= limit && address < 0x1_0000 && value < 0x1_0000
    requires Returns(Blind(s), Store(Blind(s), address, value), 2, frame, base)
    ensures Raises(s, Run(Store(s, address, value), rest, base, frame), Run(Store(Blind(s), address, value), rest, base, frame),
                   s.w15, CheckedBytes(rest))
    decreases rest, 2
  {
    hide Returns, InStack, ProgramAddress, Run, CheckedBytes, StackNeed, WellFormed;
    BlindInStack(s, frame, base, limit);
    var after := Store(s, address, value);
    assert Blind(after) == Store(Blind(s), address, value);
    ReturnsCompose(Blind(s), Blind(after), Blind(after), 2, 0, frame, base, limit);
    RunRaises(after, rest, base, limit, frame);
  }

  lemma {:induction false} SubroutineRaises(s: State, code: Code, base: nat, limit: nat, frame: Option<nat>)
    requires code.Subroutine? && WellFormed(code, frame, base) && InStack(Blind(s), frame, base, limit)
    requires s.w15 + StackNeed(code) <= limit
    ensures Raises(s, Run(s, code, base, frame), Run(Blind(s), code, base, frame), s.w15, CheckedBytes(code))
    decreases code, 0
  {
    hide Enter, Leave, Return, Returns, InStack, ProgramAddress;
    BlindInStack(s, frame, base, limit);
    var Subroutine(length, target, inner, body, rest) := code;
    var entered := Enter(s, length, target, inner);
    EnterRaises(s, length, target, inner);
    EnterOpensFrame(Blind(s), length, target, inner, frame, base, limit);
    RunRaises(entered, body, base, limit, inner);
    RunRestores(Blind(entered), body, base, limit, inner);
    var ran := Run(entered, body, base, inner);
    LeaveRaises(s, length, target, inner, ran, Length(body), frame, base, limit);
    LeaveReturns(Blind(s), length, target, inner, Blind(ran), frame, base, limit);
    var after := Return(Leave(ran, inner));
    ReturnsCompose(Blind(s), Blind(after), Blind(after), length, 0, frame, base, limit);
    RunRaises(after, rest, base, limit, frame);
  }

  lemma SaveRaises(s: State, source: nat)
    requires Valid(s) && STACK_FLOOR <= s.w15 <= 0xfffc && source < 0x1_0000
    ensures Raises(s, Push(s, source), Push(Blind(s), source), s.w15, 2)
  {
    hide PushWord, ProgramAddress;
    PushRaises(s, Read(s, source));
  }

  lemma RestoreRaises(s: State, destination: nat)
    requires Valid(s) && STACK_FLOOR + 2 <= s.w15 && destination < 0x1_0000
    ensures Raises(s, Pop(s, destination), Pop(Blind(s), destination), s.w15 - 2, 2)
  {
    hide PopCheck, ProgramAddress;
    PopRaises(s);
  }

  lemma {:induction false} SavedRaises(s: State, code: Code, base: nat, limit: nat, frame: Option<nat>)
    requires code.Save? && WellFormed(code, frame, base) && InStack(Blind(s), frame, base, limit)
    requires s.w15 + StackNeed(code) <= limit
    ensures Raises(s, Run(s, code, base, frame), Run(Blind(s), code, base, frame), s.w15, CheckedBytes(code))
    decreases code, 0
  {
    hide Push, Pop, Returns, InStack, ProgramAddress;
    BlindInStack(s, frame, base, limit);
    var Save(source, saved, destination, rest) := code;
    var pushed := Push(s, source);
    SaveRaises(s, source);
    LengthIsEven(saved, frame, base);
    SaveRestores(Blind(s), source, Blind(pushed), Length(saved), destination, frame, base, limit);
    RunRaises(pushed, saved, base, limit, frame);
    RunRestores(Blind(pushed), saved, base, limit, frame);
    var ran := Run(pushed, saved, base, frame);
    SaveRestores(Blind(s), source, Blind(ran), Length(saved), destination, frame, base, limit);
    RestoredPointer(Blind(pushed), Blind(ran), Length(saved), frame, base);
    RestoreRaises(ran, destination);
    var after := Pop(ran, destination);
    ReturnsCompose(Blind(s), Blind(after), Blind(after), 4 + Length(saved), 0, frame, base, limit);
    RunRaises(after, rest, base, limit, frame);
  }

  lemma BlindInStack(s: State, frame: Option<nat>, base: nat, limit: nat)
    requires InStack(Blind(s), frame, base, limit)
    ensures Valid(s) && Valid(Blind(s)) && STACK_FLOOR <= base <= s.w15 <= limit <= 0xfffc
    ensures frame.Some? ==> s.w14 + frame.value <= s.w15 && s.w14 % 2 == 0
  {
  }

  lemma RestoredPointer(s: State, t: State, length: nat, frame: Option<nat>, base: nat)
    requires Returns(s, t, length, frame, base)
    ensures t.w15 == s.w15
  {
  }
}
