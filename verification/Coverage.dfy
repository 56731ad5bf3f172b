/**
Coverage recording: a byte of flags per instruction slot, and totals that every operation keeps up
to date step by step.
*/
module Coverage {
  import opened Wrappers

  datatype Flags = Flags(executed: bool, taken: bool, notTaken: bool, defined: bool, conditional: bool)

  /** The totals over sites and outcomes. */
  datatype Totals = Totals(uniqueInstructions: int, observedSites: int, observedOutcomes: int, sitesWithBoth: int,
                           coveredInstructions: int, totalInstructions: int, coveredSites: int, totalSites: int)

  /** The counts of executions. */
  datatype Counts = Counts(instructions: nat, outsideRange: nat, branchesTaken: nat, branchesNotTaken: nat)

  datatype State = State(slots: seq<Flags>, totals: Totals, counts: Counts)

  /** The instruction range: an even start and an even, nonzero size within the address space. */
  datatype Range = Range(start: nat, size: nat)

  ghost predicate ValidRange(r: Range) {
    r.start % 2 == 0 && r.size % 2 == 0 && r.size > 0 && r.start + r.size <= 0x1_0000_0000
  }

  function Slot(r: Range, address: nat): (slot: Option<nat>)
    ensures slot.Some? ==> slot.value < r.size / 2 + r.size % 2
  {
    if address % 2 != 0 || address < r.start || address - r.start >= r.size then None
    else Some((address - r.start) / 2)
  }

  const NO_TOTALS: Totals := Totals(0, 0, 0, 0, 0, 0, 0, 0)
  const NO_COUNTS: Counts := Counts(0, 0, 0, 0)

  function Blank(n: nat): (slots: seq<Flags>)
    ensures |slots| == n
  {
    if n == 0 then [] else Blank(n - 1) + [Flags(false, false, false, false, false)]
  }

  function Create(r: Range): State {
    State(Blank(r.size / 2), NO_TOTALS, NO_COUNTS)
  }

  // ---------------------------------------------------------------------------------------
  // The operations
  // ---------------------------------------------------------------------------------------

  datatype Act = Define(address: nat, branch: bool) | Record(address: nat) | RecordBranch(address: nat, taken: bool) | Reset

  function One(b: bool): int {
    if b then 1 else 0
  }

  function Plus(a: Totals, b: Totals): Totals {
    Totals(a.uniqueInstructions + b.uniqueInstructions, a.observedSites + b.observedSites,
           a.observedOutcomes + b.observedOutcomes, a.sitesWithBoth + b.sitesWithBoth,
           a.coveredInstructions + b.coveredInstructions, a.totalInstructions + b.totalInstructions,
           a.coveredSites + b.coveredSites, a.totalSites + b.totalSites)
  }

  /** The flags of a slot after an operation on its address. */
  function FlagsAfter(f: Flags, act: Act): Flags {
    match act
    case Define(_, branch) => f.(defined := true, conditional := f.conditional || branch)
    case Record(_) => f.(executed := true)
    case RecordBranch(_, taken) => f.(taken := f.taken || taken, notTaken := f.notTaken || !taken)
    case Reset => Flags(false, false, false, f.defined, f.conditional)
  }

  /** What the operation adds to the totals, from the flags it finds. */
  function Adds(f: Flags, act: Act): Totals {
    match act
    case Define(_, branch) =>
      var newSite := branch && !f.conditional;
      NO_TOTALS.(totalInstructions := One(!f.defined), coveredInstructions := One(!f.defined && f.executed),
                 totalSites := One(newSite), coveredSites := One(newSite && (f.taken || f.notTaken)))
    case Record(_) =>
      NO_TOTALS.(uniqueInstructions := One(!f.executed), coveredInstructions := One(!f.executed && f.defined))
    case RecordBranch(_, taken) =>
      var newSite, newOutcome := !f.taken && !f.notTaken, if taken then !f.taken else !f.notTaken;
      var opposite := if taken then f.notTaken else f.taken;
      NO_TOTALS.(observedSites := One(newSite), coveredSites := One(newSite && f.conditional),
                 observedOutcomes := One(newOutcome), sitesWithBoth := One(newOutcome && opposite))
    case Reset => NO_TOTALS
  }

  function CountsAfter(c: Counts, act: Act, inRange: bool): Counts {
    match act
    case Define(_, _) => c
    case Record(_) =>
      c.(instructions := c.instructions + 1, outsideRange := if inRange then c.outsideRange else c.outsideRange + 1)
    case RecordBranch(_, taken) =>
      if !inRange then c
      else if taken then c.(branchesTaken := c.branchesTaken + 1) else c.(branchesNotTaken := c.branchesNotTaken + 1)
    case Reset => NO_COUNTS
  }

  /** Clearing forgets what was executed and keeps what was defined. */
  function Cleared(slots: seq<Flags>): (c: seq<Flags>)
    ensures |c| == |slots|
  {
    seq(|slots|, i requires 0 <= i < |slots| => FlagsAfter(slots[i], Reset))
  }

  function ClearedTotals(t: Totals): Totals {
    NO_TOTALS.(totalInstructions := t.totalInstructions, totalSites := t.totalSites)
  }

  function Perform(r: Range, s: State, act: Act): (t: State)
    requires ValidRange(r) && |s.slots| == r.size / 2
    ensures |t.slots| == |s.slots|
  {
    if act.Reset? then
      State(Cleared(s.slots), ClearedTotals(s.totals), NO_COUNTS)
    else
      match Slot(r, act.address)
      case None => s.(counts := CountsAfter(s.counts, act, false))
      case Some(i) =>
        State(s.slots[i := FlagsAfter(s.slots[i], act)], Plus(s.totals, Adds(s.slots[i], act)),
              CountsAfter(s.counts, act, true))
  }

  function Run(r: Range, s: State, acts: seq<Act>): (t: State)
    requires ValidRange(r) && |s.slots| == r.size / 2
    ensures |t.slots| == |s.slots|
  {
    if acts == [] then s else Perform(r, Run(r, s, acts[..|acts| - 1]), acts[|acts| - 1])
  }

  // ---------------------------------------------------------------------------------------
  // The totals are recounts
  // ---------------------------------------------------------------------------------------

  /** What one slot contributes to each total. */
  function Share(f: Flags): Totals {
    Totals(One(f.executed), One(f.taken || f.notTaken), One(f.taken) + One(f.notTaken), One(f.taken && f.notTaken),
           One(f.executed && f.defined), One(f.defined), One((f.taken || f.notTaken) && f.conditional), One(f.conditional))
  }

  function Recount(slots: seq<Flags>): Totals {
    if slots == [] then NO_TOTALS else Plus(Recount(slots[..|slots| - 1]), Share(slots[|slots| - 1]))
  }

  ghost predicate Valid(r: Range, s: State) {
    |s.slots| == r.size / 2 && s.totals == Recount(s.slots)
  }

  /** An operation adds to the totals what its slot's share grows by. */
  lemma AddsIsGrowthOfShare(f: Flags, act: Act)
    requires !act.Reset?
    ensures Plus(Share(f), Adds(f, act)) == Share(FlagsAfter(f, act))
  {
  }

  lemma PlusSwaps(a: Totals, b: Totals, c: Totals)
    ensures Plus(Plus(a, b), c) == Plus(Plus(a, c), b) == Plus(a, Plus(b, c))
  {
  }

  /** Replacing a slot whose share grows by `more` grows the recount by `more`. */
  lemma {:induction false} RecountGrows(slots: seq<Flags>, i: nat, f: Flags, more: Totals)
    requires i < |slots| && Plus(Share(slots[i]), more) == Share(f)
    ensures Recount(slots[i := f]) == Plus(Recount(slots), more)
  {
    hide Share, Plus;
    var last := |slots| - 1;
    PlusSwaps(Recount(slots[..last]), Share(slots[last]), more);
    if i < last {
      RecountGrows(slots[..last], i, f, more);
      assert slots[i := f][..last] == slots[..last][i := f];
    } else {
      assert slots[i := f][..last] == slots[..last];
    }
  }

  lemma ClearedTotalsAdd(t: Totals, f: Flags)
    ensures ClearedTotals(Plus(t, Share(f))) == Plus(ClearedTotals(t), Share(FlagsAfter(f, Reset)))
  {
  }

  lemma {:induction false} RecountCleared(slots: seq<Flags>)
    ensures Recount(Cleared(slots)) == ClearedTotals(Recount(slots))
  {
    hide Share, Plus, FlagsAfter;
    if slots != [] {
      var last := |slots| - 1;
      RecountCleared(slots[..last]);
      assert Cleared(slots)[..last] == Cleared(slots[..last]);
      ClearedTotalsAdd(Recount(slots[..last]), slots[last]);
    }
  }

  lemma BlankAddsNothing()
    ensures Plus(NO_TOTALS, Share(Flags(false, false, false, false, false))) == NO_TOTALS
  {
  }

  lemma {:induction false} RecountBlank(n: nat)
    ensures Recount(Blank(n)) == NO_TOTALS
  {
    hide Share, Plus;
    if n > 0 {
      RecountBlank(n - 1);
      assert Blank(n)[..n - 1] == Blank(n - 1);
      BlankAddsNothing();
    }
  }

  lemma PerformKeepsValid(r: Range, s: State, act: Act)
    requires ValidRange(r) && Valid(r, s)
    ensures Valid(r, Perform(r, s, act))
  {
    hide Recount, Share, Adds, FlagsAfter, Plus, CountsAfter;
    if act.Reset? {
      RecountCleared(s.slots);
    } else if Slot(r, act.address).Some? {
      var i := Slot(r, act.address).value;
      AddsIsGrowthOfShare(s.slots[i], act);
      RecountGrows(s.slots, i, FlagsAfter(s.slots[i], act), Adds(s.slots[i], act));
    }
  }

  /** After any sequence of operations on a new map, all eight totals are what a recount of the flags gives. */
  lemma {:induction false} TotalsAreRecounts(r: Range, acts: seq<Act>)
    requires ValidRange(r)
    ensures Run(r, Create(r), acts).totals == Recount(Run(r, Create(r), acts).slots)
  {
    hide Perform, Recount, Blank;
    if acts == [] {
      RecountBlank(r.size / 2);
    } else {
      TotalsAreRecounts(r, acts[..|acts| - 1]);
      PerformKeepsValid(r, Run(r, Create(r), acts[..|acts| - 1]), acts[|acts| - 1]);
    }
  }

  // ---------------------------------------------------------------------------------------
  // The order of definitions does not matter
  // ---------------------------------------------------------------------------------------

  lemma DefineCommutesOnSlot(f: Flags, define: Act, other: Act)
    requires define.Define?
    ensures FlagsAfter(FlagsAfter(f, define), other) == FlagsAfter(FlagsAfter(f, other), define)
    ensures !other.Reset? ==>
              Plus(Adds(f, define), Adds(FlagsAfter(f, define), other))
                == Plus(Adds(f, other), Adds(FlagsAfter(f, other), define))
  {
  }

  lemma DefineCommutesWithReset(t: Totals, f: Flags, define: Act)
    requires define.Define?
    ensures ClearedTotals(Plus(t, Adds(f, define))) == Plus(ClearedTotals(t), Adds(FlagsAfter(f, Reset), define))
  {
  }

  /** A definition gives the same state before or after any other operation. */
  lemma DefineCommutes(r: Range, s: State, define: Act, other: Act)
    requires ValidRange(r) && |s.slots| == r.size / 2 && define.Define?
    ensures Perform(r, Perform(r, s, define), other) == Perform(r, Perform(r, s, other), define)
  {
    hide Adds, FlagsAfter, Plus, ClearedTotals;
    if Slot(r, define.address).Some? {
      var i := Slot(r, define.address).value;
      DefineCommutesOnSlot(s.slots[i], define, other);
      if other.Reset? {
        DefineCommutesWithReset(s.totals, s.slots[i], define);
      } else if Slot(r, other.address).Some? {
        var j := Slot(r, other.address).value;
        PlusSwaps(s.totals, Adds(s.slots[i], define), Adds(s.slots[j], other));
        PlusSwaps(s.totals, Adds(s.slots[i], define), Adds(FlagsAfter(s.slots[i], define), other));
        PlusSwaps(s.totals, Adds(s.slots[i], other), Adds(FlagsAfter(s.slots[i], other), define));
      }
    }
  }

  function Defines(acts: seq<Act>): seq<Act> {
    if acts == [] then [] else Defines(acts[..|acts| - 1]) + if acts[|acts| - 1].Define? then [acts[|acts| - 1]] else []
  }

  function Others(acts: seq<Act>): seq<Act> {
    if acts == [] then [] else Others(acts[..|acts| - 1]) + if acts[|acts| - 1].Define? then [] else [acts[|acts| - 1]]
  }

  lemma RunOne(r: Range, s: State, acts: seq<Act>, act: Act)
    requires ValidRange(r) && |s.slots| == r.size / 2
    ensures Run(r, s, acts + [act]) == Perform(r, Run(r, s, acts), act)
  {
    assert (acts + [act])[..|acts|] == acts;
  }

  /** A definition moves to the front of a run. */
  lemma {:induction false} DefineMovesFirst(r: Range, s: State, acts: seq<Act>, define: Act)
    requires ValidRange(r) && |s.slots| == r.size / 2 && define.Define?
    ensures Perform(r, Run(r, s, acts), define) == Run(r, Perform(r, s, define), acts)
  {
    hide Perform;
    if acts != [] {
      var rest := acts[..|acts| - 1];
      DefineMovesFirst(r, s, rest, define);
      DefineCommutes(r, Run(r, s, rest), define, acts[|acts| - 1]);
    }
  }

  /** Any interleaving of definitions with the other operations gives the state of defining everything first. */
  lemma {:induction false} DefinitionsMayComeFirst(r: Range, s: State, acts: seq<Act>)
    requires ValidRange(r) && |s.slots| == r.size / 2
    ensures Run(r, s, acts) == Run(r, Run(r, s, Defines(acts)), Others(acts))
  {
    hide Perform;
    if acts != [] {
      var rest, act := acts[..|acts| - 1], acts[|acts| - 1];
      DefinitionsMayComeFirst(r, s, rest);
      if act.Define? {
        RunOne(r, s, Defines(rest), act);
        DefineMovesFirst(r, Run(r, s, Defines(rest)), Others(rest), act);
        assert Others(acts) == Others(rest);
      } else {
        RunOne(r, Run(r, s, Defines(rest)), Others(rest), act);
        assert Defines(acts) == Defines(rest);
      }
    }
  }

  // ---------------------------------------------------------------------------------------
  // What the flags remember
  // ---------------------------------------------------------------------------------------

  predicate OnSlot(r: Range, act: Act, i: nat) {
    !act.Reset? && Slot(r, act.address) == Some(i)
  }

  /** Some operation `k` on slot `i` sets the flag that `sets` names, and no later one forgets it. */
  ghost predicate Remembered(r: Range, acts: seq<Act>, i: nat, sets: Act -> bool, forgotten: bool) {
    exists k :: 0 <= k < |acts| && OnSlot(r, acts[k], i) && sets(acts[k])
             && (forgotten ==> forall j :: k < j < |acts| ==> !acts[j].Reset?)
  }

  lemma RememberedGrows(r: Range, acts: seq<Act>, act: Act, i: nat, sets: Act -> bool, forgotten: bool)
    ensures Remembered(r, acts + [act], i, sets, forgotten)
       <==> (OnSlot(r, act, i) && sets(act)) || (!(forgotten && act.Reset?) && Remembered(r, acts, i, sets, forgotten))
  {
    var all := acts + [act];
    if OnSlot(r, act, i) && sets(act) {
      assert all[|acts|] == act;
    } else if !(forgotten && act.Reset?) && Remembered(r, acts, i, sets, forgotten) {
      var k :| 0 <= k < |acts| && OnSlot(r, acts[k], i) && sets(acts[k])
            && (forgotten ==> forall j :: k < j < |acts| ==> !acts[j].Reset?);
      assert all[k] == acts[k];
    }
    if Remembered(r, all, i, sets, forgotten) {
      var k :| 0 <= k < |all| && OnSlot(r, all[k], i) && sets(all[k])
            && (forgotten ==> forall j :: k < j < |all| ==> !all[j].Reset?);
      if k < |acts| {
        assert all[k] == acts[k] && all[|acts|] == act;
        assert forall j :: k < j < |acts| ==> all[j] == acts[j];
      }
    }
  }

  predicate Executes(act: Act) {
    act.Record?
  }

  predicate Takes(act: Act) {
    act.RecordBranch? && act.taken
  }

  predicate Passes(act: Act) {
    act.RecordBranch? && !act.taken
  }

  predicate Defined(act: Act) {
    act.Define?
  }

  predicate DefinesBranch(act: Act) {
    act.Define? && act.branch
  }

  /** The flags that the history of a slot calls for. */
  ghost function FlagsOfHistory(r: Range, acts: seq<Act>, i: nat): Flags {
    Flags(Remembered(r, acts, i, Executes, true), Remembered(r, acts, i, Takes, true), Remembered(r, acts, i, Passes, true),
          Remembered(r, acts, i, Defined, false), Remembered(r, acts, i, DefinesBranch, false))
  }

  lemma HistoryGrows(r: Range, acts: seq<Act>, act: Act, i: nat)
    ensures FlagsOfHistory(r, acts + [act], i)
         == if act.Reset? || OnSlot(r, act, i) then FlagsAfter(FlagsOfHistory(r, acts, i), act) else FlagsOfHistory(r, acts, i)
  {
    hide Remembered;
    RememberedGrows(r, acts, act, i, Executes, true);
    RememberedGrows(r, acts, act, i, Takes, true);
    RememberedGrows(r, acts, act, i, Passes, true);
    RememberedGrows(r, acts, act, i, Defined, false);
    RememberedGrows(r, acts, act, i, DefinesBranch, false);
  }

  lemma EmptyHistory(r: Range, i: nat)
    ensures FlagsOfHistory(r, [], i) == Flags(false, false, false, false, false)
  {
  }

  lemma {:induction false} BlankSlots(n: nat, i: nat)
    requires i < n
    ensures Blank(n)[i] == Flags(false, false, false, false, false)
  {
    if i < n - 1 {
      BlankSlots(n - 1, i);
    }
  }

  /**
  After any run on a new map, a slot is marked executed, taken or not taken exactly when such an
  operation reached it since the last clear, and defined or conditional exactly when it was ever
  defined so. With the recount, this gives every total from the history alone.
  */
  lemma {:induction false} FlagsRememberHistory(r: Range, acts: seq<Act>, i: nat)
    requires ValidRange(r) && i < r.size / 2
    ensures Run(r, Create(r), acts).slots[i] == FlagsOfHistory(r, acts, i)
  {
    hide FlagsOfHistory, FlagsAfter, CountsAfter, Adds, Blank;
    if acts == [] {
      BlankSlots(r.size / 2, i);
      EmptyHistory(r, i);
    } else {
      var rest, act := acts[..|acts| - 1], acts[|acts| - 1];
      FlagsRememberHistory(r, rest, i);
      assert acts == rest + [act];
      HistoryGrows(r, rest, act, i);
    }
  }

  // ---------------------------------------------------------------------------------------
  // The map
  // ---------------------------------------------------------------------------------------

  class CoverageMap {
    const range: Range
    const slots: array<Flags>
    var totals: Totals
    var counts: Counts

    ghost predicate Ready() {
      ValidRange(range) && slots.Length == range.size / 2
    }

    function View(): State
      reads this, slots
    {
      State(slots[..], totals, counts)
    }

    constructor (range: Range)
      requires ValidRange(range)
      ensures Ready() && this.range == range && View() == Create(range) && fresh(slots)
    {
      this.range := range;
      slots := new Flags[range.size / 2](_ => Flags(false, false, false, false, false));
      totals, counts := NO_TOTALS, NO_COUNTS;
      new;
      forall i: nat | i < range.size / 2 ensures slots[i] == Blank(range.size / 2)[i] {
        BlankSlots(range.size / 2, i);
      }
      assert slots[..] == Blank(range.size / 2);
    }

    method ClearAll()
      requires Ready()
      modifies this, slots
      ensures View() == Perform(range, old(View()), Reset)
    {
      counts := NO_COUNTS;
      totals := ClearedTotals(totals);
      for slot := 0 to slots.Length
        invariant totals == ClearedTotals(old(totals)) && counts == NO_COUNTS
        invariant forall i :: 0 <= i < slot ==> slots[i] == FlagsAfter(old(slots[i]), Reset)
        invariant forall i :: slot <= i < slots.Length ==> slots[i] == old(slots[i])
      {
        slots[slot] := slots[slot].(executed := false, taken := false, notTaken := false);
      }
      assert slots[..] == Cleared(old(slots[..]));
    }

    method DefineInstruction(address: nat, branch: bool) returns (defined: bool)
      requires Ready()
      modifies this, slots
      ensures View() == Perform(range, old(View()), Define(address, branch))
      ensures defined <==> Slot(range, address).Some?
    {
      var found := Slot(range, address);
      if found == None {
        return false;
      }
      var slot := found.value;
      if !slots[slot].defined {
        slots[slot] := slots[slot].(defined := true);
        totals := totals.(totalInstructions := totals.totalInstructions + 1);
        if slots[slot].executed {
          totals := totals.(coveredInstructions := totals.coveredInstructions + 1);
        }
      }
      if branch && !slots[slot].conditional {
        slots[slot] := slots[slot].(conditional := true);
        totals := totals.(totalSites := totals.totalSites + 1);
        if slots[slot].taken || slots[slot].notTaken {
          totals := totals.(coveredSites := totals.coveredSites + 1);
        }
      }
      return true;
    }

    method RecordInstruction(address: nat)
      requires Ready()
      modifies this, slots
      ensures View() == Perform(range, old(View()), Record(address))
    {
      var found := Slot(range, address);
      if found == None {
        counts := counts.(outsideRange := counts.outsideRange + 1);
      } else if !slots[found.value].executed {
        var slot := found.value;
        slots[slot] := slots[slot].(executed := true);
        totals := totals.(uniqueInstructions := totals.uniqueInstructions + 1,
                          coveredInstructions := totals.coveredInstructions + One(slots[slot].defined));
      }
      counts := counts.(instructions := counts.instructions + 1);
    }

    method RecordOutcome(address: nat, taken: bool)
      requires Ready()
      modifies this, slots
      ensures View() == Perform(range, old(View()), RecordBranch(address, taken))
    {
      var found := Slot(range, address);
      if found == None {
        return;
      }
      var slot := found.value;
      if !slots[slot].taken && !slots[slot].notTaken {
        totals := totals.(observedSites := totals.observedSites + 1,
                          coveredSites := totals.coveredSites + One(slots[slot].conditional));
      }
      var known, opposite := slots[slot].taken, slots[slot].notTaken;
      if !taken {
        known, opposite := opposite, known;
      }
      if !known {
        slots[slot] := if taken then slots[slot].(taken := true) else slots[slot].(notTaken := true);
        totals := totals.(observedOutcomes := totals.observedOutcomes + 1);
        if opposite {
          totals := totals.(sitesWithBoth := totals.sitesWithBoth + 1);
        }
      }
      if taken {
        counts := counts.(branchesTaken := counts.branchesTaken + 1);
      } else {
        counts := counts.(branchesNotTaken := counts.branchesNotTaken + 1);
      }
    }
  }
}
