/** The numbers of a coverage report as sizes of sets: of marked addresses, and of operations performed. */
module CoverageCounts {
  import opened Coverage
  import opened Wrappers

  /** Slot `i` stands for exactly one address, the `i`-th even one of the range. */
  lemma SlotIsAddress(r: Range, address: nat, i: nat)
    requires ValidRange(r)
    ensures Slot(r, address) == Some(i) <==> address == r.start + 2 * i && address < r.start + r.size
    ensures Slot(r, address) == None <==> address % 2 == 1 || address < r.start || address >= r.start + r.size
  {
  }

  // ---------------------------------------------------------------------------------------
  // Totals
  // ---------------------------------------------------------------------------------------

  ghost function Marked(slots: seq<Flags>, p: Flags -> bool): set<nat> {
    set i: nat | i < |slots| && p(slots[i])
  }

  lemma MarkedGrows(slots: seq<Flags>, f: Flags, p: Flags -> bool)
    ensures |Marked(slots + [f], p)| == |Marked(slots, p)| + if p(f) then 1 else 0
  {
    var all := slots + [f];
    if p(f) {
      assert Marked(all, p) == Marked(slots, p) + {|slots|};
    } else {
      assert Marked(all, p) == Marked(slots, p);
    }
  }

  predicate Executed(f: Flags) { f.executed }
  predicate Taken(f: Flags) { f.taken }
  predicate NotTaken(f: Flags) { f.notTaken }
  predicate Observed(f: Flags) { f.taken || f.notTaken }
  predicate Both(f: Flags) { f.taken && f.notTaken }
  predicate IsDefined(f: Flags) { f.defined }
  predicate Conditional(f: Flags) { f.conditional }
  predicate Covered(f: Flags) { f.executed && f.defined }
  predicate CoveredSite(f: Flags) { (f.taken || f.notTaken) && f.conditional }

  /** Each total is the number of slots with the marks it stands for. */
  ghost predicate AreSizes(t: Totals, slots: seq<Flags>) {
    && t.uniqueInstructions == |Marked(slots, Executed)|
    && t.totalInstructions == |Marked(slots, IsDefined)|
    && t.coveredInstructions == |Marked(slots, Covered)|
    && t.observedSites == |Marked(slots, Observed)|
    && t.observedOutcomes == |Marked(slots, Taken)| + |Marked(slots, NotTaken)|
    && t.sitesWithBoth == |Marked(slots, Both)|
    && t.totalSites == |Marked(slots, Conditional)|
    && t.coveredSites == |Marked(slots, CoveredSite)|
  }

  lemma SizesGrow(t: Totals, slots: seq<Flags>, f: Flags)
    requires AreSizes(t, slots)
    ensures AreSizes(Plus(t, Share(f)), slots + [f])
  {
    hide Marked;
    MarkedGrows(slots, f, Executed);
    MarkedGrows(slots, f, IsDefined);
    MarkedGrows(slots, f, Covered);
    MarkedGrows(slots, f, Observed);
    MarkedGrows(slots, f, Taken);
    MarkedGrows(slots, f, NotTaken);
    MarkedGrows(slots, f, Both);
    MarkedGrows(slots, f, Conditional);
    MarkedGrows(slots, f, CoveredSite);
  }

  lemma {:induction false} RecountIsSizes(slots: seq<Flags>)
    ensures AreSizes(Recount(slots), slots)
  {
    hide Plus, Share, AreSizes;
    if slots == [] {
      NothingMarked();
    } else {
      RecountIsSizes(slots[..|slots| - 1]);
      SizesGrow(Recount(slots[..|slots| - 1]), slots[..|slots| - 1], slots[|slots| - 1]);
      assert slots[..|slots| - 1] + [slots[|slots| - 1]] == slots;
    }
  }

  lemma NothingMarked()
    ensures AreSizes(NO_TOTALS, [])
  {
    assert forall p :: Marked([], p) == {};
  }

  /**
  After any operations on a new map, each of the eight totals is the number of slots that carry the
  marks it stands for; the outcomes count taken and not taken ones apart.
  */
  lemma TotalsAreSizes(r: Range, acts: seq<Act>)
    requires ValidRange(r)
    ensures var s := Run(r, Create(r), acts);
            AreSizes(s.totals, s.slots)
  {
    TotalsAreRecounts(r, acts);
    RecountIsSizes(Run(r, Create(r), acts).slots);
  }

  // ---------------------------------------------------------------------------------------
  // Execution counts
  // ---------------------------------------------------------------------------------------

  /** The operations of a kind since the last clear. */
  ghost function Since(acts: seq<Act>, kind: Act -> bool): set<nat> {
    set k: nat | k < |acts| && kind(acts[k]) && NoResetFrom(acts, k)
  }

  predicate NoResetFrom(acts: seq<Act>, k: nat) {
    forall j :: k <= j < |acts| ==> !acts[j].Reset?
  }

  lemma NoResetGrows(acts: seq<Act>, act: Act, k: nat)
    requires k <= |acts|
    ensures NoResetFrom(acts + [act], k) <==> NoResetFrom(acts, k) && !act.Reset?
  {
    var all := acts + [act];
    assert all[|acts|] == act;
    assert forall j :: k <= j < |acts| ==> all[j] == acts[j];
  }

  lemma NothingReset(acts: seq<Act>)
    ensures NoResetFrom(acts, |acts|)
  {
  }

  lemma SinceGrows(acts: seq<Act>, act: Act, kind: Act -> bool)
    requires act.Reset? ==> !kind(act)
    ensures act.Reset? ==> Since(acts + [act], kind) == {}
    ensures !act.Reset? ==> |Since(acts + [act], kind)| == |Since(acts, kind)| + if kind(act) then 1 else 0
  {
    hide NoResetFrom;
    forall k: nat | k <= |acts| ensures NoResetFrom(acts + [act], k) <==> NoResetFrom(acts, k) && !act.Reset? {
      NoResetGrows(acts, act, k);
    }
    if !act.Reset? {
      NothingReset(acts);
      assert Since(acts + [act], kind) == Since(acts, kind) + if kind(act) then {|acts|} else {};
    }
  }

  /** An address that the map does not hold. */
  predicate Outside(r: Range, address: nat) {
    address % 2 == 1 || address < r.start || address >= r.start + r.size
  }

  ghost predicate CountsAreSizes(r: Range, c: Counts, acts: seq<Act>) {
    && c.instructions == |Since(acts, (a: Act) => a.Record?)|
    && c.outsideRange == |Since(acts, (a: Act) => a.Record? && Outside(r, a.address))|
    && c.branchesTaken == |Since(acts, (a: Act) => a.RecordBranch? && a.taken && !Outside(r, a.address))|
    && c.branchesNotTaken == |Since(acts, (a: Act) => a.RecordBranch? && !a.taken && !Outside(r, a.address))|
  }

  lemma CountsGrow(r: Range, c: Counts, acts: seq<Act>, act: Act)
    requires ValidRange(r) && CountsAreSizes(r, c, acts)
    ensures CountsAreSizes(r, CountsAfter(c, act, !act.Reset? && Slot(r, act.address).Some?), acts + [act])
  {
    hide Since;
    SinceGrows(acts, act, (a: Act) => a.Record?);
    SinceGrows(acts, act, (a: Act) => a.Record? && Outside(r, a.address));
    SinceGrows(acts, act, (a: Act) => a.RecordBranch? && a.taken && !Outside(r, a.address));
    SinceGrows(acts, act, (a: Act) => a.RecordBranch? && !a.taken && !Outside(r, a.address));
  }

  /**
  After any operations on a new map, the counts are the numbers of instructions recorded since the
  last clear, of those among them outside the range, and of branches recorded inside it either way.
  */
  lemma {:induction false} CountsAreNumbers(r: Range, acts: seq<Act>)
    requires ValidRange(r)
    ensures CountsAreSizes(r, Run(r, Create(r), acts).counts, acts)
  {
    hide CountsAreSizes, Adds, FlagsAfter, Plus, ClearedTotals, CountsAfter;
    if acts == [] {
      NothingRecorded(r);
    } else {
      var rest, act := acts[..|acts| - 1], acts[|acts| - 1];
      CountsAreNumbers(r, rest);
      CountsGrow(r, Run(r, Create(r), rest).counts, rest, act);
      ResetForgetsCounts(Run(r, Create(r), rest).counts);
      assert rest + [act] == acts;
    }
  }

  lemma ResetForgetsCounts(c: Counts)
    ensures CountsAfter(c, Reset, false) == NO_COUNTS
  {
  }

  lemma NothingRecorded(r: Range)
    ensures CountsAreSizes(r, NO_COUNTS, [])
  {
    assert forall kind :: Since([], kind) == {};
  }
}
