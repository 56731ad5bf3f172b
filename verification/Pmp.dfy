/**
Parallel master port transfers. A transfer occupies the `active` slot until its bus phase is over,
then the `completing` slot for its last cycle, so that the next transfer may start meanwhile.

The master events are kept in the order they were scheduled, each with the cycles it still has to
wait, and those due together are delivered in that order. `PmpQueue` shows exactly when the device's
event queue does so.
*/
module Pmp {
  import opened Wrappers

  /** The register contents that a transfer captures when it starts. */
  datatype Transfer = Transfer(
    address: nat,
    addressPhases: nat,
    wide: bool,
    waitBegin: nat,
    waitMiddle: nat,
    waitEnd: nat,
    value: nat,
    reading: bool)

  datatype Slot = Slot(generation: nat, transfer: Transfer)

  datatype Pending = Pending(clearsBusy: bool, generation: nat, remaining: nat)

  /** A transfer that was handed over, the data it carried, and the running cycles passed by then. */
  datatype Completed = Completed(slot: Slot, value: nat, clock: nat)

  /**
  The port and its history: `clock` counts the cycles during which the port is clocked, `kept` the
  slots that were started and not aborted, in start order.
  */
  datatype State = State(
    generation: nat,
    active: Option<Slot>,
    completing: Option<Slot>,
    busy: bool,
    pending: seq<Pending>,
    stopped: bool,
    clock: nat,
    kept: seq<Slot>,
    startClock: map<nat, nat>,
    completed: seq<Completed>)

  function TransferCycles(t: Transfer): (cycles: nat)
    ensures cycles > 0
  {
    var dataPhases := if t.wide then 2 else 1;
    if t.waitMiddle == 0 then t.addressPhases + dataPhases
    else t.addressPhases * (t.waitBegin + 1)
         + dataPhases * (t.waitBegin + 1 + t.waitMiddle + t.waitEnd + 1)
  }

  datatype Phase = AddressPhase | DataPhase

  /** The phases of a transfer on the bus: its address in parts, then one byte or two. */
  function Phases(t: Transfer): seq<Phase> {
    seq(t.addressPhases, _ => AddressPhase) + if t.wide then [DataPhase, DataPhase] else [DataPhase]
  }

  /** A phase takes one cycle without wait states; with them a set-up, and for data a strobe and a hold as well. */
  function PhaseCycles(t: Transfer, phase: Phase): nat {
    var setUp, strobe, hold := t.waitBegin + 1, t.waitMiddle, t.waitEnd + 1;
    if strobe == 0 then 1 else if phase.AddressPhase? then setUp else setUp + strobe + hold
  }

  function AllCycles(t: Transfer, phases: seq<Phase>): nat {
    if phases == [] then 0 else AllCycles(t, phases[..|phases| - 1]) + PhaseCycles(t, phases[|phases| - 1])
  }

  lemma {:induction false} AddressCycles(t: Transfer, n: nat)
    ensures AllCycles(t, seq(n, _ => AddressPhase)) == n * PhaseCycles(t, AddressPhase)
  {
    if n > 0 {
      var phases := seq(n, _ => AddressPhase);
      assert phases[..n - 1] == seq(n - 1, _ => AddressPhase);
      AddressCycles(t, n - 1);
    }
  }

  /** A transfer takes the cycles of its phases. */
  lemma TransferTakesItsPhases(t: Transfer)
    ensures TransferCycles(t) == AllCycles(t, Phases(t))
  {
    var address := seq(t.addressPhases, _ => AddressPhase);
    AddressCycles(t, t.addressPhases);
    assert (address + [DataPhase])[..|address|] == address;
    assert (address + [DataPhase, DataPhase])[..|address| + 1] == address + [DataPhase];
    assert AllCycles(t, address + [DataPhase]) == AllCycles(t, address) + PhaseCycles(t, DataPhase);
  }

  function DataMask(t: Transfer, value: nat): nat {
    value % if t.wide then 0x1_0000 else 0x100
  }

  // ---------------------------------------------------------------------------------------
  // The operations
  // ---------------------------------------------------------------------------------------

  /** A register access starts a transfer when the port is clocked and its bus is free. */
  function Start(s: State, t: Transfer): State {
    if s.active.Some? || s.stopped then s
    else
      var transfer := t.(value := if t.reading then 0 else DataMask(t, t.value));
      var slot := Slot(s.generation + 1, transfer);
      var delay := TransferCycles(transfer);
      s.(generation := s.generation + 1,
         active := Some(slot),
         busy := s.busy || delay > 1,
         pending := s.pending + [Pending(false, slot.generation, delay)]
                    + if delay > 1 then [Pending(true, slot.generation, delay - 1)] else [],
         kept := s.kept + [slot],
         startClock := s.startClock[slot.generation := s.clock])
  }

  function ClearBusy(s: State, generation: nat): State {
    if s.active.None? || generation != s.generation then s
    else s.(completing := s.active, active := None, busy := false)
  }

  function Complete(s: State, generation: nat, response: nat): State {
    if s.completing.Some? && generation == s.completing.value.generation then
      Finish(s.(completing := None), s.completing.value, response)
    else if s.active.Some? && generation == s.generation then
      Finish(s.(active := None, busy := false), s.active.value, response)
    else s
  }

  function Finish(s: State, slot: Slot, response: nat): State {
    var value := if slot.transfer.reading then DataMask(slot.transfer, response) else slot.transfer.value;
    s.(completed := s.completed + [Completed(slot, value, s.clock)])
  }

  function Without(slots: seq<Slot>, generations: set<nat>): seq<Slot> {
    if slots == [] then []
    else Without(slots[..|slots| - 1], generations)
         + if slots[|slots| - 1].generation in generations then [] else [slots[|slots| - 1]]
  }

  function InFlight(s: State): set<nat> {
    (if s.completing.Some? then {s.completing.value.generation} else {})
    + (if s.active.Some? then {s.active.value.generation} else {})
  }

  /** Disabling the port discards its events and both slots. */
  function Abort(s: State): State {
    s.(generation := s.generation + 1, active := None, completing := None, busy := false, pending := [],
       kept := Without(s.kept, InFlight(s)))
  }

  /** The first event in scheduling order that is due. */
  function FirstDue(pending: seq<Pending>): (index: nat)
    ensures index <= |pending|
    ensures index < |pending| ==> pending[index].remaining == 0
    ensures forall i :: 0 <= i < index ==> pending[i].remaining > 0
  {
    if pending == [] || pending[0].remaining == 0 then 0 else 1 + FirstDue(pending[1..])
  }

  function Deliver(s: State, response: nat): State {
    var index := FirstDue(s.pending);
    if s.stopped || index == |s.pending| then s
    else
      var event := s.pending[index];
      var rest := s.(pending := s.pending[..index] + s.pending[index + 1..]);
      if event.clearsBusy then ClearBusy(rest, event.generation) else Complete(rest, event.generation, response)
  }

  predicate MayPass(s: State, cycles: nat) {
    s.stopped || forall p :: p in s.pending ==> cycles <= p.remaining
  }

  function Aged(pending: seq<Pending>, cycles: nat): (aged: seq<Pending>)
    ensures |aged| == |pending|
  {
    seq(|pending|, i requires 0 <= i < |pending| =>
          pending[i].(remaining := if cycles <= pending[i].remaining then pending[i].remaining - cycles else 0))
  }

  /** Time never passes an event that is due; a paused port does not age. */
  function Tick(s: State, cycles: nat): State {
    if s.stopped || !MayPass(s, cycles) then s
    else s.(clock := s.clock + cycles, pending := Aged(s.pending, cycles))
  }

  datatype Action =
    | StartTransfer(transfer: Transfer)
    | DeliverEvent(response: nat)
    | PassTime(cycles: nat)
    | StopClock
    | StartClock
    | AbortAll

  function Act(s: State, a: Action): State {
    match a
    case StartTransfer(transfer) => Start(s, transfer)
    case DeliverEvent(response) => Deliver(s, response)
    case PassTime(cycles) => Tick(s, cycles)
    case StopClock => s.(stopped := true)
    case StartClock => s.(stopped := false)
    case AbortAll => Abort(s)
  }

  function Run(s: State, actions: seq<Action>): State
    decreases |actions|
  {
    if actions == [] then s else Run(Act(s, actions[0]), actions[1..])
  }

  const RESET: State := State(0, None, None, false, [], false, 0, [], map[], [])

  // ---------------------------------------------------------------------------------------
  // What every run keeps
  // ---------------------------------------------------------------------------------------

  /** The clock at which a transfer is due to complete. */
  function DueClock(s: State, slot: Slot): nat
    requires slot.generation in s.startClock
  {
    s.startClock[slot.generation] + TransferCycles(slot.transfer)
  }

  function CompleteEvent(s: State, slot: Slot): seq<Pending>
    requires slot.generation in s.startClock && s.clock <= DueClock(s, slot)
  {
    [Pending(false, slot.generation, DueClock(s, slot) - s.clock)]
  }

  function ClearEvent(s: State, slot: Slot): seq<Pending>
    requires slot.generation in s.startClock
    requires TransferCycles(slot.transfer) > 1 ==> s.clock < DueClock(s, slot)
  {
    if TransferCycles(slot.transfer) > 1 then [Pending(true, slot.generation, DueClock(s, slot) - s.clock - 1)] else []
  }

  ghost predicate SlotsOnSchedule(s: State) {
    && (s.completing.Some? ==>
          && s.completing.value.generation in s.startClock
          && s.completing.value.generation < s.generation + 1
          && s.clock <= DueClock(s, s.completing.value) <= s.clock + 1)
    && (s.active.Some? ==>
          && s.active.value.generation == s.generation
          && s.generation in s.startClock
          && s.startClock[s.generation] <= s.clock
          && s.clock <= DueClock(s, s.active.value)
          && (TransferCycles(s.active.value.transfer) > 1 ==> s.clock < DueClock(s, s.active.value)))
    && (s.completing.Some? && s.active.Some? ==>
          && s.completing.value.generation < s.generation
          && DueClock(s, s.completing.value) <= s.startClock[s.generation] + 1)
  }

  /** The queue holds exactly the events that the two slots are waiting for. */
  ghost predicate QueueMatchesSlots(s: State)
    requires SlotsOnSchedule(s)
  {
    s.pending == (if s.completing.Some? then CompleteEvent(s, s.completing.value) else [])
               + (if s.active.Some? then CompleteEvent(s, s.active.value) + ClearEvent(s, s.active.value) else [])
  }

  function CompletedSlots(completed: seq<Completed>): (slots: seq<Slot>)
    ensures |slots| == |completed|
  {
    seq(|completed|, i requires 0 <= i < |completed| => completed[i].slot)
  }

  function Slots(s: State): seq<Slot> {
    (if s.completing.Some? then [s.completing.value] else []) + (if s.active.Some? then [s.active.value] else [])
  }

  ghost predicate Increasing(slots: seq<Slot>) {
    forall i, j :: 0 <= i < j < |slots| ==> slots[i].generation < slots[j].generation
  }

  /** Handed over with its data, after exactly its transfer cycles of running clock. */
  ghost predicate CompletedOnTime(s: State, c: Completed) {
    && c.slot.generation in s.startClock && c.clock == DueClock(s, c.slot)
    && (!c.slot.transfer.reading ==> c.value == c.slot.transfer.value)
  }

  ghost predicate HistoryMatches(s: State) {
    && (forall c :: c in s.completed ==> CompletedOnTime(s, c))
    && (forall slot :: slot in s.kept ==> slot.generation <= s.generation)
    && Increasing(s.kept)
    && s.kept == CompletedSlots(s.completed) + Slots(s)
  }

  ghost predicate Valid(s: State) {
    SlotsOnSchedule(s) && QueueMatchesSlots(s) && HistoryMatches(s)
  }

  lemma {:induction false} WithoutNone(kept: seq<Slot>, generations: set<nat>)
    requires forall slot :: slot in kept ==> slot.generation !in generations
    ensures Without(kept, generations) == kept
    decreases |kept|
  {
    if kept != [] {
      var front := kept[..|kept| - 1];
      WithoutNone(front, generations);
      assert kept == front + [kept[|kept| - 1]];
    }
  }

  lemma {:induction false} WithoutLast(kept: seq<Slot>, dropped: seq<Slot>, generations: set<nat>)
    requires forall slot :: slot in kept ==> slot.generation !in generations
    requires forall slot :: slot in dropped ==> slot.generation in generations
    ensures Without(kept + dropped, generations) == kept
    decreases |dropped|
  {
    var all := kept + dropped;
    if dropped == [] {
      assert all == kept;
      WithoutNone(kept, generations);
    } else {
      assert all[..|all| - 1] == kept + dropped[..|dropped| - 1];
      assert all[|all| - 1] in dropped;
      WithoutLast(kept, dropped[..|dropped| - 1], generations);
    }
  }

  lemma CompletedAreKept(s: State, c: Completed)
    requires HistoryMatches(s) && c in s.completed
    ensures c.slot in s.kept && c.slot.generation <= s.generation
    ensures forall slot :: slot in Slots(s) ==> c.slot.generation < slot.generation
  {
    var i :| 0 <= i < |s.completed| && s.completed[i] == c;
    assert s.kept[i] == c.slot;
    forall slot | slot in Slots(s) ensures c.slot.generation < slot.generation {
      var j :| 0 <= j < |Slots(s)| && Slots(s)[j] == slot;
      assert s.kept[|s.completed| + j] == slot;
    }
  }

  lemma StartKeepsQueue(s: State, t: Transfer)
    requires Valid(s) && s.active.None? && !s.stopped
    ensures SlotsOnSchedule(Start(s, t)) && QueueMatchesSlots(Start(s, t))
  {
    hide TransferCycles;
    if s.completing.Some? {
      assert s.kept[|s.completed|] == s.completing.value;
    }
  }

  lemma StartKeepsHistory(s: State, t: Transfer)
    requires Valid(s) && s.active.None? && !s.stopped
    ensures HistoryMatches(Start(s, t))
  {
    hide TransferCycles;
    var next := Start(s, t);
    assert next.kept == CompletedSlots(next.completed) + Slots(next);
    forall c | c in next.completed ensures CompletedOnTime(next, c) {
      CompletedAreKept(s, c);
      assert CompletedOnTime(s, c);
    }
  }

  lemma TickKeepsValid(s: State, cycles: nat)
    requires Valid(s)
    ensures Valid(Tick(s, cycles))
  {
    hide TransferCycles;
    if !s.stopped && MayPass(s, cycles) {
      var next := Tick(s, cycles);
      forall i | 0 <= i < |s.pending| ensures cycles <= s.pending[i].remaining {
        assert s.pending[i] in s.pending;
      }
      PendingPlaces(s);
      forall c | c in next.completed ensures CompletedOnTime(next, c) {
        assert CompletedOnTime(s, c);
      }
    }
  }

  /** Where each slot's events stand in the queue. */
  lemma PendingPlaces(s: State)
    requires SlotsOnSchedule(s) && QueueMatchesSlots(s)
    ensures var first := if s.completing.Some? then 1 else 0;
            && (s.completing.Some? ==> s.pending != [] && s.pending[0] == CompleteEvent(s, s.completing.value)[0])
            && (s.active.Some? ==> |s.pending| >= first + 1 && s.pending[first] == CompleteEvent(s, s.active.value)[0])
            && (s.active.Some? && TransferCycles(s.active.value.transfer) > 1
                ==> |s.pending| == first + 2 && s.pending[first + 1] == ClearEvent(s, s.active.value)[0])
            && (s.active.Some? && TransferCycles(s.active.value.transfer) == 1 ==> |s.pending| == first + 1)
            && (s.active.None? ==> |s.pending| == first)
  {
    hide TransferCycles;
  }

  lemma CompletedComeFirst(s: State)
    requires HistoryMatches(s)
    ensures Increasing(CompletedSlots(s.completed))
    ensures forall slot :: slot in CompletedSlots(s.completed) ==> slot.generation <= s.generation
    ensures forall slot :: slot in CompletedSlots(s.completed) ==> slot.generation !in InFlight(s)
  {
    var done := CompletedSlots(s.completed);
    forall slot | slot in done ensures slot.generation !in InFlight(s) && slot.generation <= s.generation {
      var i :| 0 <= i < |s.completed| && s.completed[i].slot == slot;
      CompletedAreKept(s, s.completed[i]);
      assert s.completing.Some? ==> s.completing.value in Slots(s);
      assert s.active.Some? ==> s.active.value in Slots(s);
    }
    forall i, j | 0 <= i < j < |done| ensures done[i].generation < done[j].generation {
      assert s.kept[i] == done[i] && s.kept[j] == done[j];
    }
  }

  lemma AbortKeepsValid(s: State)
    requires Valid(s)
    ensures Valid(Abort(s))
  {
    hide TransferCycles, Increasing;
    CompletedComeFirst(s);
    var done := CompletedSlots(s.completed);
    var next := Abort(s);
    assert s.completing.Some? ==> s.completing.value.generation in InFlight(s);
    assert s.active.Some? ==> s.active.value.generation in InFlight(s);
    WithoutLast(done, Slots(s), InFlight(s));
    assert done + Slots(next) == done;
    forall c | c in next.completed ensures CompletedOnTime(next, c) {
      assert CompletedOnTime(s, c);
    }
  }

  /** The transfer at the head of the queue is the one that is due. */
  lemma DueEvent(s: State)
    requires SlotsOnSchedule(s) && QueueMatchesSlots(s) && FirstDue(s.pending) < |s.pending|
    ensures var event := s.pending[FirstDue(s.pending)];
            if event.clearsBusy then
              s.completing.None? && s.active.Some? && FirstDue(s.pending) == 1 && |s.pending| == 2
              && event.generation == s.generation && s.clock + 1 == DueClock(s, s.active.value)
            else
              FirstDue(s.pending) == 0
              && if s.completing.Some? then event.generation == s.completing.value.generation
                                            && s.clock == DueClock(s, s.completing.value)
                 else s.active.Some? && event.generation == s.generation
                      && s.clock == DueClock(s, s.active.value) && |s.pending| == 1
  {
    hide TransferCycles;
    PendingPlaces(s);
  }

  /** A bus phase never ends while another transfer is still completing. */
  lemma CompletingIsNeverOverwritten(s: State)
    requires Valid(s) && FirstDue(s.pending) < |s.pending| && s.pending[FirstDue(s.pending)].clearsBusy
    ensures s.completing.None?
  {
    DueEvent(s);
  }

  lemma DeliverKeepsQueue(s: State, response: nat)
    requires SlotsOnSchedule(s) && QueueMatchesSlots(s)
    ensures SlotsOnSchedule(Deliver(s, response)) && QueueMatchesSlots(Deliver(s, response))
  {
    hide TransferCycles, FirstDue;
    var index := FirstDue(s.pending);
    if !s.stopped && index < |s.pending| {
      DueEvent(s);
      PendingPlaces(s);
    }
  }

  /** A delivery either moves the one slot in use, or finishes the first slot when it is due. */
  lemma DeliverFinishes(s: State, response: nat)
    requires SlotsOnSchedule(s) && QueueMatchesSlots(s) && !s.stopped && FirstDue(s.pending) < |s.pending|
    ensures var next := Deliver(s, response);
            && next.kept == s.kept && next.generation == s.generation && next.startClock == s.startClock
            && next.clock == s.clock
            && if s.pending[FirstDue(s.pending)].clearsBusy then
                 next.completed == s.completed && Slots(next) == Slots(s)
               else
                 Slots(s) != [] && Slots(next) == Slots(s)[1..]
                 && |next.completed| == |s.completed| + 1 && next.completed[..|s.completed|] == s.completed
                 && next.completed[|s.completed|].slot == Slots(s)[0]
                 && CompletedOnTime(s, next.completed[|s.completed|])
  {
    hide TransferCycles, FirstDue;
    DueEvent(s);
  }

  lemma DeliverKeepsHistory(s: State, response: nat)
    requires Valid(s)
    ensures HistoryMatches(Deliver(s, response))
  {
    hide TransferCycles, FirstDue, Deliver, SlotsOnSchedule, QueueMatchesSlots, Slots;
    var index, next := FirstDue(s.pending), Deliver(s, response);
    if s.stopped || index == |s.pending| {
      assert next == s by { NothingDelivered(s, response); }
    } else {
      DeliverFinishes(s, response);
      assert CompletedSlots(next.completed) + Slots(next) == CompletedSlots(s.completed) + Slots(s);
      forall c | c in next.completed ensures CompletedOnTime(next, c) {
        if c in s.completed {
          assert CompletedOnTime(s, c);
        }
      }
    }
  }

  lemma NothingDelivered(s: State, response: nat)
    requires s.stopped || FirstDue(s.pending) == |s.pending|
    ensures Deliver(s, response) == s
  {
  }

  lemma ActKeepsValid(s: State, a: Action)
    requires Valid(s)
    ensures Valid(Act(s, a))
  {
    hide TransferCycles, Start, Deliver, Tick, Abort;
    match a
    case StartTransfer(t) =>
      if s.active.None? && !s.stopped {
        StartKeepsQueue(s, t);
        StartKeepsHistory(s, t);
      } else {
        assert Start(s, t) == s by { NoStart(s, t); }
      }
    case DeliverEvent(response) =>
      DeliverKeepsQueue(s, response);
      DeliverKeepsHistory(s, response);
    case PassTime(cycles) => TickKeepsValid(s, cycles);
    case StopClock => StoppingKeepsValid(s, true);
    case StartClock => StoppingKeepsValid(s, false);
    case AbortAll => AbortKeepsValid(s);
  }

  lemma NoStart(s: State, t: Transfer)
    requires s.active.Some? || s.stopped
    ensures Start(s, t) == s
  {
  }

  lemma StoppingKeepsValid(s: State, stopped: bool)
    requires Valid(s)
    ensures Valid(s.(stopped := stopped))
  {
    hide TransferCycles;
    forall c | c in s.completed ensures CompletedOnTime(s.(stopped := stopped), c) {
      assert CompletedOnTime(s, c);
    }
  }

  /**
  In every run of starts, deliveries, pauses and aborts, the transfers handed over, followed by the
  one completing and the one on the bus, are the transfers started and not aborted, each once and
  in start order, with the data captured at the start and after exactly their transfer cycles.
  */
  lemma {:induction false} RunKeepsTransfers(s: State, actions: seq<Action>)
    requires Valid(s)
    ensures var t := Run(s, actions);
            && Valid(t)
            && t.kept == CompletedSlots(t.completed) + Slots(t) && Increasing(t.kept)
            && forall c :: c in t.completed ==> CompletedOnTime(t, c)
    decreases |actions|
  {
    hide Act, SlotsOnSchedule, QueueMatchesSlots;
    if actions != [] {
      ActKeepsValid(s, actions[0]);
      RunKeepsTransfers(Act(s, actions[0]), actions[1..]);
    }
  }

  lemma ResetIsValid()
    ensures Valid(RESET)
  {
  }

  /** Time does not pass a transfer by: one whose due clock lies behind has been handed over. */
  lemma OverdueIsCompleted(s: State, slot: Slot)
    requires Valid(s) && slot in s.kept && slot.generation in s.startClock && DueClock(s, slot) < s.clock
    ensures slot in CompletedSlots(s.completed)
  {
    assert slot in CompletedSlots(s.completed) || slot in Slots(s);
  }

  // ---------------------------------------------------------------------------------------
  // The data of a transfer
  // ---------------------------------------------------------------------------------------

  function Range(t: Transfer): (range: nat)
    ensures range > 0
  {
    if t.wide then 0x1_0000 else 0x100
  }

  /** The registers at each start, by the number of the transfer. */
  function Begun(s: State, a: Action, starts: map<nat, Transfer>): map<nat, Transfer> {
    if a.StartTransfer? && s.active.None? && !s.stopped then starts[s.generation + 1 := a.transfer] else starts
  }

  /** The responses given by the deliveries that completed a transfer. */
  function Answered(s: State, a: Action, responses: seq<nat>): seq<nat> {
    if a.DeliverEvent? && |Act(s, a).completed| > |s.completed| then responses + [a.response] else responses
  }

  function RunStarts(s: State, actions: seq<Action>, starts: map<nat, Transfer>): map<nat, Transfer>
    decreases |actions|
  {
    if actions == [] then starts else RunStarts(Act(s, actions[0]), actions[1..], Begun(s, actions[0], starts))
  }

  function RunResponses(s: State, actions: seq<Action>, responses: seq<nat>): seq<nat>
    decreases |actions|
  {
    if actions == [] then responses
    else RunResponses(Act(s, actions[0]), actions[1..], Answered(s, actions[0], responses))
  }

  /** The slot holds the registers of its start; a write holds the low byte or word of the data register. */
  ghost predicate SlotCarries(slot: Slot, starts: map<nat, Transfer>) {
    && slot.generation in starts
    && slot.transfer == starts[slot.generation].(value := slot.transfer.value)
    && (!slot.transfer.reading ==> slot.transfer.value == starts[slot.generation].value % Range(slot.transfer))
  }

  /** The low byte or word, by the width, of the response for a read, of the data register for a write. */
  ghost predicate CompletedCarries(c: Completed, starts: map<nat, Transfer>, response: nat) {
    && c.slot.generation in starts
    && var t := starts[c.slot.generation];
       c.slot.transfer == t.(value := c.slot.transfer.value)
       && c.value == (if t.reading then response else t.value) % Range(t)
  }

  ghost predicate Carries(s: State, starts: map<nat, Transfer>, responses: seq<nat>) {
    && (forall g :: g in starts ==> g <= s.generation)
    && (s.active.Some? ==> SlotCarries(s.active.value, starts))
    && (s.completing.Some? ==> SlotCarries(s.completing.value, starts))
    && |s.completed| == |responses|
    && (forall i :: 0 <= i < |responses| ==> CompletedCarries(s.completed[i], starts, responses[i]))
  }

  /** One more start does not change what the others carry. */
  lemma StartCarries(s: State, t: Transfer, starts: map<nat, Transfer>, responses: seq<nat>)
    requires Carries(s, starts, responses) && s.active.None? && !s.stopped
    ensures Carries(Start(s, t), starts[s.generation + 1 := t], responses)
  {
    hide TransferCycles;
  }

  lemma ClearBusyCarries(s: State, generation: nat, starts: map<nat, Transfer>, responses: seq<nat>)
    requires Carries(s, starts, responses)
    ensures Carries(ClearBusy(s, generation), starts, responses)
    ensures |ClearBusy(s, generation).completed| == |s.completed|
  {
  }

  lemma CompleteCarries(s: State, generation: nat, response: nat, starts: map<nat, Transfer>, responses: seq<nat>)
    requires Carries(s, starts, responses)
    ensures var t := Complete(s, generation, response);
            Carries(t, starts, if |t.completed| > |s.completed| then responses + [response] else responses)
  {
  }

  lemma AbortCarries(s: State, starts: map<nat, Transfer>, responses: seq<nat>)
    requires Carries(s, starts, responses)
    ensures Carries(Abort(s), starts, responses)
  {
    hide InFlight, Without;
  }

  lemma DeliverCarries(s: State, response: nat, starts: map<nat, Transfer>, responses: seq<nat>)
    requires Carries(s, starts, responses)
    ensures Carries(Deliver(s, response), starts, Answered(s, DeliverEvent(response), responses))
  {
    hide Carries, ClearBusy, Complete, FirstDue;
    var index := FirstDue(s.pending);
    if !s.stopped && index < |s.pending| {
      var event := s.pending[index];
      var rest := s.(pending := s.pending[..index] + s.pending[index + 1..]);
      PendingCarries(s, rest.pending, starts, responses);
      ClearBusyCarries(rest, event.generation, starts, responses);
      CompleteCarries(rest, event.generation, response, starts, responses);
    }
  }

  lemma PendingCarries(s: State, pending: seq<Pending>, starts: map<nat, Transfer>, responses: seq<nat>)
    requires Carries(s, starts, responses)
    ensures Carries(s.(pending := pending), starts, responses)
  {
  }

  lemma ActCarries(s: State, a: Action, starts: map<nat, Transfer>, responses: seq<nat>)
    requires Carries(s, starts, responses)
    ensures Carries(Act(s, a), Begun(s, a, starts), Answered(s, a, responses))
  {
    hide Carries, Deliver, Abort, Start;
    match a
    case StartTransfer(t) =>
      if s.active.None? && !s.stopped {
        StartCarries(s, t, starts, responses);
      } else {
        NoStart(s, t);
      }
    case DeliverEvent(response) => DeliverCarries(s, response, starts, responses);
    case PassTime(cycles) => ClockCarries(s, Act(s, a), starts, responses);
    case StopClock => ClockCarries(s, Act(s, a), starts, responses);
    case StartClock => ClockCarries(s, Act(s, a), starts, responses);
    case AbortAll => AbortCarries(s, starts, responses);
  }

  lemma ClockCarries(s: State, t: State, starts: map<nat, Transfer>, responses: seq<nat>)
    requires Carries(s, starts, responses) && t == s.(clock := t.clock, pending := t.pending, stopped := t.stopped)
    ensures Carries(t, starts, responses)
  {
  }

  lemma {:induction false} RunCarries(s: State, actions: seq<Action>, starts: map<nat, Transfer>, responses: seq<nat>)
    requires Carries(s, starts, responses)
    ensures Carries(Run(s, actions), RunStarts(s, actions, starts), RunResponses(s, actions, responses))
    decreases |actions|
  {
    hide Carries, Act, Begun, Answered;
    if actions != [] {
      ActCarries(s, actions[0], starts, responses);
      RunCarries(Act(s, actions[0]), actions[1..], Begun(s, actions[0], starts), Answered(s, actions[0], responses));
    }
  }

  /**
  In every run from reset each completed transfer has the registers of its start, and hands over the
  low byte or word, by its width: for a read, of the response that the delivery which completed it
  was given; for a write, of the data register at its start.
  */
  lemma RunCarriesData(actions: seq<Action>, i: nat)
    requires i < |Run(RESET, actions).completed|
    ensures var c, starts := Run(RESET, actions).completed[i], RunStarts(RESET, actions, map[]);
            var responses := RunResponses(RESET, actions, []);
            && |responses| == |Run(RESET, actions).completed| && c.slot.generation in starts
            && var t := starts[c.slot.generation];
               c.slot.transfer == t.(value := c.slot.transfer.value)
               && c.value == (if t.reading then responses[i] else t.value) % (if t.wide then 0x1_0000 else 0x100)
  {
    hide Run, RunStarts, RunResponses;
    RunCarries(RESET, actions, map[], []);
  }

  /** The busy flag shows a transfer of more than one cycle on the bus. */
  ghost predicate BusyShows(s: State) {
    s.busy <==> s.active.Some? && TransferCycles(s.active.value.transfer) > 1
  }

  lemma ActShowsBusy(s: State, a: Action)
    requires BusyShows(s)
    ensures BusyShows(Act(s, a))
  {
    hide TransferCycles, FirstDue, MayPass, Aged, Without, InFlight, DataMask;
    if a.StartTransfer? {
      CyclesIgnoreValue(a.transfer, 0);
      CyclesIgnoreValue(a.transfer, DataMask(a.transfer, a.transfer.value));
    }
  }

  lemma CyclesIgnoreValue(t: Transfer, value: nat)
    ensures TransferCycles(t.(value := value)) == TransferCycles(t)
  {
  }

  /** In every run, aborts and pauses included, the port is busy exactly while such a transfer holds the bus. */
  lemma {:induction false} RunShowsBusy(s: State, actions: seq<Action>)
    requires BusyShows(s)
    ensures BusyShows(RESET) && BusyShows(Run(s, actions))
    decreases |actions|
  {
    hide Act, TransferCycles;
    if actions != [] {
      ActShowsBusy(s, actions[0]);
      RunShowsBusy(Act(s, actions[0]), actions[1..]);
    }
  }

  // ---------------------------------------------------------------------------------------
  // The port
  // ---------------------------------------------------------------------------------------

  class Port {
    var generation: nat
    var active: bool
    var current: Transfer
    var completingActive: bool
    var completingGeneration: nat
    var completing: Transfer
    var busy: bool
    var stopped: bool
    var pending: seq<Pending>
    ghost var clock: nat
    ghost var kept: seq<Slot>
    ghost var startClock: map<nat, nat>
    ghost var completed: seq<Completed>

    ghost function View(): State
      reads this
    {
      State(generation,
            if active then Some(Slot(generation, current)) else None,
            if completingActive then Some(Slot(completingGeneration, completing)) else None,
            busy, pending, stopped, clock, kept, startClock, completed)
    }

    constructor ()
      ensures View() == RESET
    {
      generation, active, completingActive, completingGeneration := 0, false, false, 0;
      current := Transfer(0, 0, false, 0, 0, 0, 0, false);
      completing := Transfer(0, 0, false, 0, 0, 0, 0, false);
      busy, stopped, pending := false, false, [];
      clock, kept, startClock, completed := 0, [], map[], [];
    }

    method StartTransfer(registers: Transfer)
      modifies this
      ensures View() == Start(old(View()), registers)
    {
      hide TransferCycles, DataMask;
      if active || stopped {
        return;
      }
      generation := generation + 1;
      current := registers.(value := if registers.reading then 0 else DataMask(registers, registers.value));
      active := true;
      var delay := TransferCycles(current);
      if delay > 1 {
        busy := true;
      }
      pending := pending + [Pending(false, generation, delay)];
      if delay > 1 {
        pending := pending + [Pending(true, generation, delay - 1)];
      }
      kept, startClock := kept + [Slot(generation, current)], startClock[generation := clock];
    }

    method ClearBusyEvent(eventGeneration: nat)
      modifies this
      ensures View() == ClearBusy(old(View()), eventGeneration)
    {
      if !active || eventGeneration != generation {
        return;
      }
      completing := current;
      completingGeneration := eventGeneration;
      completingActive := true;
      active := false;
      busy := false;
    }

    method RunPmp(eventGeneration: nat, response: nat)
      modifies this
      ensures View() == Complete(old(View()), eventGeneration, response)
    {
      var transfer: Transfer;
      if completingActive && eventGeneration == completingGeneration {
        transfer := completing;
        completingActive := false;
      } else if active && eventGeneration == generation {
        transfer := current;
        active := false;
        busy := false;
      } else {
        return;
      }
      var value := transfer.value;
      if transfer.reading {
        value := DataMask(transfer, response);
      }
      completed := completed + [Completed(Slot(eventGeneration, transfer), value, clock)];
    }

    method AbortTransfers()
      modifies this
      ensures View() == Abort(old(View()))
    {
      kept := Without(kept, InFlight(View()));
      generation := generation + 1;
      pending := [];
      active := false;
      completingActive := false;
      busy := false;
    }
  }
}
