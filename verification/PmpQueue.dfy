/**
The parallel port on the device's event queue, among the events of other peripherals. `Pmp` delivers
the port's events in the order they were scheduled; the heap does so exactly when at most one DMA
source is in use.
*/
module PmpQueue {
  import opened Wrappers
  import opened EventQueue
  import Runtime
  import Pmp

  const COMPLETE: nat := 0
  const CLEAR_BUSY: nat := 1

  /** The port's own `pending` list is not used here: its events are in the device's queue. */
  datatype Board = Board(device: Runtime.Device, port: Pmp.State, halted: bool)

  predicate Master(e: Event) {
    e.eventType.Pmp? && e.source <= CLEAR_BUSY
  }

  // ---------------------------------------------------------------------------------------
  // What happens on the board
  // ---------------------------------------------------------------------------------------

  function Scheduled(d: Runtime.Device, source: nat, generation: nat, delay: nat): Runtime.Device {
    Runtime.Apply(d, Runtime.Schedule(EventType.Pmp, source, generation, delay))
  }

  function Discarded(d: Runtime.Device): Runtime.Device {
    Runtime.Apply(d, Runtime.Discard(Master))
  }

  /** A transfer schedules its completion, then the end of its bus phase; beyond 64 bits it is aborted. */
  function Begin(b: Board, t: Pmp.Transfer): Board {
    if b.port.active.Some? || b.port.stopped then b
    else
      var port := Pmp.Start(b.port, t).(pending := []);
      var generation, delay := port.generation, Pmp.TransferCycles(port.active.value.transfer);
      if b.device.now + delay >= CYCLE_RANGE then b.(device := Discarded(b.device), port := Pmp.Abort(port))
      else
        var completes := Scheduled(b.device, COMPLETE, generation, delay);
        b.(device := if delay > 1 then Scheduled(completes, CLEAR_BUSY, generation, delay - 1) else completes, port := port)
  }

  function Dispatch(port: Pmp.State, e: Event, response: nat): Pmp.State {
    if !Master(e) then port
    else if e.source == CLEAR_BUSY then Pmp.ClearBusy(port, e.value)
    else Pmp.Complete(port, e.value, response)
  }

  predicate HeadIsDue(d: Runtime.Device) {
    d.events != [] && !d.events[0].paused && d.events[0].cycle == d.now
  }

  function Handled(d: Runtime.Device): Runtime.Device
    requires d.events != []
  {
    d.(events := Popped(d.events), log := d.log + [Runtime.Handled(d.now, d.events[0])])
  }

  predicate MayPass(d: Runtime.Device, cycles: nat) {
    d.now + cycles < CYCLE_RANGE && d.now + cycles <= Runtime.NextCycle(d, d.now + cycles)
  }

  datatype Act =
    | StartTransfer(transfer: Pmp.Transfer)
    | ScheduleOther(eventType: EventType, source: nat, value: nat, delay: nat)
    | PauseOthers(selects: Event -> bool)
    | ResumeOthers(selects: Event -> bool)
    | DiscardOthers(drop: Event -> bool)
    | TakeEvent(response: nat)
    | PassTime(cycles: nat)
    | StopClock
    | StartClock
    | Disable

  predicate SchedulesMaster(a: Act) {
    a.ScheduleOther? && a.eventType.Pmp? && a.source <= CLEAR_BUSY
  }

  /** What other peripherals do to the queue; they leave the port's events alone. */
  function Effect(a: Act): Runtime.Effect
    requires a.ScheduleOther? || a.PauseOthers? || a.ResumeOthers? || a.DiscardOthers?
  {
    match a
    case ScheduleOther(eventType, source, value, delay) => Runtime.Schedule(eventType, source, value, delay)
    case PauseOthers(selects) => Runtime.Pause(e => selects(e) && !Master(e))
    case ResumeOthers(selects) => Runtime.Resume(e => selects(e) && !Master(e))
    case DiscardOthers(drop) => Runtime.Discard(e => drop(e) && !Master(e))
  }

  /** A port event that would resume beyond 64 bits stops the simulator. */
  predicate CannotResume(d: Runtime.Device) {
    exists e :: e in d.events && Master(e) && e.paused && !CanResume(d.now, e)
  }

  function Perform(b: Board, a: Act): Board {
    if b.halted || SchedulesMaster(a) then b
    else
      match a
      case StartTransfer(transfer) => Begin(b, transfer)
      case TakeEvent(response) =>
        if HeadIsDue(b.device) then
          b.(device := Handled(b.device), port := Dispatch(b.port, b.device.events[0], response))
        else b
      case PassTime(cycles) =>
        if MayPass(b.device, cycles) then
          b.(device := Runtime.Ticked(b.device, cycles),
             port := if b.port.stopped then b.port else b.port.(clock := b.port.clock + cycles))
        else b
      case StopClock => b.(device := Runtime.Apply(b.device, Runtime.Pause(Master)), port := b.port.(stopped := true))
      case StartClock =>
        if CannotResume(b.device) then b.(halted := true)
        else b.(device := Runtime.Apply(b.device, Runtime.Resume(Master)), port := b.port.(stopped := false))
      case Disable => b.(device := Discarded(b.device), port := Pmp.Abort(b.port))
      case _ => b.(device := Runtime.Apply(b.device, Effect(a)))
  }

  function PerformAll(b: Board, acts: seq<Act>): Board
    decreases |acts|
  {
    if acts == [] then b else PerformAll(Perform(b, acts[0]), acts[1..])
  }

  const START: Board := Board(Runtime.Device(0, [], 0, [], map[], map[]), Pmp.RESET, false)

  // ---------------------------------------------------------------------------------------
  // The port's events in the order they were scheduled
  // ---------------------------------------------------------------------------------------

  function Awaited(now: nat, e: Event): Pmp.Pending {
    var remaining := Runtime.Remaining(now, e);
    Pmp.Pending(e.source == CLEAR_BUSY, e.value, if remaining < 0 then 0 else remaining)
  }

  function AllAwaited(now: nat, events: seq<Event>): (pending: seq<Pmp.Pending>)
    ensures |pending| == |events|
  {
    seq(|events|, i requires 0 <= i < |events| => Awaited(now, events[i]))
  }

  ghost predicate InOrder(events: seq<Event>) {
    forall i, j :: 0 <= i < j < |events| ==> events[i].sequence < events[j].sequence
  }

  /** `masters` are the port's events in the queue, in the order they were scheduled. */
  ghost predicate Related(sources: set<nat>, b: Board, masters: seq<Event>) {
    && Runtime.Valid(sources, b.device) && b.port.pending == []
    && InOrder(masters)
    && (forall e :: e in masters <==> e in b.device.events && Master(e))
    && (forall e :: e in masters ==> e.paused == b.port.stopped)
  }

  /** The port as `Pmp` sees it. */
  function Shadow(b: Board, masters: seq<Event>): Pmp.State {
    b.port.(pending := AllAwaited(b.device.now, masters))
  }

  ghost predicate Legal(sources: set<nat>, acts: seq<Act>) {
    forall a :: a in acts && a.ScheduleOther? && a.eventType.Dma? ==> a.source in sources
  }

  // ---------------------------------------------------------------------------------------
  // Each act is an act of `Pmp`, or none
  // ---------------------------------------------------------------------------------------

  lemma HeadIsMaster(sources: set<nat>, b: Board, masters: seq<Event>) returns (i: nat)
    requires Related(sources, b, masters) && |sources| <= 1 && HeadIsDue(b.device) && Master(b.device.events[0])
    ensures i < |masters| && masters[i] == b.device.events[0] && !b.port.stopped
    ensures Pmp.FirstDue(AllAwaited(b.device.now, masters)) == i
  {
    var head, pending := b.device.events[0], AllAwaited(b.device.now, masters);
    assert head in masters;
    i :| 0 <= i < |masters| && masters[i] == head;
    var first := Pmp.FirstDue(pending);
    assert pending[i].remaining == 0;
    if first < i {
      assert masters[first] in b.device.events && pending[first].remaining == 0;
      assert Runtime.EventOnSchedule(b.device, masters[first]);
      Runtime.HeadIsFirst(sources, b.device, masters[first]);
    }
  }

  lemma DispatchIgnoresPending(port: Pmp.State, e: Event, response: nat, pending: seq<Pmp.Pending>)
    ensures Dispatch(port.(pending := pending), e, response) == Dispatch(port, e, response).(pending := pending)
    ensures Dispatch(port, e, response).stopped == port.stopped
    ensures Dispatch(port, e, response).pending == port.pending
  {
    hide Pmp.Complete;
    if e.source != CLEAR_BUSY {
      CompleteIgnoresPending(port, e.value, response, pending);
    }
  }

  lemma CompleteIgnoresPending(port: Pmp.State, generation: nat, response: nat, pending: seq<Pmp.Pending>)
    ensures Pmp.Complete(port.(pending := pending), generation, response)
         == Pmp.Complete(port, generation, response).(pending := pending)
    ensures Pmp.Complete(port, generation, response).stopped == port.stopped
    ensures Pmp.Complete(port, generation, response).pending == port.pending
  {
    hide Pmp.DataMask;
  }

  lemma PoppedMembers(sources: set<nat>, d: Runtime.Device)
    requires Runtime.Valid(sources, d) && d.events != []
    ensures forall e :: e in Popped(d.events) <==> e in d.events && e != d.events[0]
  {
    hide Popped;
    var v := d.events;
    Runtime.SameEvents(v, v[0]);
    assert v == [v[0]] + v[1..];
    forall e | e in v[1..] ensures e != v[0] {
      var i :| 0 <= i < |v[1..]| && v[1..][i] == e;
      assert v[i + 1] == e;
    }
  }

  function Removed(masters: seq<Event>, i: nat): seq<Event>
    requires i < |masters|
  {
    masters[..i] + masters[i + 1..]
  }

  lemma RemovedMembers(masters: seq<Event>, i: nat)
    requires i < |masters| && InOrder(masters)
    ensures InOrder(Removed(masters, i))
    ensures forall e :: e in Removed(masters, i) <==> e in masters && e != masters[i]
  {
    assert masters == masters[..i] + [masters[i]] + masters[i + 1..];
    forall e | e in Removed(masters, i) ensures e != masters[i] {
      var j :| 0 <= j < |Removed(masters, i)| && Removed(masters, i)[j] == e;
      assert if j < i then e == masters[j] else e == masters[j + 1];
    }
  }

  lemma RemovedAwaited(now: nat, masters: seq<Event>, i: nat)
    requires i < |masters|
    ensures var pending := AllAwaited(now, masters);
            AllAwaited(now, Removed(masters, i)) == pending[..i] + pending[i + 1..]
  {
  }

  lemma TakeRefines(sources: set<nat>, b: Board, masters: seq<Event>, response: nat)
    returns (next: seq<Event>, actions: seq<Pmp.Action>)
    requires Related(sources, b, masters) && |sources| <= 1 && HeadIsDue(b.device)
    ensures var after := b.(device := Handled(b.device), port := Dispatch(b.port, b.device.events[0], response));
            Related(sources, after, next) && Shadow(after, next) == Pmp.Run(Shadow(b, masters), actions)
  {
    hide Popped, Dispatch, Runtime.Valid;
    var head := b.device.events[0];
    var after := b.(device := Handled(b.device), port := Dispatch(b.port, head, response));
    Runtime.HandleKeepsValid(sources, b.device);
    PoppedMembers(sources, b.device);
    DispatchIgnoresPending(b.port, head, response, []);
    if Master(head) {
      var i := HeadIsMaster(sources, b, masters);
      RemovedMembers(masters, i);
      RemovedAwaited(b.device.now, masters, i);
      next, actions := Removed(masters, i), [Pmp.DeliverEvent(response)];
      DeliverIsDispatch(b, masters, i, response);
      OneAction(Shadow(b, masters), actions[0]);
    } else {
      next, actions := masters, [];
      NotForPort(b.port, head, response);
    }
  }

  lemma NotForPort(port: Pmp.State, e: Event, response: nat)
    requires !Master(e)
    ensures Dispatch(port, e, response) == port
  {
  }

  lemma DeliverIsDispatch(b: Board, masters: seq<Event>, i: nat, response: nat)
    requires i < |masters| && Master(masters[i]) && !b.port.stopped
    requires Pmp.FirstDue(AllAwaited(b.device.now, masters)) == i
    ensures Pmp.Deliver(Shadow(b, masters), response)
         == Dispatch(b.port, masters[i], response).(pending := AllAwaited(b.device.now, Removed(masters, i)))
  {
    hide Pmp.FirstDue;
    RemovedAwaited(b.device.now, masters, i);
    DispatchIgnoresPending(b.port, masters[i], response, AllAwaited(b.device.now, Removed(masters, i)));
  }

  lemma OneAction(s: Pmp.State, a: Pmp.Action)
    ensures Pmp.Run(s, [a]) == Pmp.Act(s, a)
  {
    hide Pmp.Act;
    assert Pmp.Run(s, [a]) == Pmp.Run(Pmp.Act(s, a), []);
  }

  // What others do.

  lemma OthersKeepMasters(d: Runtime.Device, a: Act)
    requires !SchedulesMaster(a) && (a.ScheduleOther? || a.PauseOthers? || a.ResumeOthers? || a.DiscardOthers?)
    ensures forall e :: Master(e) ==> (e in Runtime.Apply(d, Effect(a)).events <==> e in d.events)
    ensures Runtime.Apply(d, Effect(a)).now == d.now
  {
    hide Pushed, Reordered;
    match a
    case ScheduleOther(eventType, source, value, delay) =>
      Runtime.SameEvents(d.events, Event(d.now + delay, d.sequence, 0, value, source, eventType, false));
    case PauseOthers(selects) => PausedMembers(e => selects(e) && !Master(e), d.now, d.events);
    case ResumeOthers(selects) => ResumedMembers(e => selects(e) && !Master(e), d.now, d.events);
    case DiscardOthers(drop) =>
      var retained := Retained(e => drop(e) && !Master(e), d.events, |d.events|);
      RetainedMembers(e => drop(e) && !Master(e), d.events, |d.events|);
      assert d.events[..|d.events|] == d.events;
      Runtime.SameEvents(retained, EventQueue.Scheduled(0, 0, Dma, 0));
  }

  function PauseOne(selects: Event -> bool, now: nat, e: Event): Event {
    if Pauses(selects, e) then PauseEvent(now, e) else e
  }

  function ResumeOne(selects: Event -> bool, now: nat, e: Event): Event {
    if Resumes(selects, now, e) then ResumeEvent(now, e) else e
  }

  /** Membership in a sequence whose events are the images of others. */
  lemma ImageMembers(v: seq<Event>, w: seq<Event>, one: Event -> Event)
    requires |v| == |w| && forall i :: 0 <= i < |v| ==> w[i] == one(v[i])
    ensures forall e :: e in w <==> exists x :: x in v && e == one(x)
  {
    forall e | e in w ensures exists x :: x in v && e == one(x) {
      var i :| 0 <= i < |w| && w[i] == e;
      assert v[i] in v;
    }
    forall x | x in v ensures one(x) in w {
      var i :| 0 <= i < |v| && v[i] == x;
      assert w[i] in w;
    }
  }

  lemma PausedIsImage(selects: Event -> bool, now: nat, v: seq<Event>)
    ensures var w := PausedEvents(selects, now, v);
            && Paused(selects, now, v) in {w, Reordered(w)}
            && |w| == |v| && forall i :: 0 <= i < |v| ==> w[i] == PauseOne(selects, now, v[i])
  {
    hide Reordered, PauseEvent;
    var w := PausedEvents(selects, now, v);
    if forall i :: 0 <= i < |v| ==> !Pauses(selects, v[i]) {
      assert w == v;
    }
  }

  lemma PausedMembers(selects: Event -> bool, now: nat, v: seq<Event>)
    ensures forall e :: e in Paused(selects, now, v) <==> exists x :: x in v && e == PauseOne(selects, now, x)
  {
    PausedIsImage(selects, now, v);
    hide Reordered, Paused, PauseOne, PausedEvents;
    var w := PausedEvents(selects, now, v);
    ImageMembers(v, w, x => PauseOne(selects, now, x));
    Runtime.SameEvents(w, EventQueue.Scheduled(0, 0, Dma, 0));
  }

  lemma ResumedIsImage(selects: Event -> bool, now: nat, v: seq<Event>)
    ensures var w := ResumedEvents(selects, now, v);
            && Resumed(selects, now, v) in {w, Reordered(w)}
            && |w| == |v| && forall i :: 0 <= i < |v| ==> w[i] == ResumeOne(selects, now, v[i])
  {
    hide Reordered, ResumeEvent;
    var w := ResumedEvents(selects, now, v);
    if forall i :: 0 <= i < |v| ==> !Resumes(selects, now, v[i]) {
      assert w == v;
    }
  }

  lemma ResumedMembers(selects: Event -> bool, now: nat, v: seq<Event>)
    ensures forall e :: e in Resumed(selects, now, v) <==> exists x :: x in v && e == ResumeOne(selects, now, x)
  {
    ResumedIsImage(selects, now, v);
    hide Reordered, Resumed, ResumeOne, ResumedEvents;
    var w := ResumedEvents(selects, now, v);
    ImageMembers(v, w, x => ResumeOne(selects, now, x));
    Runtime.SameEvents(w, EventQueue.Scheduled(0, 0, Dma, 0));
  }

  lemma OtherRefines(sources: set<nat>, b: Board, masters: seq<Event>, a: Act)
    requires Related(sources, b, masters) && Legal(sources, [a])
    requires !SchedulesMaster(a) && (a.ScheduleOther? || a.PauseOthers? || a.ResumeOthers? || a.DiscardOthers?)
    ensures var after := b.(device := Runtime.Apply(b.device, Effect(a)));
            Related(sources, after, masters) && Shadow(after, masters) == Shadow(b, masters)
  {
    hide Runtime.Apply, Runtime.Valid;
    assert a in [a];
    Runtime.ApplyKeepsValid(sources, b.device, Effect(a));
    OthersKeepMasters(b.device, a);
  }

  // Time and the port's clock.

  lemma PassRefines(sources: set<nat>, b: Board, masters: seq<Event>, cycles: nat)
    requires Related(sources, b, masters) && MayPass(b.device, cycles)
    ensures var after := b.(device := Runtime.Ticked(b.device, cycles),
                            port := if b.port.stopped then b.port else b.port.(clock := b.port.clock + cycles));
            Related(sources, after, masters)
            && Shadow(after, masters) == Pmp.Run(Shadow(b, masters), [Pmp.PassTime(cycles)])
  {
    hide Runtime.Valid;
    Runtime.TickKeepsValid(sources, b.device, b.device.now + cycles, cycles);
    var now, s := b.device.now, Shadow(b, masters);
    forall i | 0 <= i < |masters|
      ensures masters[i].paused == b.port.stopped && (!masters[i].paused ==> now + cycles <= masters[i].cycle)
    {
      assert masters[i] in masters;
      EventAhead(sources, b.device, masters[i], cycles);
    }
    assert AllAwaited(now + cycles, masters) == if b.port.stopped then s.pending else Pmp.Aged(s.pending, cycles);
    OneAction(s, Pmp.PassTime(cycles));
  }

  lemma EventAhead(sources: set<nat>, d: Runtime.Device, e: Event, cycles: nat)
    requires Runtime.Valid(sources, d) && MayPass(d, cycles) && e in d.events
    ensures e.paused || d.now + cycles <= e.cycle
  {
    Runtime.HeadIsFirst(sources, d, e);
  }

  lemma ClockRefines(sources: set<nat>, b: Board, masters: seq<Event>, stop: bool) returns (next: seq<Event>)
    requires Related(sources, b, masters) && (stop || !CannotResume(b.device))
    ensures var effect := if stop then Runtime.Pause(Master) else Runtime.Resume(Master);
            var after := b.(device := Runtime.Apply(b.device, effect), port := b.port.(stopped := stop));
            Related(sources, after, next)
            && Shadow(after, next) == Pmp.Run(Shadow(b, masters), [if stop then Pmp.StopClock else Pmp.StartClock])
  {
    hide Runtime.Valid, Pmp.Run, Paused, Resumed;
    var now := b.device.now;
    var effect := if stop then Runtime.Pause(Master) else Runtime.Resume(Master);
    Runtime.ApplyKeepsValid(sources, b.device, effect);
    OneAction(Shadow(b, masters), if stop then Pmp.StopClock else Pmp.StartClock);
    var one := e => if stop then PauseOne(Master, now, e) else ResumeOne(Master, now, e);
    next := seq(|masters|, i requires 0 <= i < |masters| => one(masters[i]));
    PausedMembers(Master, now, b.device.events);
    ResumedMembers(Master, now, b.device.events);
    forall i | 0 <= i < |masters|
      ensures next[i].sequence == masters[i].sequence && next[i].paused == stop && Master(next[i])
              && Awaited(now, next[i]) == Awaited(now, masters[i])
    {
      assert masters[i] in masters;
      OnScheduleOf(sources, b.device, masters[i]);
    }
    assert AllAwaited(now, next) == AllAwaited(now, masters);
    MasterImages(masters, next, b.device.events, one);
  }

  lemma OnScheduleOf(sources: set<nat>, d: Runtime.Device, e: Event)
    requires Runtime.Valid(sources, d) && e in d.events
    ensures Runtime.EventOnSchedule(d, e) && d.now < CYCLE_RANGE
  {
  }

  /** Where an image keeps the kind of an event, the port's events stay the port's events. */
  lemma MasterImages(masters: seq<Event>, next: seq<Event>, v: seq<Event>, one: Event -> Event)
    requires |next| == |masters| && forall i :: 0 <= i < |masters| ==> next[i] == one(masters[i])
    requires forall e :: e in masters <==> e in v && Master(e)
    requires forall e :: Master(one(e)) <==> Master(e)
    ensures forall e :: e in next <==> (exists x :: x in v && e == one(x)) && Master(e)
  {
    ImageMembers(masters, next, one);
  }

  // Starting and aborting.

  lemma DiscardedMembers(d: Runtime.Device)
    ensures forall e :: e in Discarded(d).events <==> e in d.events && !Master(e)
    ensures Discarded(d).now == d.now
  {
    hide Reordered;
    RetainedMembers(Master, d.events, |d.events|);
    assert d.events[..|d.events|] == d.events;
    Runtime.SameEvents(Retained(Master, d.events, |d.events|), EventQueue.Scheduled(0, 0, Dma, 0));
  }

  lemma DisableRefines(sources: set<nat>, b: Board, masters: seq<Event>)
    requires Related(sources, b, masters)
    ensures var after := b.(device := Discarded(b.device), port := Pmp.Abort(b.port));
            Related(sources, after, []) && Shadow(after, []) == Pmp.Abort(Shadow(b, masters))
  {
    hide Runtime.Valid, Discarded;
    DiscardKeepsValid(sources, b.device);
    DiscardedMembers(b.device);
  }

  lemma DiscardKeepsValid(sources: set<nat>, d: Runtime.Device)
    requires Runtime.Valid(sources, d)
    ensures Runtime.Valid(sources, Discarded(d))
  {
    hide Runtime.Valid, Runtime.Apply;
    Runtime.ApplyKeepsValid(sources, d, Runtime.Discard(Master));
  }

  /** One more event of the port joins the queue behind all others. */
  lemma ScheduledRelates(sources: set<nat>, b: Board, masters: seq<Event>, source: nat, delay: nat) returns (next: seq<Event>)
    requires Related(sources, b, masters) && !b.port.stopped && source <= CLEAR_BUSY && b.device.now + delay < CYCLE_RANGE
    ensures var after := b.(device := Scheduled(b.device, source, b.port.generation, delay));
            && Related(sources, after, next) && after.device.now == b.device.now
            && Shadow(after, next) == Shadow(b, masters).(pending := Shadow(b, masters).pending
                                        + [Pmp.Pending(source == CLEAR_BUSY, b.port.generation, delay)])
  {
    hide Pushed, Runtime.Valid;
    var d := b.device;
    var event := Event(d.now + delay, d.sequence, 0, b.port.generation, source, EventType.Pmp, false);
    Runtime.ApplyKeepsValid(sources, d, Runtime.Schedule(EventType.Pmp, source, b.port.generation, delay));
    Runtime.SameEvents(d.events, event);
    next := masters + [event];
    forall i | 0 <= i < |masters| ensures masters[i].sequence < event.sequence {
      assert masters[i] in masters;
      OnScheduleOf(sources, d, masters[i]);
    }
    assert Awaited(d.now, event) == Pmp.Pending(source == CLEAR_BUSY, b.port.generation, delay);
    assert AllAwaited(d.now, next) == AllAwaited(d.now, masters) + [Awaited(d.now, event)];
  }

  lemma BeginRefines(sources: set<nat>, b: Board, masters: seq<Event>, t: Pmp.Transfer)
    returns (next: seq<Event>, actions: seq<Pmp.Action>)
    requires Related(sources, b, masters)
    ensures Related(sources, Begin(b, t), next) && Shadow(Begin(b, t), next) == Pmp.Run(Shadow(b, masters), actions)
  {
    hide Runtime.Valid, Scheduled, Discarded, Pmp.TransferCycles, Pmp.Run;
    var s := Shadow(b, masters);
    OneAction(s, Pmp.StartTransfer(t));
    actions := [Pmp.StartTransfer(t)];
    if b.port.active.Some? || b.port.stopped {
      next := masters;
    } else {
      var begun := b.(port := Pmp.Start(b.port, t).(pending := []));
      var delay := Pmp.TransferCycles(begun.port.active.value.transfer);
      assert Related(sources, begun, masters);
      if b.device.now + delay >= CYCLE_RANGE {
        actions := [Pmp.StartTransfer(t), Pmp.AbortAll];
        next := [];
        DisableRefines(sources, begun, masters);
        TwoActions(s, Pmp.StartTransfer(t), Pmp.AbortAll);
      } else {
        next := ScheduledRelates(sources, begun, masters, COMPLETE, delay);
        if delay > 1 {
          var first := begun.(device := Scheduled(b.device, COMPLETE, begun.port.generation, delay));
          next := ScheduledRelates(sources, first, next, CLEAR_BUSY, delay - 1);
        }
        StartedPending(b, masters, t);
      }
    }
  }

  /** What a start adds to the events awaited. */
  lemma StartedPending(b: Board, masters: seq<Event>, t: Pmp.Transfer)
    requires b.port.active.None? && !b.port.stopped
    ensures var begun := b.(port := Pmp.Start(b.port, t).(pending := []));
            var s, delay := Shadow(begun, masters), Pmp.TransferCycles(begun.port.active.value.transfer);
            Pmp.Start(Shadow(b, masters), t)
            == s.(pending := s.pending + [Pmp.Pending(false, begun.port.generation, delay)]
                             + if delay > 1 then [Pmp.Pending(true, begun.port.generation, delay - 1)] else [])
  {
    hide Pmp.TransferCycles;
  }

  lemma TwoActions(s: Pmp.State, a: Pmp.Action, b: Pmp.Action)
    ensures Pmp.Run(s, [a, b]) == Pmp.Act(Pmp.Act(s, a), b)
  {
    hide Pmp.Act;
    assert [a, b][1..] == [b];
    OneAction(Pmp.Act(s, a), b);
  }

  // ---------------------------------------------------------------------------------------
  // Whole runs
  // ---------------------------------------------------------------------------------------

  lemma PerformRefines(sources: set<nat>, b: Board, masters: seq<Event>, a: Act)
    returns (next: seq<Event>, actions: seq<Pmp.Action>)
    requires Related(sources, b, masters) && |sources| <= 1 && Legal(sources, [a])
    ensures Related(sources, Perform(b, a), next)
    ensures Shadow(Perform(b, a), next) == Pmp.Run(Shadow(b, masters), actions)
  {
    hide Begin, Dispatch, Handled, Discarded, Related, Legal, Pmp.Abort, Runtime.Apply, Runtime.Ticked;
    next, actions := masters, [];
    if !b.halted && !SchedulesMaster(a) {
      match a
      case StartTransfer(transfer) => next, actions := BeginRefines(sources, b, masters, transfer);
      case TakeEvent(response) =>
        if HeadIsDue(b.device) {
          next, actions := TakeRefines(sources, b, masters, response);
        }
      case PassTime(cycles) =>
        if MayPass(b.device, cycles) {
          actions := [Pmp.PassTime(cycles)];
          PassRefines(sources, b, masters, cycles);
        }
      case StopClock =>
        actions := [Pmp.StopClock];
        next := ClockRefines(sources, b, masters, true);
      case StartClock =>
        if CannotResume(b.device) {
          HaltRelates(sources, b, masters);
        } else {
          actions := [Pmp.StartClock];
          next := ClockRefines(sources, b, masters, false);
        }
      case Disable =>
        next, actions := [], [Pmp.AbortAll];
        DisableRefines(sources, b, masters);
        OneAction(Shadow(b, masters), Pmp.AbortAll);
      case _ => OtherRefines(sources, b, masters, a);
    }
  }

  lemma HaltRelates(sources: set<nat>, b: Board, masters: seq<Event>)
    requires Related(sources, b, masters)
    ensures Related(sources, b.(halted := true), masters) && Shadow(b.(halted := true), masters) == Shadow(b, masters)
  {
    hide Runtime.Valid;
  }

  lemma {:induction false} RunsAppend(s: Pmp.State, first: seq<Pmp.Action>, second: seq<Pmp.Action>)
    ensures Pmp.Run(s, first + second) == Pmp.Run(Pmp.Run(s, first), second)
    decreases |first|
  {
    hide Pmp.Act;
    if first == [] {
      assert first + second == second;
    } else {
      assert (first + second)[1..] == first[1..] + second;
      RunsAppend(Pmp.Act(s, first[0]), first[1..], second);
    }
  }

  /** With at most one DMA source, every run on the board is a run of `Pmp`. */
  lemma {:induction false} RunRefines(sources: set<nat>, b: Board, masters: seq<Event>, acts: seq<Act>)
    returns (last: seq<Event>, actions: seq<Pmp.Action>)
    requires Related(sources, b, masters) && |sources| <= 1 && Legal(sources, acts)
    ensures Related(sources, PerformAll(b, acts), last)
    ensures Shadow(PerformAll(b, acts), last) == Pmp.Run(Shadow(b, masters), actions)
    decreases |acts|
  {
    hide Perform, Related, Pmp.Run, Shadow;
    if acts == [] {
      last, actions := masters, [];
      NoActions(Shadow(b, masters));
    } else {
      assert acts[0] in acts && Legal(sources, [acts[0]]);
      var next, first := PerformRefines(sources, b, masters, acts[0]);
      var rest: seq<Pmp.Action>;
      last, rest := RunRefines(sources, Perform(b, acts[0]), next, acts[1..]);
      actions := first + rest;
      RunsAppend(Shadow(b, masters), first, rest);
    }
  }

  lemma NoActions(s: Pmp.State)
    ensures Pmp.Run(s, []) == s
  {
  }

  /**
  The transfers handed over, then the one completing and the one on the bus, are the transfers
  started and not aborted, in start order, each with its data and after exactly its cycles.
  */
  ghost predicate TransfersKept(port: Pmp.State) {
    && port.kept == Pmp.CompletedSlots(port.completed) + Pmp.Slots(port) && Pmp.Increasing(port.kept)
    && forall c :: c in port.completed ==> Pmp.CompletedOnTime(port, c)
  }

  lemma RunKeepsTransfers(sources: set<nat>, acts: seq<Act>)
    requires |sources| <= 1 && Legal(sources, acts)
    ensures TransfersKept(PerformAll(START, acts).port)
  {
    hide PerformAll, Pmp.CompletedOnTime;
    StartIsRelated(sources);
    var last, actions := RunRefines(sources, START, [], acts);
    Pmp.ResetIsValid();
    Pmp.RunKeepsTransfers(Pmp.RESET, actions);
    KeptIgnoresPending(PerformAll(START, acts).port, Shadow(PerformAll(START, acts), last).pending);
  }

  lemma StartIsRelated(sources: set<nat>)
    ensures Related(sources, START, []) && Shadow(START, []) == Pmp.RESET
  {
  }

  lemma KeptIgnoresPending(port: Pmp.State, pending: seq<Pmp.Pending>)
    requires TransfersKept(port.(pending := pending))
    ensures TransfersKept(port)
  {
    forall c | c in port.completed ensures Pmp.CompletedOnTime(port, c) {
      assert Pmp.CompletedOnTime(port.(pending := pending), c);
    }
  }

  // ---------------------------------------------------------------------------------------
  // The data of a transfer, whatever the order of delivery
  // ---------------------------------------------------------------------------------------

  function Begun(b: Board, a: Act, starts: map<nat, Pmp.Transfer>): map<nat, Pmp.Transfer> {
    if !b.halted && a.StartTransfer? && b.port.active.None? && !b.port.stopped then starts[b.port.generation + 1 := a.transfer]
    else starts
  }

  function Answered(b: Board, a: Act, responses: seq<nat>): seq<nat> {
    if a.TakeEvent? && |Perform(b, a).port.completed| > |b.port.completed| then responses + [a.response] else responses
  }

  function BoardStarts(b: Board, acts: seq<Act>, starts: map<nat, Pmp.Transfer>): map<nat, Pmp.Transfer>
    decreases |acts|
  {
    if acts == [] then starts else BoardStarts(Perform(b, acts[0]), acts[1..], Begun(b, acts[0], starts))
  }

  function BoardResponses(b: Board, acts: seq<Act>, responses: seq<nat>): seq<nat>
    decreases |acts|
  {
    if acts == [] then responses else BoardResponses(Perform(b, acts[0]), acts[1..], Answered(b, acts[0], responses))
  }

  lemma BeginCarries(b: Board, t: Pmp.Transfer, starts: map<nat, Pmp.Transfer>, responses: seq<nat>)
    requires Pmp.Carries(b.port, starts, responses) && b.port.active.None? && !b.port.stopped
    ensures Pmp.Carries(Begin(b, t).port, starts[b.port.generation + 1 := t], responses)
  {
    hide Pmp.Carries, Scheduled, Discarded, Pmp.Start, Pmp.Abort, Pmp.TransferCycles;
    var begun := starts[b.port.generation + 1 := t];
    Pmp.StartCarries(b.port, t, starts, responses);
    Pmp.PendingCarries(Pmp.Start(b.port, t), [], begun, responses);
    Pmp.AbortCarries(Pmp.Start(b.port, t).(pending := []), begun, responses);
  }

  lemma DispatchCarries(port: Pmp.State, e: Event, response: nat, starts: map<nat, Pmp.Transfer>, responses: seq<nat>)
    requires Pmp.Carries(port, starts, responses)
    ensures var t := Dispatch(port, e, response);
            Pmp.Carries(t, starts, if |t.completed| > |port.completed| then responses + [response] else responses)
  {
    hide Pmp.Carries, Pmp.ClearBusy, Pmp.Complete;
    Pmp.ClearBusyCarries(port, e.value, starts, responses);
    Pmp.CompleteCarries(port, e.value, response, starts, responses);
  }

  lemma PerformCarries(b: Board, a: Act, starts: map<nat, Pmp.Transfer>, responses: seq<nat>)
    requires Pmp.Carries(b.port, starts, responses)
    ensures Pmp.Carries(Perform(b, a).port, Begun(b, a, starts), Answered(b, a, responses))
  {
    hide Pmp.Carries, Begin, Dispatch, Handled, Discarded, Pmp.Abort, Runtime.Apply, Runtime.Ticked, HeadIsDue, MayPass,
         CannotResume;
    if !b.halted && !SchedulesMaster(a) {
      match a
      case StartTransfer(transfer) =>
        if b.port.active.None? && !b.port.stopped {
          BeginCarries(b, transfer, starts, responses);
        } else {
          NotBegun(b, transfer);
        }
      case TakeEvent(response) =>
        if HeadIsDue(b.device) {
          HeadExists(b.device);
          DispatchCarries(b.port, b.device.events[0], response, starts, responses);
        }
      case PassTime(cycles) => Pmp.ClockCarries(b.port, Perform(b, a).port, starts, responses);
      case StopClock => Pmp.ClockCarries(b.port, Perform(b, a).port, starts, responses);
      case StartClock => Pmp.ClockCarries(b.port, Perform(b, a).port, starts, responses);
      case Disable => Pmp.AbortCarries(b.port, starts, responses);
      case _ =>
    }
  }

  lemma NotBegun(b: Board, t: Pmp.Transfer)
    requires b.port.active.Some? || b.port.stopped
    ensures Begin(b, t) == b
  {
  }

  lemma HeadExists(d: Runtime.Device)
    ensures HeadIsDue(d) ==> d.events != []
  {
  }

  lemma {:induction false} BoardCarries(b: Board, acts: seq<Act>, starts: map<nat, Pmp.Transfer>, responses: seq<nat>)
    requires Pmp.Carries(b.port, starts, responses)
    ensures Pmp.Carries(PerformAll(b, acts).port, BoardStarts(b, acts, starts), BoardResponses(b, acts, responses))
    decreases |acts|
  {
    hide Pmp.Carries, Perform, Begun, Answered;
    if acts != [] {
      PerformCarries(b, acts[0], starts, responses);
      BoardCarries(Perform(b, acts[0]), acts[1..], Begun(b, acts[0], starts), Answered(b, acts[0], responses));
    }
  }

  /**
  In every run on the board, with any DMA sources, each completed transfer hands over the low byte or
  word of the response given to the event that completed it, or of the data register at its start.
  */
  lemma BoardCarriesData(acts: seq<Act>, i: nat)
    requires i < |PerformAll(START, acts).port.completed|
    ensures var c, starts := PerformAll(START, acts).port.completed[i], BoardStarts(START, acts, map[]);
            var responses := BoardResponses(START, acts, []);
            && |responses| == |PerformAll(START, acts).port.completed| && c.slot.generation in starts
            && var t := starts[c.slot.generation];
               c.slot.transfer == t.(value := c.slot.transfer.value)
               && c.value == (if t.reading then responses[i] else t.value) % (if t.wide then 0x1_0000 else 0x100)
  {
    hide PerformAll, BoardStarts, BoardResponses;
    BoardCarries(START, acts, map[], []);
  }

  // ---------------------------------------------------------------------------------------
  // Two DMA sources are enough to lose a transfer
  // ---------------------------------------------------------------------------------------

  /** A write of two cycles. */
  const BRIEF: Pmp.Transfer := Pmp.Transfer(0, 1, false, 0, 0, 0, 0, false)

  /** The nine events of the run, numbered in the order they are scheduled. */
  function F(low: nat, high: nat, n: nat): Event {
    if n < 9 then
      Event([4, 2, 4, 2, 2, 1, 3, 2, 2][n], n, 0, [0, 0, 0, 0, 1, 1, 2, 2, 0][n],
            [0, 0, 0, high, COMPLETE, CLEAR_BUSY, COMPLETE, CLEAR_BUSY, low][n],
            if n < 3 then Other(0) else if n == 3 || n == 8 then Dma else EventType.Pmp, false)
    else
      Event(5, n, 0, 0, 0, Other(0), false)
  }

  function ScheduleF(low: nat, high: nat, n: nat, now: nat): Act
    requires now <= F(low, high, n).cycle
  {
    var e := F(low, high, n);
    ScheduleOther(e.eventType, e.source, e.value, e.cycle - now)
  }

  function LosingActs(low: nat, high: nat): seq<Act> {
    [ScheduleF(low, high, 0, 0), ScheduleF(low, high, 1, 0), ScheduleF(low, high, 2, 0), ScheduleF(low, high, 3, 0),
     StartTransfer(BRIEF), PassTime(1), TakeEvent(0), StartTransfer(BRIEF), ScheduleF(low, high, 8, 1),
     PassTime(1), TakeEvent(0), TakeEvent(0)]
  }

  ghost predicate Shows(b: Board, now: nat, events: seq<Event>, sequence: nat, port: Pmp.State) {
    !b.halted && b.device.now == now && b.device.events == events && b.device.sequence == sequence && b.port == port
  }

  lemma ShowsScheduled(b: Board, v: seq<Event>, e: Event, w: seq<Event>)
    requires !b.halted && b.device.events == v && e.sequence == b.device.sequence
    requires b.device.now <= e.cycle < CYCLE_RANGE && !Master(e) && !e.paused && e.pausedRemaining == 0
    requires Pushed(v, e) == w
    ensures var a := ScheduleOther(e.eventType, e.source, e.value, e.cycle - b.device.now);
            Shows(Perform(b, a), b.device.now, w, b.device.sequence + 1, b.port)
  {
    hide Pushed;
  }

  lemma ShowsBegun(b: Board, v: seq<Event>, completes: Event, w: seq<Event>, clears: Event, x: seq<Event>)
    requires !b.halted && b.device.events == v && b.port.active.None? && !b.port.stopped && b.device.now + 2 < CYCLE_RANGE
    requires completes == Event(b.device.now + 2, b.device.sequence, 0, b.port.generation + 1, COMPLETE, EventType.Pmp, false)
    requires clears == Event(b.device.now + 1, b.device.sequence + 1, 0, b.port.generation + 1, CLEAR_BUSY, EventType.Pmp, false)
    requires Pushed(v, completes) == w && Pushed(w, clears) == x
    ensures Shows(Perform(b, StartTransfer(BRIEF)), b.device.now, x, b.device.sequence + 2,
                  Pmp.Start(b.port, BRIEF).(pending := []))
  {
    hide Pushed;
  }

  lemma ShowsPassed(b: Board, v: seq<Event>)
    requires !b.halted && b.device.events == v && v != [] && !v[0].paused && !b.port.stopped
    requires b.device.now + 1 == v[0].cycle < CYCLE_RANGE
    ensures Shows(Perform(b, PassTime(1)), b.device.now + 1, v, b.device.sequence, b.port.(clock := b.port.clock + 1))
  {
  }

  lemma ShowsTaken(b: Board, v: seq<Event>, w: seq<Event>)
    requires !b.halted && b.device.events == v && v != [] && HeadIsDue(b.device) && Popped(v) == w
    ensures Shows(Perform(b, TakeEvent(0)), b.device.now, w, b.device.sequence, Dispatch(b.port, v[0], 0))
  {
    hide Popped, Dispatch;
  }

  lemma HeapAtStart(low: nat, high: nat)
    ensures var e := (n: nat) => F(low, high, n);
            && Pushed([], e(0)) == [e(0)]
            && Pushed([e(0)], e(1)) == [e(1), e(0)]
            && Pushed([e(1), e(0)], e(2)) == [e(1), e(0), e(2)]
            && Pushed([e(1), e(0), e(2)], e(3)) == [e(1), e(3), e(2), e(0)]
  {
    hide SiftUp;
    var e := (n: nat) => F(low, high, n);
    var none: seq<Event> := [];
    assert none + [e(0)] == [e(0)];
    SiftUpStays([e(0)], 0);
    SiftUpRises([e(0)] + [e(1)], 1, [e(1), e(0)]);
    SiftUpStays([e(1), e(0)], 0);
    SiftUpStays([e(1), e(0)] + [e(2)], 2);
    SiftUpRises([e(1), e(0), e(2)] + [e(3)], 3, [e(1), e(3), e(2), e(0)]);
    SiftUpStays([e(1), e(3), e(2), e(0)], 1);
  }

  lemma HeapAtFirstTransfer(low: nat, high: nat)
    ensures var e := (n: nat) => F(low, high, n);
            && Pushed([e(1), e(3), e(2), e(0)], e(4)) == [e(1), e(3), e(2), e(0), e(4)]
            && Pushed([e(1), e(3), e(2), e(0), e(4)], e(5)) == [e(5), e(3), e(1), e(0), e(4), e(2)]
            && Popped([e(5), e(3), e(1), e(0), e(4), e(2)]) == [e(1), e(3), e(2), e(0), e(4)]
  {
    hide SiftUp, SiftDown;
    var e := (n: nat) => F(low, high, n);
    SiftUpStays([e(1), e(3), e(2), e(0)] + [e(4)], 4);
    SiftUpRises([e(1), e(3), e(2), e(0), e(4)] + [e(5)], 5, [e(1), e(3), e(5), e(0), e(4), e(2)]);
    SiftUpRises([e(1), e(3), e(5), e(0), e(4), e(2)], 2, [e(5), e(3), e(1), e(0), e(4), e(2)]);
    SiftUpStays([e(5), e(3), e(1), e(0), e(4), e(2)], 0);
    var v := [e(5), e(3), e(1), e(0), e(4), e(2)];
    assert v[..5][0 := v[5]] == [e(2), e(3), e(1), e(0), e(4)];
    SiftDownFalls([e(2), e(3), e(1), e(0), e(4)], 0, [e(1), e(3), e(2), e(0), e(4)]);
    SiftDownStays([e(1), e(3), e(2), e(0), e(4)], 2);
  }

  lemma HeapAtSecondTransfer(low: nat, high: nat)
    requires Rank(low) < Rank(high)
    ensures var e := (n: nat) => F(low, high, n);
            && Pushed([e(1), e(3), e(2), e(0), e(4)], e(6)) == [e(1), e(3), e(6), e(0), e(4), e(2)]
            && Pushed([e(1), e(3), e(6), e(0), e(4), e(2)], e(7)) == [e(1), e(3), e(7), e(0), e(4), e(2), e(6)]
            && Pushed([e(1), e(3), e(7), e(0), e(4), e(2), e(6)], e(8)) == [e(1), e(8), e(7), e(3), e(4), e(2), e(6), e(0)]
  {
    hide SiftUp;
    var e := (n: nat) => F(low, high, n);
    SiftUpRises([e(1), e(3), e(2), e(0), e(4)] + [e(6)], 5, [e(1), e(3), e(6), e(0), e(4), e(2)]);
    SiftUpStays([e(1), e(3), e(6), e(0), e(4), e(2)], 2);
    SiftUpRises([e(1), e(3), e(6), e(0), e(4), e(2)] + [e(7)], 6, [e(1), e(3), e(7), e(0), e(4), e(2), e(6)]);
    SiftUpStays([e(1), e(3), e(7), e(0), e(4), e(2), e(6)], 2);
    SiftUpRises([e(1), e(3), e(7), e(0), e(4), e(2), e(6)] + [e(8)], 7, [e(1), e(3), e(7), e(8), e(4), e(2), e(6), e(0)]);
    SiftUpRises([e(1), e(3), e(7), e(8), e(4), e(2), e(6), e(0)], 3, [e(1), e(8), e(7), e(3), e(4), e(2), e(6), e(0)]);
    SiftUpStays([e(1), e(8), e(7), e(3), e(4), e(2), e(6), e(0)], 1);
  }

  lemma HeapAtOvertaking(low: nat, high: nat)
    requires Rank(low) < Rank(high)
    ensures var e := (n: nat) => F(low, high, n);
            && Popped([e(1), e(8), e(7), e(3), e(4), e(2), e(6), e(0)]) == [e(7), e(8), e(6), e(3), e(4), e(2), e(0)]
            && Popped([e(7), e(8), e(6), e(3), e(4), e(2), e(0)]) == [e(8), e(3), e(6), e(0), e(4), e(2)]
  {
    hide SiftDown;
    var e := (n: nat) => F(low, high, n);
    var v := [e(1), e(8), e(7), e(3), e(4), e(2), e(6), e(0)];
    assert v[..7][0 := v[7]] == [e(0), e(8), e(7), e(3), e(4), e(2), e(6)];
    SiftDownFalls([e(0), e(8), e(7), e(3), e(4), e(2), e(6)], 0, [e(7), e(8), e(0), e(3), e(4), e(2), e(6)]);
    SiftDownFalls([e(7), e(8), e(0), e(3), e(4), e(2), e(6)], 2, [e(7), e(8), e(6), e(3), e(4), e(2), e(0)]);
    SiftDownStays([e(7), e(8), e(6), e(3), e(4), e(2), e(0)], 6);
    var w := [e(7), e(8), e(6), e(3), e(4), e(2), e(0)];
    assert w[..6][0 := w[6]] == [e(0), e(8), e(6), e(3), e(4), e(2)];
    SiftDownFalls([e(0), e(8), e(6), e(3), e(4), e(2)], 0, [e(8), e(0), e(6), e(3), e(4), e(2)]);
    SiftDownFalls([e(8), e(0), e(6), e(3), e(4), e(2)], 1, [e(8), e(3), e(6), e(0), e(4), e(2)]);
    SiftDownStays([e(8), e(3), e(6), e(0), e(4), e(2)], 3);
  }

  /** The slots of the two transfers, and the port with both of them started. */
  const FIRST: Pmp.Slot := Pmp.Slot(1, BRIEF)
  const SECOND: Pmp.Slot := Pmp.Slot(2, BRIEF)

  function PortAfter(clock: nat, active: Option<Pmp.Slot>, completing: Option<Pmp.Slot>, started: nat): Pmp.State {
    Pmp.State(started, active, completing, active.Some?, [], false, clock,
              if started == 0 then [] else if started == 1 then [FIRST] else [FIRST, SECOND],
              if started == 0 then map[] else if started == 1 then map[1 := 0] else map[1 := 0, 2 := 1], [])
  }

  lemma PortSteps()
    ensures Pmp.RESET == PortAfter(0, None, None, 0)
    ensures Pmp.Start(PortAfter(0, None, None, 0), BRIEF).(pending := []) == PortAfter(0, Some(FIRST), None, 1)
    ensures Pmp.Start(PortAfter(1, None, Some(FIRST), 1), BRIEF).(pending := []) == PortAfter(1, Some(SECOND), Some(FIRST), 2)
    ensures Pmp.ClearBusy(PortAfter(1, Some(FIRST), None, 1), 1) == PortAfter(1, None, Some(FIRST), 1)
    ensures Pmp.ClearBusy(PortAfter(2, Some(SECOND), Some(FIRST), 2), 2) == PortAfter(2, None, Some(SECOND), 2)
  {
  }

  lemma FirstHalf(low: nat, high: nat)
    ensures var e := (n: nat) => F(low, high, n);
            Shows(PerformAll(START, LosingActs(low, high)[..7]), 1, [e(1), e(3), e(2), e(0), e(4)], 6,
                  PortAfter(1, None, Some(FIRST), 1))
  {
    hide Perform, Pushed, Popped, Pmp.Start, Pmp.ClearBusy, PerformAll;
    var e := (n: nat) => F(low, high, n);
    var acts := LosingActs(low, high);
    HeapAtStart(low, high);
    HeapAtFirstTransfer(low, high);
    PortSteps();
    var b1 := Perform(START, acts[0]);
    ShowsScheduled(START, [], e(0), [e(0)]);
    var b2 := Perform(b1, acts[1]);
    ShowsScheduled(b1, [e(0)], e(1), [e(1), e(0)]);
    var b3 := Perform(b2, acts[2]);
    ShowsScheduled(b2, [e(1), e(0)], e(2), [e(1), e(0), e(2)]);
    var b4 := Perform(b3, acts[3]);
    ShowsScheduled(b3, [e(1), e(0), e(2)], e(3), [e(1), e(3), e(2), e(0)]);
    var b5 := Perform(b4, acts[4]);
    ShowsBegun(b4, [e(1), e(3), e(2), e(0)], e(4), [e(1), e(3), e(2), e(0), e(4)], e(5), [e(5), e(3), e(1), e(0), e(4), e(2)]);
    var b6 := Perform(b5, acts[5]);
    ShowsPassed(b5, [e(5), e(3), e(1), e(0), e(4), e(2)]);
    var b7 := Perform(b6, acts[6]);
    ShowsTaken(b6, [e(5), e(3), e(1), e(0), e(4), e(2)], [e(1), e(3), e(2), e(0), e(4)]);
    PerformsInOrder(acts[..7], [START, b1, b2, b3, b4, b5, b6, b7]);
  }

  lemma {:induction false} PerformsInOrder(acts: seq<Act>, boards: seq<Board>)
    requires |boards| == |acts| + 1
    requires forall i :: 0 <= i < |acts| ==> Perform(boards[i], acts[i]) == boards[i + 1]
    ensures PerformAll(boards[0], acts) == boards[|acts|]
    decreases |acts|
  {
    hide Perform;
    if acts != [] {
      PerformsInOrder(acts[1..], boards[1..]);
    }
  }

  lemma {:induction false} PerformsAppend(b: Board, first: seq<Act>, second: seq<Act>)
    ensures PerformAll(b, first + second) == PerformAll(PerformAll(b, first), second)
    decreases |first|
  {
    hide Perform;
    if first == [] {
      assert first + second == second;
    } else {
      assert (first + second)[1..] == first[1..] + second;
      PerformsAppend(Perform(b, first[0]), first[1..], second);
    }
  }

  lemma SecondHalf(low: nat, high: nat, b: Board)
    requires Rank(low) < Rank(high)
    requires var e := (n: nat) => F(low, high, n);
             Shows(b, 1, [e(1), e(3), e(2), e(0), e(4)], 6, PortAfter(1, None, Some(FIRST), 1))
    ensures PerformAll(b, LosingActs(low, high)[7..]).port == PortAfter(2, None, Some(SECOND), 2)
  {
    hide Perform, Pushed, Popped, Pmp.Start, Pmp.ClearBusy, PerformAll, Rank;
    var e := (n: nat) => F(low, high, n);
    var acts := LosingActs(low, high)[7..];
    HeapAtSecondTransfer(low, high);
    HeapAtOvertaking(low, high);
    PortSteps();
    var b1 := Perform(b, acts[0]);
    ShowsBegun(b, [e(1), e(3), e(2), e(0), e(4)], e(6), [e(1), e(3), e(6), e(0), e(4), e(2)], e(7),
               [e(1), e(3), e(7), e(0), e(4), e(2), e(6)]);
    var b2 := Perform(b1, acts[1]);
    ShowsScheduled(b1, [e(1), e(3), e(7), e(0), e(4), e(2), e(6)], e(8), [e(1), e(8), e(7), e(3), e(4), e(2), e(6), e(0)]);
    var b3 := Perform(b2, acts[2]);
    ShowsPassed(b2, [e(1), e(8), e(7), e(3), e(4), e(2), e(6), e(0)]);
    var b4 := Perform(b3, acts[3]);
    ShowsTaken(b3, [e(1), e(8), e(7), e(3), e(4), e(2), e(6), e(0)], [e(7), e(8), e(6), e(3), e(4), e(2), e(0)]);
    var b5 := Perform(b4, acts[4]);
    ShowsTaken(b4, [e(7), e(8), e(6), e(3), e(4), e(2), e(0)], [e(8), e(3), e(6), e(0), e(4), e(2)]);
    PerformsInOrder(acts, [b, b1, b2, b3, b4, b5]);
  }

  /**
  Two transfers overlap, and two DMA events of different priority are scheduled. The end of the
  second bus phase is then delivered before the first completion: the first transfer is lost.
  */
  lemma TransferIsLost(low: nat, high: nat)
    requires Rank(low) < Rank(high)
    ensures !TransfersKept(PerformAll(START, LosingActs(low, high)).port)
  {
    hide PerformAll;
    var acts := LosingActs(low, high);
    FirstHalf(low, high);
    SecondHalf(low, high, PerformAll(START, acts[..7]));
    assert acts == acts[..7] + acts[7..];
    PerformsAppend(START, acts[..7], acts[7..]);
  }

  /**
  Every run on the board keeps every transfer, each in its turn and on time, if and only if at most
  one DMA source is in use.
  */
  lemma TransfersKeptExactly(sources: set<nat>)
    requires forall source :: source in sources ==> source < 2 * DMA_COUNT
    ensures (forall acts :: Legal(sources, acts) ==> TransfersKept(PerformAll(START, acts).port)) <==> |sources| <= 1
  {
    hide PerformAll, TransfersKept, Rank;
    if |sources| <= 1 {
      forall acts | Legal(sources, acts) ensures TransfersKept(PerformAll(START, acts).port) {
        RunKeepsTransfers(sources, acts);
      }
    } else {
      var low, high := TwoSources(sources);
      TransferIsLost(low, high);
      assert Legal(sources, LosingActs(low, high));
    }
  }
}
