/**
The loop that advances device time to the end of an instruction: it jumps to the nearest timer
boundary or queued event, and handles each event when its cycle is reached.

The timers and the event handlers are not part of this model. Each trip round the loop takes one
`Response`: the boundary the timers report, and what the handlers do to the event queue.
*/
module Runtime {
  import opened EventQueue

  datatype Effect =
    | Schedule(eventType: EventType, source: nat, value: nat, delay: nat)
    | Pause(selects: Event -> bool)
    | Resume(selects: Event -> bool)
    | Discard(drop: Event -> bool)

  datatype Response = Response(boundary: nat, effects: seq<Effect>, stops: bool)

  datatype Handled = Handled(cycle: nat, event: Event)

  /**
  The device clock and its queue, with the history that the theorems are about: the events handled
  so far, the delay each event was scheduled with, and the unpaused cycles it has waited.
  */
  datatype Device = Device(
    now: nat,
    events: seq<Event>,
    sequence: nat,
    log: seq<Handled>,
    delay: map<nat, nat>,
    served: map<nat, nat>)

  datatype Outcome = Running(device: Device) | Exited(device: Device) | Stopped(device: Device) | Faulted(device: Device)

  // ---------------------------------------------------------------------------------------
  // One trip round the loop
  // ---------------------------------------------------------------------------------------

  function Apply(d: Device, effect: Effect): Device {
    match effect
    case Schedule(eventType, source, value, delay) =>
      if d.now + delay >= CYCLE_RANGE then d
      else d.(events := Pushed(d.events, Event(d.now + delay, d.sequence, 0, value, source, eventType, false)),
              sequence := d.sequence + 1,
              delay := d.delay[d.sequence := delay],
              served := d.served[d.sequence := 0])
    case Pause(selects) => d.(events := Paused(selects, d.now, d.events))
    case Resume(selects) => d.(events := Resumed(selects, d.now, d.events))
    case Discard(drop) => d.(events := Reordered(Retained(drop, d.events, |d.events|)))
  }

  function ApplyAll(d: Device, effects: seq<Effect>): Device
    decreases |effects|
  {
    if effects == [] then d else ApplyAll(Apply(d, effects[0]), effects[1..])
  }

  function Waiting(events: seq<Event>): set<nat> {
    set e | e in events && !e.paused :: e.sequence
  }

  function Ticked(d: Device, cycles: nat): Device {
    d.(now := d.now + cycles,
       served := map s | s in d.served :: d.served[s] + if s in Waiting(d.events) then cycles else 0)
  }

  predicate Due(d: Device, target: nat) {
    d.events != [] && !d.events[0].paused && d.events[0].cycle <= target
  }

  function NextCycle(d: Device, target: nat): nat {
    if Due(d, target) then d.events[0].cycle else target
  }

  /** The timers report a boundary no later than the limit they are asked about. */
  function Boundary(d: Device, target: nat, r: Response): nat {
    var limit := (NextCycle(d, target) - d.now) % CYCLE_RANGE;
    if r.boundary < limit then r.boundary else limit
  }

  function Iterate(d: Device, target: nat, r: Response): Outcome {
    var boundary := Boundary(d, target, r);
    if boundary != 0 then Running(ApplyAll(Ticked(d, boundary), r.effects))
    else if d.now == target && !Due(d, target) then Exited(d)
    else if d.events == [] then Faulted(d)
    else
      var handled := d.(events := Popped(d.events), log := d.log + [Handled(d.now, d.events[0])]);
      var after := ApplyAll(handled, r.effects);
      if r.stops then Stopped(after) else Running(after)
  }

  /** The loop, for as many trips as there are responses. */
  function Loop(d: Device, target: nat, script: seq<Response>): Outcome
    decreases |script|
  {
    if script == [] then Running(d)
    else
      var outcome := Iterate(d, target, script[0]);
      if outcome.Running? then Loop(outcome.device, target, script[1..]) else outcome
  }

  // ---------------------------------------------------------------------------------------
  // What every trip keeps
  // ---------------------------------------------------------------------------------------

  /** The unpaused cycles that `e` still has to wait. */
  function Remaining(now: nat, e: Event): int {
    if e.paused then e.pausedRemaining else e.cycle - now
  }

  ghost predicate EventOnSchedule(d: Device, e: Event) {
    && e.cycle < CYCLE_RANGE
    && e.sequence < d.sequence
    && e.sequence in d.delay && e.sequence in d.served
    && (!e.paused ==> d.now <= e.cycle)
    && d.served[e.sequence] + Remaining(d.now, e) == d.delay[e.sequence]
  }

  ghost predicate Numbered(events: seq<Event>) {
    forall i, j :: 0 <= i < j < |events| ==> events[i].sequence != events[j].sequence
  }

  ghost predicate HandledOnTime(d: Device, h: Handled) {
    && h.cycle == h.event.cycle <= d.now
    && h.event.sequence in d.delay && h.event.sequence in d.served
    && d.served[h.event.sequence] == d.delay[h.event.sequence]
    && h.event.sequence < d.sequence
    && forall e :: e in d.events ==> e.sequence != h.event.sequence
  }

  ghost predicate Valid(sources: set<nat>, d: Device) {
    && d.now < CYCLE_RANGE
    && Ordered(sources, d.events)
    && Numbered(d.events)
    && (forall e :: e in d.events ==> EventOnSchedule(d, e))
    && (forall h :: h in d.log ==> HandledOnTime(d, h))
    && (forall i, j :: 0 <= i < j < |d.log| ==> d.log[i].cycle <= d.log[j].cycle)
  }

  lemma SameEvents(v: seq<Event>, event: Event)
    ensures forall e :: e in Reordered(v) <==> e in v
    ensures forall e :: e in Pushed(v, event) <==> e in v || e == event
    ensures v != [] ==> forall e :: e in Popped(v) <==> e in v[1..]
    ensures Numbered(v) ==> Numbered(Reordered(v))
    ensures Numbered(v + [event]) ==> Numbered(Pushed(v, event))
    ensures Numbered(v) && v != [] ==> Numbered(Popped(v))
  {
    hide Reordered, Pushed, Popped, Numbered;
    OperationsKeepEvents(v, event);
    PermutationKeepsNumbers(v, Reordered(v));
    assert multiset(Pushed(v, event)) == multiset(v + [event]);
    PermutationKeepsNumbers(v + [event], Pushed(v, event));
    if v != [] {
      assert v == [v[0]] + v[1..];
      assert multiset(Popped(v)) == multiset(v[1..]);
      PermutationKeepsNumbers(v[1..], Popped(v));
      if Numbered(v) {
        TailIsNumbered(v);
      }
    }
  }

  lemma TailIsNumbered(v: seq<Event>)
    requires v != [] && Numbered(v)
    ensures Numbered(v[1..])
  {
  }

  lemma PermutationKeepsNumbers(v: seq<Event>, w: seq<Event>)
    requires multiset(v) == multiset(w)
    ensures forall e :: e in v <==> e in w
    ensures Numbered(v) ==> Numbered(w)
  {
    forall e ensures e in v <==> e in w {
      assert e in multiset(v) <==> e in multiset(w);
    }
    if Numbered(v) {
      forall i, j | 0 <= i < j < |w| ensures w[i].sequence != w[j].sequence {
        assert w[i] in v && w[j] in v;
        if w[i].sequence == w[j].sequence {
          EqualNumbersAreEqual(v, w[i], w[j]);
          NumberedOnce(v, w[i]);
          RepeatedTwice(w, i, j);
          assert false;
        }
      }
    }
  }

  lemma EqualNumbersAreEqual(v: seq<Event>, e: Event, f: Event)
    requires Numbered(v) && e in v && f in v && e.sequence == f.sequence
    ensures e == f
  {
    var i :| 0 <= i < |v| && v[i] == e;
    var j :| 0 <= j < |v| && v[j] == f;
    assert i == j;
  }

  lemma {:induction false} NumberedOnce(v: seq<Event>, e: Event)
    requires Numbered(v)
    ensures multiset(v)[e] <= 1
  {
    if v != [] {
      assert v == v[..|v| - 1] + [v[|v| - 1]];
      NumberedOnce(v[..|v| - 1], e);
    }
  }

  lemma RepeatedTwice(v: seq<Event>, i: nat, j: nat)
    requires i < j < |v| && v[i] == v[j]
    ensures multiset(v)[v[i]] >= 2
  {
    assert v == v[..j] + v[j..];
    assert v[i] in v[..j] && v[j] in v[j..];
  }

  lemma {:induction false} RetainedAreNumbered(drop: Event -> bool, v: seq<Event>, n: nat)
    requires n <= |v| && Numbered(v)
    ensures Numbered(Retained(drop, v, n))
  {
    if n > 0 {
      RetainedMembers(drop, v, n - 1);
      RetainedAreNumbered(drop, v, n - 1);
      forall e | e in Retained(drop, v, n - 1) ensures e.sequence != v[n - 1].sequence {
        assert e in v[..n - 1];
      }
    }
  }

  /** A DMA event that a handler schedules has one of these sources. */
  ghost predicate EffectAllowed(sources: set<nat>, effect: Effect) {
    effect.Schedule? && effect.eventType.Dma? ==> effect.source in sources
  }

  ghost predicate ScriptAllowed(sources: set<nat>, script: seq<Response>) {
    forall r, effect :: r in script && effect in r.effects ==> EffectAllowed(sources, effect)
  }

  lemma AddedKeepsValid(sources: set<nat>, d: Device, v: seq<Event>, event: Event, delay: nat)
    requires Valid(sources, d) && Ordered(sources, v) && Numbered(v)
    requires forall e :: e in v <==> e in d.events || e == event
    requires !event.paused && event.cycle == d.now + delay < CYCLE_RANGE && event.sequence == d.sequence
    ensures Valid(sources, d.(events := v, sequence := d.sequence + 1,
                           delay := d.delay[d.sequence := delay], served := d.served[d.sequence := 0]))
  {
    hide Ordered, Numbered;
    var after := d.(events := v, sequence := d.sequence + 1,
                    delay := d.delay[d.sequence := delay], served := d.served[d.sequence := 0]);
    forall e | e in v ensures EventOnSchedule(after, e) {
      if e in d.events {
        assert EventOnSchedule(d, e);
      }
    }
    forall h | h in d.log ensures HandledOnTime(after, h) {
      assert HandledOnTime(d, h);
    }
  }

  lemma ScheduleKeepsValid(sources: set<nat>, d: Device, effect: Effect)
    requires Valid(sources, d) && effect.Schedule? && EffectAllowed(sources, effect)
    ensures Valid(sources, Apply(d, effect))
  {
    hide Pushed, Heap, HeapFrom;
    if d.now + effect.delay < CYCLE_RANGE {
      var event := Event(d.now + effect.delay, d.sequence, 0, effect.value, effect.source, effect.eventType, false);
      SameEvents(d.events, event);
      PushedIsOrdered(sources, d.events, event);
      forall i | 0 <= i < |d.events| ensures d.events[i].sequence != event.sequence {
        assert EventOnSchedule(d, d.events[i]);
      }
      AddedKeepsValid(sources, d, Pushed(d.events, event), event, effect.delay);
    }
  }

  /** Replacing each event by one with the same number that is on schedule too. */
  lemma ReplacedKeepsValid(sources: set<nat>, d: Device, v: seq<Event>)
    requires Valid(sources, d) && |v| == |d.events|
    requires forall i :: 0 <= i < |v| ==> EventOnSchedule(d, v[i])
    requires forall i :: 0 <= i < |v| ==> v[i].sequence == d.events[i].sequence
    requires forall i :: 0 <= i < |v| ==> v[i].eventType == d.events[i].eventType && v[i].source == d.events[i].source
    ensures Valid(sources, d.(events := Reordered(v)))
  {
    hide Heap, HeapFrom, Reordered;
    ReplacedIsWithin(sources, d.events, v);
    ReorderedIsOrdered(sources, v);
    SameEvents(v, Event(0, 0, 0, 0, 0, Dma, false));
    forall e | e in v ensures EventOnSchedule(d, e) {
      var i :| 0 <= i < |v| && v[i] == e;
      assert d.events[i] in d.events;
    }
    forall h, e | h in d.log && e in v ensures e.sequence != h.event.sequence {
      var i :| 0 <= i < |v| && v[i] == e;
      assert d.events[i] in d.events;
    }
  }

  /** A pause never meets an event in the past, so the cycles it records never wrap. */
  lemma PauseKeepsSchedule(d: Device, e: Event)
    requires EventOnSchedule(d, e) && !e.paused
    ensures EventOnSchedule(d, PauseEvent(d.now, e))
    ensures PauseEvent(d.now, e).pausedRemaining == e.cycle - d.now
  {
  }

  lemma SubsetKeepsValid(sources: set<nat>, d: Device, v: seq<Event>)
    requires Valid(sources, d) && Ordered(sources, v) && Numbered(v)
    requires forall e :: e in v ==> e in d.events
    ensures Valid(sources, d.(events := v))
  {
    hide Ordered, Numbered;
    forall e | e in v ensures EventOnSchedule(d.(events := v), e) {
      assert EventOnSchedule(d, e);
    }
    forall h | h in d.log ensures HandledOnTime(d.(events := v), h) {
      assert HandledOnTime(d, h);
    }
  }

  lemma DiscardKeepsValid(sources: set<nat>, d: Device, drop: Event -> bool)
    requires Valid(sources, d)
    ensures Valid(sources, Apply(d, Discard(drop)))
  {
    hide Heap, HeapFrom, Reordered;
    var v := Retained(drop, d.events, |d.events|);
    RetainedMembers(drop, d.events, |d.events|);
    assert d.events[..|d.events|] == d.events;
    RetainedAreNumbered(drop, d.events, |d.events|);
    ReorderedIsOrdered(sources, v);
    SameEvents(v, Event(0, 0, 0, 0, 0, Dma, false));
    SubsetKeepsValid(sources, d, Reordered(v));
  }

  lemma ApplyKeepsValid(sources: set<nat>, d: Device, effect: Effect)
    requires Valid(sources, d) && EffectAllowed(sources, effect)
    ensures Valid(sources, Apply(d, effect))
    ensures Apply(d, effect).now == d.now && Apply(d, effect).log == d.log
  {
    hide Heap, HeapFrom, Reordered, Pushed;
    forall i | 0 <= i < |d.events| ensures EventOnSchedule(d, d.events[i]) {
      assert d.events[i] in d.events;
    }
    match effect
    case Schedule(_, _, _, _) => ScheduleKeepsValid(sources, d, effect);
    case Pause(selects) =>
      if exists i :: 0 <= i < |d.events| && Pauses(selects, d.events[i]) {
        ReplacedKeepsValid(sources, d, PausedEvents(selects, d.now, d.events));
      }
    case Resume(selects) =>
      if exists i :: 0 <= i < |d.events| && Resumes(selects, d.now, d.events[i]) {
        ReplacedKeepsValid(sources, d, ResumedEvents(selects, d.now, d.events));
      }
    case Discard(drop) => DiscardKeepsValid(sources, d, drop);
  }

  lemma {:induction false} ApplyAllKeepsValid(sources: set<nat>, d: Device, effects: seq<Effect>)
    requires Valid(sources, d) && forall effect :: effect in effects ==> EffectAllowed(sources, effect)
    ensures Valid(sources, ApplyAll(d, effects))
    ensures ApplyAll(d, effects).now == d.now && ApplyAll(d, effects).log == d.log
    decreases |effects|
  {
    hide Valid, Apply;
    if effects != [] {
      ApplyKeepsValid(sources, d, effects[0]);
      ApplyAllKeepsValid(sources, Apply(d, effects[0]), effects[1..]);
    }
  }

  /** Time never passes an unpaused event, and every waiting event is served the cycles passed. */
  lemma TickKeepsValid(sources: set<nat>, d: Device, target: nat, cycles: nat)
    requires Valid(sources, d) && d.now + cycles <= NextCycle(d, target) && target < CYCLE_RANGE
    ensures Valid(sources, Ticked(d, cycles))
  {
    hide Heap, HeapFrom;
    forall e | e in d.events ensures EventOnSchedule(Ticked(d, cycles), e) {
      assert EventOnSchedule(d, e);
      HeadIsFirst(sources, d, e);
      if e.paused {
        assert e.sequence !in Waiting(d.events);
      }
    }
    forall h | h in d.log ensures HandledOnTime(Ticked(d, cycles), h) {
      assert HandledOnTime(d, h) && h.event.sequence !in Waiting(d.events);
    }
  }

  /** The head of the queue comes no later than any unpaused event, first scheduled first. */
  lemma HeadIsFirst(sources: set<nat>, d: Device, e: Event)
    requires Valid(sources, d) && e in d.events
    ensures !e.paused ==> !d.events[0].paused && d.events[0].cycle <= e.cycle
    ensures AtMost(|sources| <= 1, d.events[0], e)
  {
    var i :| 0 <= i < |d.events| && d.events[i] == e;
    HeadIsLeast(false, d.events, i);
    HeadIsLeast(|sources| <= 1, d.events, i);
  }

  lemma HandleKeepsValid(sources: set<nat>, d: Device)
    requires Valid(sources, d) && d.events != [] && !d.events[0].paused && d.events[0].cycle == d.now
    ensures Valid(sources, d.(events := Popped(d.events), log := d.log + [Handled(d.now, d.events[0])]))
  {
    hide Heap, HeapFrom, Popped;
    var first := d.events[0];
    PoppedIsOrdered(sources, d.events);
    SameEvents(d.events, first);
    assert EventOnSchedule(d, first);
    var after := d.(events := Popped(d.events), log := d.log + [Handled(d.now, first)]);
    forall e | e in after.events ensures EventOnSchedule(after, e) && e.sequence != first.sequence {
      assert e in d.events[1..] && EventOnSchedule(d, e);
    }
    forall h | h in after.log ensures HandledOnTime(after, h) {
      if h in d.log {
        assert HandledOnTime(d, h);
      }
    }
    forall i | 0 <= i < |d.log| ensures d.log[i].cycle <= d.now {
      assert HandledOnTime(d, d.log[i]);
    }
  }

  // ---------------------------------------------------------------------------------------
  // Whole runs
  // ---------------------------------------------------------------------------------------

  /** The boundary reported is zero only if no time can pass. */
  predicate Honest(d: Device, target: nat, r: Response) {
    r.boundary == 0 ==> d.now == NextCycle(d, target)
  }

  predicate HonestRun(d: Device, target: nat, script: seq<Response>)
    decreases |script|
  {
    script == []
    || (Honest(d, target, script[0])
        && (Iterate(d, target, script[0]).Running? ==> HonestRun(Iterate(d, target, script[0]).device, target, script[1..])))
  }

  lemma IterateKeepsValid(sources: set<nat>, d: Device, target: nat, r: Response)
    requires Valid(sources, d) && d.now <= target < CYCLE_RANGE && Honest(d, target, r)
    requires forall effect :: effect in r.effects ==> EffectAllowed(sources, effect)
    ensures var o := Iterate(d, target, r);
            !o.Faulted? && Valid(sources, o.device) && d.log <= o.device.log
            && d.now <= o.device.now <= target
            && (o.Exited? ==> o.device.now == target && !Due(o.device, target))
  {
    hide Heap, HeapFrom, Popped, Valid;
    HeadInFuture(sources, d);
    var boundary := Boundary(d, target, r);
    if boundary != 0 {
      TickKeepsValid(sources, d, target, boundary);
      ApplyAllKeepsValid(sources, Ticked(d, boundary), r.effects);
    } else if Due(d, target) {
      HandleKeepsValid(sources, d);
      var handled := d.(events := Popped(d.events), log := d.log + [Handled(d.now, d.events[0])]);
      ApplyAllKeepsValid(sources, handled, r.effects);
    }
  }

  lemma HeadInFuture(sources: set<nat>, d: Device)
    requires Valid(sources, d)
    ensures d.now < CYCLE_RANGE
    ensures d.events != [] && !d.events[0].paused ==> d.now <= d.events[0].cycle < CYCLE_RANGE
  {
    if d.events != [] {
      assert EventOnSchedule(d, d.events[0]);
    }
  }

  /**
  Every run of the loop, of any length, from any valid device: each event is handled exactly at
  its cycle, after exactly its scheduled delay of unpaused time, in nondecreasing order.
  */
  lemma {:induction false} LoopIsOnTime(sources: set<nat>, d: Device, target: nat, script: seq<Response>)
    requires Valid(sources, d) && d.now <= target < CYCLE_RANGE && ScriptAllowed(sources, script)
    requires HonestRun(d, target, script)
    ensures var o := Loop(d, target, script);
            !o.Faulted? && Valid(sources, o.device) && d.log <= o.device.log
            && d.now <= o.device.now <= target
            && (o.Exited? ==> o.device.now == target && !Due(o.device, target))
    decreases |script|
  {
    hide Valid, Iterate;
    if script != [] {
      IterateKeepsValid(sources, d, target, script[0]);
      var outcome := Iterate(d, target, script[0]);
      if outcome.Running? {
        LoopIsOnTime(sources, outcome.device, target, script[1..]);
      }
    }
  }

  function Schedules(effects: seq<Effect>): nat
    decreases |effects|
  {
    if effects == [] then 0 else (if effects[0].Schedule? then 1 else 0) + Schedules(effects[1..])
  }

  function AllSchedules(script: seq<Response>): nat
    decreases |script|
  {
    if script == [] then 0 else Schedules(script[0].effects) + AllSchedules(script[1..])
  }

  lemma ApplyGrows(d: Device, effect: Effect)
    ensures |Apply(d, effect).events| <= |d.events| + if effect.Schedule? then 1 else 0
    ensures Apply(d, effect).now == d.now
  {
    hide Pushed, Reordered;
  }

  lemma {:induction false} ApplyAllGrows(d: Device, effects: seq<Effect>)
    ensures |ApplyAll(d, effects).events| <= |d.events| + Schedules(effects) && ApplyAll(d, effects).now == d.now
    decreases |effects|
  {
    hide Apply;
    if effects != [] {
      ApplyGrows(d, effects[0]);
      ApplyAllGrows(Apply(d, effects[0]), effects[1..]);
    }
  }

  /** A trip lets time pass or takes an event from the queue. */
  lemma TripMakesProgress(d: Device, target: nat, r: Response)
    requires d.now <= target
    ensures var o := Iterate(d, target, r);
            o.Running? ==> o.device.now >= d.now
                           && |o.device.events| + d.now + 1 <= |d.events| + o.device.now + Schedules(r.effects)
  {
    hide Popped, Waiting;
    var boundary := Boundary(d, target, r);
    if boundary != 0 {
      ApplyAllGrows(Ticked(d, boundary), r.effects);
    } else if d.events != [] {
      ApplyAllGrows(d.(events := Popped(d.events), log := d.log + [Handled(d.now, d.events[0])]), r.effects);
    }
  }

  /**
  The loop ends within the cycles left, the events queued and the events its handlers schedule, and
  one trip more.
  */
  lemma {:induction false} LoopEnds(sources: set<nat>, d: Device, target: nat, script: seq<Response>)
    requires Valid(sources, d) && d.now <= target < CYCLE_RANGE && ScriptAllowed(sources, script)
    requires HonestRun(d, target, script)
    requires |script| > (target - d.now) + |d.events| + AllSchedules(script)
    ensures !Loop(d, target, script).Running?
    decreases |script|
  {
    hide Valid, Iterate, Honest, Schedules;
    IterateKeepsValid(sources, d, target, script[0]);
    TripMakesProgress(d, target, script[0]);
    if Iterate(d, target, script[0]).Running? {
      LoopEnds(sources, Iterate(d, target, script[0]).device, target, script[1..]);
    }
  }

  /** Handlers that each schedule an event without a delay. */
  function Endless(n: nat): (script: seq<Response>)
    ensures |script| == n
  {
    seq(n, _ => Response(1, [Schedule(Other(0), 0, 0, 0)], false))
  }

  /** They keep it going for ever, so there is no bound without their schedules. */
  lemma {:induction false} EndlessSchedulesNeverEnd(sources: set<nat>, d: Device, n: nat)
    requires Valid(sources, d) && Due(d, d.now)
    ensures Loop(d, d.now, Endless(n)).Running?
    decreases n
  {
    hide Valid, Iterate;
    if n > 0 {
      var r := Endless(n)[0];
      assert Endless(n)[1..] == Endless(n - 1);
      EndlessTrip(sources, d, r);
      EndlessSchedulesNeverEnd(sources, Iterate(d, d.now, r).device, n - 1);
    }
  }

  lemma EndlessTrip(sources: set<nat>, d: Device, r: Response)
    requires Valid(sources, d) && Due(d, d.now) && r == Response(1, [Schedule(Other(0), 0, 0, 0)], false)
    ensures var o := Iterate(d, d.now, r);
            o.Running? && o.device.now == d.now && Valid(sources, o.device) && Due(o.device, d.now)
  {
    hide Valid, Popped, Pushed;
    HeadInFuture(sources, d);
    IterateKeepsValid(sources, d, d.now, r);
    var handled := d.(events := Popped(d.events), log := d.log + [Handled(d.now, d.events[0])]);
    var event := Event(d.now, d.sequence, 0, 0, 0, Other(0), false);
    assert r.effects[1..] == [];
    assert ApplyAll(Apply(handled, r.effects[0]), []) == Apply(handled, r.effects[0]);
    SameEvents(handled.events, event);
    HeadIsFirst(sources, Iterate(d, d.now, r).device, event);
  }

  /** What the device's validity says of the events handled and still queued. */
  lemma ValidMeansOnTime(sources: set<nat>, d: Device, target: nat)
    requires Valid(sources, d)
    ensures forall h :: h in d.log ==> h.cycle == h.event.cycle && h.event.sequence in d.delay
                                       && h.event.sequence in d.served
                                       && d.served[h.event.sequence] == d.delay[h.event.sequence]
    ensures forall i, j :: 0 <= i < j < |d.log| ==> d.log[i].cycle <= d.log[j].cycle
    ensures forall e :: e in d.events && !e.paused ==> d.now <= e.cycle
    ensures !Due(d, target) ==> forall e :: e in d.events && !e.paused ==> target < e.cycle
    ensures |sources| <= 1 ==> HeadInTurn(d.events)
  {
    forall h | h in d.log
      ensures h.cycle == h.event.cycle && h.event.sequence in d.delay && h.event.sequence in d.served
              && d.served[h.event.sequence] == d.delay[h.event.sequence]
    {
      assert HandledOnTime(d, h);
    }
    if |sources| <= 1 {
      OrderedHeadInTurn(sources, d.events);
    }
    forall e | e in d.events && !e.paused ensures d.now <= e.cycle && (!Due(d, target) ==> target < e.cycle) {
      assert EventOnSchedule(d, e);
      HeadIsFirst(sources, d, e);
    }
  }

  lemma {:induction false} ApplyAllKeepsLog(d: Device, effects: seq<Effect>)
    ensures ApplyAll(d, effects).log == d.log
    decreases |effects|
  {
    hide Pushed, Paused, Resumed, Reordered, Retained;
    if effects != [] {
      ApplyAllKeepsLog(Apply(d, effects[0]), effects[1..]);
    }
  }

  /** The trip hands an event to its handler that is paused or not at its cycle. */
  ghost predicate HandlesEarly(d: Device, target: nat, r: Response) {
    exists h :: Iterate(d, target, r).device.log == d.log + [h] && (h.event.paused || h.event.cycle != h.cycle)
  }

  /**
  A trip from a valid device handles an event early if and only if the timers report a boundary of
  zero cycles although time could pass.
  */
  lemma HandledEarlyExactly(sources: set<nat>, d: Device, target: nat, r: Response)
    requires Valid(sources, d) && d.now <= target < CYCLE_RANGE
    ensures HandlesEarly(d, target, r) <==> r.boundary == 0 && d.now < NextCycle(d, target) && d.events != []
  {
    hide Valid, Popped;
    HeadInFuture(sources, d);
    var boundary := Boundary(d, target, r);
    if boundary != 0 {
      ApplyAllKeepsLog(Ticked(d, boundary), r.effects);
    } else if d.events != [] && !(d.now == target && !Due(d, target)) {
      var h := Handled(d.now, d.events[0]);
      var handled := d.(events := Popped(d.events), log := d.log + [h]);
      ApplyAllKeepsLog(handled, r.effects);
      var log := Iterate(d, target, r).device.log;
      assert log == d.log + [h];
      forall other: Handled | log == d.log + [other] ensures other == h {
        assert log[|d.log|] == other;
      }
      assert HandlesEarly(d, target, r) <==> d.events[0].paused || d.events[0].cycle != d.now;
    }
  }

  // ---------------------------------------------------------------------------------------
  // The device
  // ---------------------------------------------------------------------------------------

  datatype Status = More | Done | Stop | Fault

  function StatusOf(o: Outcome): Status {
    match o
    case Running(_) => More
    case Exited(_) => Done
    case Stopped(_) => Stop
    case Faulted(_) => Fault
  }

  class DeviceRuntime {
    const queue: EventHeap
    var now: nat
    ghost var log: seq<Handled>
    ghost var delay: map<nat, nat>
    ghost var served: map<nat, nat>

    ghost function View(): Device
      reads this, queue
    {
      Device(now, queue.items, queue.sequence, log, delay, served)
    }

    constructor ()
      ensures View() == Device(0, [], 0, [], map[], map[]) && fresh(queue)
    {
      queue := new EventHeap();
      now, log, delay, served := 0, [], map[], map[];
    }

    method ApplyEffects(effects: seq<Effect>)
      modifies this`delay, this`served, queue
      ensures View() == ApplyAll(old(View()), effects)
    {
      hide Pushed, Paused, Resumed, Reordered, Retained;
      for i := 0 to |effects|
        invariant ApplyAll(View(), effects[i..]) == ApplyAll(old(View()), effects)
      {
        match effects[i] {
          case Schedule(eventType, source, value, wait) =>
            delay, served := if now + wait >= CYCLE_RANGE then delay else delay[queue.sequence := wait],
                             if now + wait >= CYCLE_RANGE then served else served[queue.sequence := 0];
            var _ := queue.Schedule(now, eventType, source, value, wait);
          case Pause(selects) => queue.Pause(selects, now);
          case Resume(selects) => var _ := queue.Resume(selects, now);
          case Discard(drop) => queue.Discard(drop);
        }
        assert effects[i..][1..] == effects[i + 1..];
      }
    }

    /** One trip round the loop. */
    method Trip(target: nat, r: Response) returns (status: Status)
      modifies this, queue
      ensures var outcome := Iterate(old(View()), target, r);
              View() == outcome.device && status == StatusOf(outcome)
    {
      hide ApplyAll, Popped, Waiting;
      var next := target;
      if queue.items == [] || queue.items[0].paused || queue.items[0].cycle > target {
        next := target;
      } else if queue.items[0].cycle < next {
        next := queue.items[0].cycle;
      }
      var limit := (next - now) % CYCLE_RANGE;
      var boundary := if r.boundary < limit then r.boundary else limit;
      if boundary != 0 {
        served := Ticked(View(), boundary).served;
        now := now + boundary;
        ApplyEffects(r.effects);
        return More;
      }
      if now == target && (queue.items == [] || queue.items[0].paused || queue.items[0].cycle > target) {
        return Done;
      }
      if queue.items == [] {
        return Fault;
      }
      var event := queue.Pop();
      log := log + [Handled(now, event)];
      ApplyEffects(r.effects);
      return if r.stops then Stop else More;
    }

    method AdvanceInstruction(cycles: nat, script: seq<Response>) returns (status: Status)
      modifies this, queue
      ensures var outcome := Loop(old(View()), old(now) + cycles, script);
              View() == outcome.device && status == StatusOf(outcome)
    {
      hide Iterate;
      var target := now + cycles;
      for i := 0 to |script|
        invariant Loop(View(), target, script[i..]) == Loop(old(View()), target, script)
      {
        assert script[i..][1..] == script[i + 1..];
        status := Trip(target, script[i]);
        if status != More {
          return;
        }
      }
      return More;
    }
  }
}
