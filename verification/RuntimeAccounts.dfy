/** What the effects of handlers do to the queue, and that runs of the loop lose no event and repeat none. */
module RuntimeAccounts {
  import opened EventQueue
  import opened Runtime

  // ---------------------------------------------------------------------------------------
  // One effect
  // ---------------------------------------------------------------------------------------

  lemma ScheduleAddsOne(d: Device, eventType: EventType, source: nat, value: nat, delay: nat)
    ensures var t := Apply(d, Schedule(eventType, source, value, delay));
            if d.now + delay < 0x1_0000_0000_0000_0000 then
              && (forall e :: e in t.events <==>
                    e in d.events || e == Event(d.now + delay, d.sequence, 0, value, source, eventType, false))
              && t.sequence == d.sequence + 1
            else t == d
  {
    hide Pushed;
    SameEvents(d.events, Event(d.now + delay, d.sequence, 0, value, source, eventType, false));
  }

  /** A selected event that runs is stopped with what is left of its delay. */
  function Halted(selects: Event -> bool, now: nat, e: Event): Event {
    if selects(e) && !e.paused then e.(paused := true, pausedRemaining := (e.cycle - now) % 0x1_0000_0000_0000_0000) else e
  }

  /** A selected event that is stopped runs again from now on, if its cycle is one of 64 bits. */
  function Restarted(selects: Event -> bool, now: nat, e: Event): Event {
    if selects(e) && e.paused && now + e.pausedRemaining < 0x1_0000_0000_0000_0000
    then e.(paused := false, pausedRemaining := 0, cycle := now + e.pausedRemaining) else e
  }

  lemma PauseStopsSelected(d: Device, selects: Event -> bool, e: Event)
    ensures e in Apply(d, Pause(selects)).events <==> exists f :: f in d.events && e == Halted(selects, d.now, f)
  {
    hide Reordered;
    var v, w := d.events, PausedEvents(selects, d.now, d.events);
    SameEvents(w, Event(0, 0, 0, 0, 0, Dma, false));
    assert forall i :: 0 <= i < |v| ==> w[i] == Halted(selects, d.now, v[i]);
    ReplacedMembers(v, w, f => Halted(selects, d.now, f), e);
    if !(exists i :: 0 <= i < |v| && Pauses(selects, v[i])) {
      assert v == w;
    }
  }

  lemma ResumeRestartsSelected(d: Device, selects: Event -> bool, e: Event)
    ensures e in Apply(d, Resume(selects)).events <==> exists f :: f in d.events && e == Restarted(selects, d.now, f)
  {
    hide Reordered;
    var v, w := d.events, ResumedEvents(selects, d.now, d.events);
    SameEvents(w, Event(0, 0, 0, 0, 0, Dma, false));
    assert forall i :: 0 <= i < |v| ==> w[i] == Restarted(selects, d.now, v[i]);
    ReplacedMembers(v, w, f => Restarted(selects, d.now, f), e);
    if !(exists i :: 0 <= i < |v| && Resumes(selects, d.now, v[i])) {
      assert v == w;
    }
  }

  lemma ReplacedMembers(v: seq<Event>, w: seq<Event>, change: Event -> Event, e: Event)
    requires |v| == |w| && forall i :: 0 <= i < |v| ==> w[i] == change(v[i])
    ensures e in w <==> exists f :: f in v && e == change(f)
  {
    if e in w {
      var i :| 0 <= i < |w| && w[i] == e;
      assert v[i] in v;
    }
    if exists f :: f in v && e == change(f) {
      var f :| f in v && e == change(f);
      var i :| 0 <= i < |v| && v[i] == f;
      assert w[i] == e;
    }
  }

  lemma DiscardDropsSelected(d: Device, drop: Event -> bool, e: Event)
    ensures e in Apply(d, Discard(drop)).events <==> e in d.events && !drop(e)
  {
    hide Reordered;
    RetainedMembers(drop, d.events, |d.events|);
    assert d.events[..|d.events|] == d.events;
    SameEvents(Retained(drop, d.events, |d.events|), Event(0, 0, 0, 0, 0, Dma, false));
  }

  /** The acts that the order of the queue is proved over change it as these effects do. */
  lemma QueueChangesAlike(d: Device, eventType: EventType, source: nat, delay: nat, selects: Event -> bool)
    ensures var q := Queue(d.events, d.sequence);
            && (d.now + delay < 0x1_0000_0000_0000_0000 ==>
                  var t := Apply(d, Schedule(eventType, source, 0, delay));
                  Change(q, Add(eventType, source, d.now + delay)) == Queue(t.events, t.sequence))
            && Change(q, PauseSome(selects, d.now)).events == Apply(d, Pause(selects)).events
            && Change(q, ResumeSome(selects, d.now)).events == Apply(d, Resume(selects)).events
            && Change(q, DropSome(selects)).events == Apply(d, Discard(selects)).events
  {
    hide Pushed, Paused, Resumed, Reordered, Retained;
  }

  // ---------------------------------------------------------------------------------------
  // Whole runs
  // ---------------------------------------------------------------------------------------

  ghost predicate Queued(d: Device, n: nat) {
    exists e :: e in d.events && e.sequence == n
  }

  ghost predicate HandledBefore(d: Device, n: nat) {
    exists i :: 0 <= i < |d.log| && d.log[i].event.sequence == n
  }

  /** Event number `n`, if it has been scheduled, is still queued or has been handled. */
  ghost predicate Accounted(d: Device, n: nat) {
    n < d.sequence ==> Queued(d, n) || HandledBefore(d, n)
  }

  ghost predicate HandledOnce(d: Device) {
    forall i, j :: 0 <= i < j < |d.log| ==> d.log[i].event.sequence != d.log[j].event.sequence
  }

  /** No discard of these effects selects event number `n`. */
  ghost predicate Keeps(effects: seq<Effect>, n: nat) {
    forall effect, e: Event :: effect in effects && effect.Discard? && e.sequence == n ==> !effect.drop(e)
  }

  lemma ApplyAccounts(d: Device, effect: Effect, n: nat)
    requires Accounted(d, n) && Keeps([effect], n)
    ensures Accounted(Apply(d, effect), n)
  {
    hide Apply;
    ApplyKeepsNumbers(d, effect);
    match effect
    case Schedule(eventType, source, value, delay) =>
      ScheduleAddsOne(d, eventType, source, value, delay);
      if d.now + delay < 0x1_0000_0000_0000_0000 {
        assert Event(d.now + delay, d.sequence, 0, value, source, eventType, false) in Apply(d, effect).events;
      }
    case Pause(selects) =>
      if Queued(d, n) {
        var e :| e in d.events && e.sequence == n;
        PauseStopsSelected(d, selects, Halted(selects, d.now, e));
      }
    case Resume(selects) =>
      if Queued(d, n) {
        var e :| e in d.events && e.sequence == n;
        ResumeRestartsSelected(d, selects, Restarted(selects, d.now, e));
      }
    case Discard(drop) =>
      if Queued(d, n) {
        var e :| e in d.events && e.sequence == n;
        assert effect in [effect];
        DiscardDropsSelected(d, drop, e);
      }
  }

  lemma ApplyKeepsNumbers(d: Device, effect: Effect)
    ensures Apply(d, effect).log == d.log && (!effect.Schedule? ==> Apply(d, effect).sequence == d.sequence)
  {
    hide Pushed, Reordered, Retained;
  }

  lemma {:induction false} ApplyAllAccounts(d: Device, effects: seq<Effect>, n: nat)
    requires Accounted(d, n) && Keeps(effects, n)
    ensures Accounted(ApplyAll(d, effects), n) && ApplyAll(d, effects).log == d.log
    decreases |effects|
  {
    hide Apply, Accounted;
    if effects != [] {
      assert Keeps([effects[0]], n) by {
        assert effects[0] in effects;
      }
      ApplyAccounts(d, effects[0], n);
      ApplyKeepsNumbers(d, effects[0]);
      ApplyAllAccounts(Apply(d, effects[0]), effects[1..], n);
    }
  }

  lemma HandleAccounts(sources: set<nat>, d: Device, n: nat)
    requires Valid(sources, d) && d.events != [] && Accounted(d, n) && HandledOnce(d)
    ensures var handled := d.(events := Popped(d.events), log := d.log + [Handled(d.now, d.events[0])]);
            Accounted(handled, n) && HandledOnce(handled)
  {
    hide Popped, Ordered, Numbered;
    var first := d.events[0];
    SameEvents(d.events, first);
    var handled := d.(events := Popped(d.events), log := d.log + [Handled(d.now, first)]);
    forall i | 0 <= i < |d.log| ensures d.log[i].event.sequence != first.sequence {
      assert HandledOnTime(d, d.log[i]);
    }
    if n == first.sequence {
      assert handled.log[|d.log|].event.sequence == n;
    } else if Queued(d, n) {
      var e :| e in d.events && e.sequence == n;
      assert e in d.events[1..];
    } else if HandledBefore(d, n) {
      var i :| 0 <= i < |d.log| && d.log[i].event.sequence == n;
      assert handled.log[i] == d.log[i];
    }
  }

  lemma TripAccounts(sources: set<nat>, d: Device, target: nat, r: Response, n: nat)
    requires Valid(sources, d) && Accounted(d, n) && HandledOnce(d) && Keeps(r.effects, n)
    ensures var t := Iterate(d, target, r).device;
            Accounted(t, n) && HandledOnce(t)
  {
    hide Valid, Popped, Keeps;
    if Boundary(d, target, r) != 0 {
      ApplyAllAccounts(Ticked(d, Boundary(d, target, r)), r.effects, n);
    } else if d.events != [] {
      HandleAccounts(sources, d, n);
      ApplyAllAccounts(d.(events := Popped(d.events), log := d.log + [Handled(d.now, d.events[0])]), r.effects, n);
    }
  }

  /**
  Whatever handlers schedule, pause and resume, every event that is scheduled before or during a run
  and that no handler discards is, after the run, either still queued or has been handled once.
  */
  lemma {:induction false} LoopLosesNothing(sources: set<nat>, d: Device, target: nat, script: seq<Response>, n: nat)
    requires Valid(sources, d) && d.now <= target < CYCLE_RANGE && ScriptAllowed(sources, script)
    requires HonestRun(d, target, script)
    requires Accounted(d, n) && HandledOnce(d) && forall r :: r in script ==> Keeps(r.effects, n)
    ensures var t := Loop(d, target, script).device;
            HandledOnce(t) && (n < t.sequence ==> Queued(t, n) != HandledBefore(t, n))
    decreases |script|
  {
    hide Iterate, Keeps, Queued, HandledBefore;
    if script == [] {
      QueuedOrHandled(sources, d, n);
    } else {
      assert script[0] in script;
      IterateKeepsValid(sources, d, target, script[0]);
      TripAccounts(sources, d, target, script[0], n);
      var outcome := Iterate(d, target, script[0]);
      if outcome.Running? {
        LoopLosesNothing(sources, outcome.device, target, script[1..], n);
      } else {
        QueuedOrHandled(sources, outcome.device, n);
      }
    }
  }

  lemma QueuedOrHandled(sources: set<nat>, d: Device, n: nat)
    requires Valid(sources, d)
    ensures !(Queued(d, n) && HandledBefore(d, n))
  {
    if HandledBefore(d, n) {
      var i :| 0 <= i < |d.log| && d.log[i].event.sequence == n;
      assert HandledOnTime(d, d.log[i]);
    }
  }
}
