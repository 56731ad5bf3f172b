/** What the timers and the encoders report to the event loop together. */
module Boundaries {
  import Timers
  import Qei
  import Runtime
  import EventQueue

  ghost predicate ValidUnits(timers: seq<Timers.Timer>, channels: seq<Qei.Channel>) {
    && Timers.ComparesAhead(timers)
    && (forall i :: 0 <= i < |timers| ==> Timers.Valid(timers[i].counter))
    && (forall i :: 0 <= i < |channels| ==> Qei.ValidChannel(channels[i]))
  }

  /**
  The boundary of one trip of the event loop: no timer passes its period or the tick of an output compare
  channel within it, no encoder output changes, and the loop may rely on it, since it is zero only if no time can pass.
  */
  method TripBoundary(d: Runtime.Device, target: nat, timers: seq<Timers.Timer>, channels: seq<Qei.Channel>)
    returns (boundary: nat)
    requires ValidUnits(timers, channels) && d.now <= Runtime.NextCycle(d, target) < EventQueue.CYCLE_RANGE
    ensures forall effects, stops :: Runtime.Honest(d, target, Runtime.Response(boundary, effects, stops))
    ensures boundary <= Runtime.NextCycle(d, target) - d.now
    ensures forall effects, stops ::
              Runtime.Boundary(d, target, Runtime.Response(boundary, effects, stops)) == boundary
    ensures forall i :: 0 <= i < |timers| && timers[i].counting ==> Timers.StopsInTime(timers[i].counter, boundary)
    ensures forall i :: 0 <= i < |timers| && timers[i].counting ==> Timers.KeepsCompare(timers[i], boundary)
    ensures forall i :: 0 <= i < |channels| ==> Qei.SteadyFor(channels[i], boundary)
  {
    hide Timers.StopsInTime, Timers.KeepsCompare, Qei.SteadyFor;
    var limit := (Runtime.NextCycle(d, target) - d.now) % EventQueue.CYCLE_RANGE;
    boundary := Timers.BoundaryCycles(timers, limit);
    var encoders := Qei.BoundaryCycles(channels, boundary);
    forall i | 0 <= i < |timers| && timers[i].counting
      ensures Timers.StopsInTime(timers[i].counter, encoders) && Timers.KeepsCompare(timers[i], encoders)
    {
      Timers.ShorterStops(timers[i].counter, boundary, encoders);
      Timers.ShorterKeepsCompare(timers[i], boundary, encoders);
    }
    if encoders < boundary {
      boundary := encoders;
    }
  }
}
