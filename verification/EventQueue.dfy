/**
The queue of future device events: a binary heap held in an array, whose order is `Less`.
*/
module EventQueue {

  const DMA_COUNT: nat := 15

  datatype EventType = Dma | Pmp | Dci | InputCapture | Nvm | Other(code: nat)

  datatype Event = Event(
    cycle: nat,
    sequence: nat,
    pausedRemaining: nat,
    value: nat,
    source: nat,
    eventType: EventType,
    paused: bool)

  predicate Less(left: Event, right: Event) {
    if left.paused != right.paused then !left.paused
    else if left.cycle != right.cycle then left.cycle < right.cycle
    else if left.eventType.Dma? && right.eventType.Dma? && left.source != right.source then
      if (left.source >= DMA_COUNT) != (right.source >= DMA_COUNT) then left.source >= DMA_COUNT
      else left.source % DMA_COUNT < right.source % DMA_COUNT
    else left.sequence < right.sequence
  }

  // ---------------------------------------------------------------------------------------
  // The array operations, as functions of the array contents
  // ---------------------------------------------------------------------------------------

  function Parent(i: nat): nat
    requires i > 0
  {
    (i - 1) / 2
  }

  function Swap(v: seq<Event>, i: nat, j: nat): (w: seq<Event>)
    requires i < |v| && j < |v|
    ensures |w| == |v|
  {
    v[i := v[j]][j := v[i]]
  }

  function SiftUp(v: seq<Event>, i: nat): (w: seq<Event>)
    requires i < |v|
    ensures |w| == |v|
    decreases i
  {
    if i > 0 && Less(v[i], v[Parent(i)]) then SiftUp(Swap(v, i, Parent(i)), Parent(i)) else v
  }

  /** The child of `i` that the sift compares with: the right one only if it is less. */
  function LeastChild(v: seq<Event>, i: nat): (child: nat)
    requires 2 * i + 1 < |v|
    ensures child < |v| && (child == 2 * i + 1 || child == 2 * i + 2)
  {
    if 2 * i + 2 < |v| && Less(v[2 * i + 2], v[2 * i + 1]) then 2 * i + 2 else 2 * i + 1
  }

  function SiftDown(v: seq<Event>, i: nat): (w: seq<Event>)
    requires i < |v|
    ensures |w| == |v|
    decreases |v| - i
  {
    if 2 * i + 1 < |v| && Less(v[LeastChild(v, i)], v[i]) then
      SiftDown(Swap(v, i, LeastChild(v, i)), LeastChild(v, i))
    else v
  }

  function Heapify(v: seq<Event>, parents: nat): (w: seq<Event>)
    requires parents <= |v|
    ensures |w| == |v|
    decreases parents
  {
    if parents == 0 then v else Heapify(SiftDown(v, parents - 1), parents - 1)
  }

  function Reordered(v: seq<Event>): (w: seq<Event>)
    ensures |w| == |v|
  {
    if |v| < 2 then v else Heapify(v, |v| / 2)
  }

  function Pushed(v: seq<Event>, event: Event): (w: seq<Event>)
    ensures |w| == |v| + 1
  {
    SiftUp(v + [event], |v|)
  }

  function Popped(v: seq<Event>): (w: seq<Event>)
    requires v != []
    ensures |w| == |v| - 1
  {
    if |v| == 1 then [] else SiftDown(v[..|v| - 1][0 := v[|v| - 1]], 0)
  }

  // ---------------------------------------------------------------------------------------
  // No operation loses, repeats or changes an event
  // ---------------------------------------------------------------------------------------

  lemma SwapPermutes(v: seq<Event>, i: nat, j: nat)
    requires i < |v| && j < |v|
    ensures multiset(Swap(v, i, j)) == multiset(v)
  {
  }

  lemma {:induction false} SiftUpPermutes(v: seq<Event>, i: nat)
    requires i < |v|
    ensures multiset(SiftUp(v, i)) == multiset(v)
    decreases i
  {
    if i > 0 && Less(v[i], v[Parent(i)]) {
      SwapPermutes(v, i, Parent(i));
      SiftUpPermutes(Swap(v, i, Parent(i)), Parent(i));
    }
  }

  lemma {:induction false} SiftDownPermutes(v: seq<Event>, i: nat)
    requires i < |v|
    ensures multiset(SiftDown(v, i)) == multiset(v)
    decreases |v| - i
  {
    if 2 * i + 1 < |v| && Less(v[LeastChild(v, i)], v[i]) {
      SwapPermutes(v, i, LeastChild(v, i));
      SiftDownPermutes(Swap(v, i, LeastChild(v, i)), LeastChild(v, i));
    }
  }

  lemma {:induction false} HeapifyPermutes(v: seq<Event>, parents: nat)
    requires parents <= |v|
    ensures multiset(Heapify(v, parents)) == multiset(v)
    decreases parents
  {
    if parents > 0 {
      SiftDownPermutes(v, parents - 1);
      HeapifyPermutes(SiftDown(v, parents - 1), parents - 1);
    }
  }

  lemma PoppedKeepsEvents(v: seq<Event>)
    requires v != []
    ensures multiset(Popped(v)) == multiset(v) - multiset{v[0]}
  {
    hide SiftDown;
    var last := v[|v| - 1];
    assert v == v[..|v| - 1] + [last];
    if |v| > 1 {
      var rest := v[..|v| - 1];
      SiftDownPermutes(rest[0 := last], 0);
      assert rest == [v[0]] + rest[1..] && rest[0 := last] == [last] + rest[1..];
    }
  }

  lemma OperationsKeepEvents(v: seq<Event>, event: Event)
    ensures multiset(Reordered(v)) == multiset(v)
    ensures multiset(Pushed(v, event)) == multiset(v) + multiset{event}
    ensures v != [] ==> multiset(Popped(v)) == multiset(v) - multiset{v[0]}
  {
    hide Heapify, SiftUp, Popped;
    if |v| >= 2 {
      HeapifyPermutes(v, |v| / 2);
    }
    SiftUpPermutes(v + [event], |v|);
    if v != [] {
      PoppedKeepsEvents(v);
    }
  }

  // ---------------------------------------------------------------------------------------
  // What the heap order guarantees
  // ---------------------------------------------------------------------------------------

  /**
  The order the heap is kept in: unpaused before paused, then by cycle and, when `full`, by
  sequence number. `Less` refines it, in the `full` case unless two DMA sources are compared.
  */
  predicate AtMost(full: bool, a: Event, b: Event) {
    if a.paused != b.paused then !a.paused
    else if a.cycle != b.cycle then a.cycle < b.cycle
    else full ==> a.sequence <= b.sequence
  }

  ghost predicate Comparable(full: bool, v: seq<Event>) {
    full ==> forall e, f :: e in v && f in v && e.eventType.Dma? && f.eventType.Dma? ==> e.source == f.source
  }

  /** Every parent from `first` on is at most its children. */
  ghost predicate HeapFrom(full: bool, v: seq<Event>, first: nat) {
    forall i :: 0 < i < |v| && Parent(i) >= first ==> AtMost(full, v[Parent(i)], v[i])
  }

  ghost predicate Heap(full: bool, v: seq<Event>) {
    HeapFrom(full, v, 0)
  }

  /** A heap but for the edge above `i`. */
  ghost predicate HeapButUp(full: bool, v: seq<Event>, i: nat) {
    && (forall j :: 0 < j < |v| && j != i ==> AtMost(full, v[Parent(j)], v[j]))
    && (forall j :: 0 < i < |v| && 0 < j < |v| && Parent(j) == i ==> AtMost(full, v[Parent(i)], v[j]))
  }

  /** A heap from `first` on but for the edges below `i`. */
  ghost predicate HeapButDown(full: bool, v: seq<Event>, first: nat, i: nat) {
    && (forall j :: 0 < j < |v| && Parent(j) >= first && Parent(j) != i ==> AtMost(full, v[Parent(j)], v[j]))
    && (forall j :: first < i < |v| && Parent(i) >= first && 0 < j < |v| && Parent(j) == i
                    ==> AtMost(full, v[Parent(i)], v[j]))
  }

  lemma ComparableFollowsContents(full: bool, v: seq<Event>, w: seq<Event>)
    requires Comparable(full, v) && multiset(w) <= multiset(v)
    ensures Comparable(full, w)
  {
    forall e | e in w ensures e in v {
      assert e in multiset(w);
    }
  }

  lemma LessFollowsOrder(full: bool, v: seq<Event>, i: nat, j: nat)
    requires i < |v| && j < |v| && Comparable(full, v)
    ensures if Less(v[i], v[j]) then AtMost(full, v[i], v[j]) else AtMost(full, v[j], v[i])
  {
  }

  lemma AtMostIsTransitive(full: bool, a: Event, b: Event, c: Event)
    ensures AtMost(full, a, b) && AtMost(full, b, c) ==> AtMost(full, a, c)
  {
  }

  lemma SiftUpStep(full: bool, v: seq<Event>, i: nat)
    requires 0 < i < |v| && HeapButUp(full, v, i) && Comparable(full, v)
    requires Less(v[i], v[Parent(i)])
    ensures HeapButUp(full, Swap(v, i, Parent(i)), Parent(i))
  {
    hide AtMost, Less;
    var p := Parent(i);
    var w := Swap(v, i, p);
    LessFollowsOrder(full, v, i, p);
    forall j | 0 < j < |w| && j != p ensures AtMost(full, w[Parent(j)], w[j]) {
      if Parent(j) == p && j != i {
        AtMostIsTransitive(full, v[i], v[p], v[j]);
      }
    }
    forall j | 0 < p < |w| && 0 < j < |w| && Parent(j) == p ensures AtMost(full, w[Parent(p)], w[j]) {
      if j != i {
        AtMostIsTransitive(full, v[Parent(p)], v[p], v[j]);
      }
    }
  }

  lemma {:induction false} SiftUpRestoresHeap(full: bool, v: seq<Event>, i: nat)
    requires i < |v| && HeapButUp(full, v, i) && Comparable(full, v)
    ensures Heap(full, SiftUp(v, i))
    decreases i
  {
    hide AtMost, Less;
    if i > 0 {
      LessFollowsOrder(full, v, i, Parent(i));
      if Less(v[i], v[Parent(i)]) {
        var w := Swap(v, i, Parent(i));
        SwapPermutes(v, i, Parent(i));
        ComparableFollowsContents(full, v, w);
        SiftUpStep(full, v, i);
        SiftUpRestoresHeap(full, w, Parent(i));
      }
    }
  }

  /** The least child is at most both children. */
  lemma LeastChildIsLeast(full: bool, v: seq<Event>, i: nat, j: nat)
    requires 2 * i + 1 < |v| && 0 < j < |v| && Parent(j) == i && Comparable(full, v)
    ensures AtMost(full, v[LeastChild(v, i)], v[j])
  {
    assert j == 2 * i + 1 || j == 2 * i + 2;
    if 2 * i + 2 < |v| {
      LessFollowsOrder(full, v, 2 * i + 2, 2 * i + 1);
    }
  }

  lemma SiftDownStep(full: bool, v: seq<Event>, first: nat, i: nat)
    requires first <= i && 2 * i + 1 < |v| && HeapButDown(full, v, first, i) && Comparable(full, v)
    requires Less(v[LeastChild(v, i)], v[i])
    ensures HeapButDown(full, Swap(v, i, LeastChild(v, i)), first, LeastChild(v, i))
  {
    hide AtMost, Less;
    var child := LeastChild(v, i);
    var w := Swap(v, i, child);
    LessFollowsOrder(full, v, child, i);
    forall j | 0 < j < |w| && Parent(j) >= first && Parent(j) != child
      ensures AtMost(full, w[Parent(j)], w[j])
    {
      if Parent(j) == i {
        LeastChildIsLeast(full, v, i, j);
      }
    }
  }

  lemma {:induction false} SiftDownRestoresHeap(full: bool, v: seq<Event>, first: nat, i: nat)
    requires first <= i < |v| && HeapButDown(full, v, first, i) && Comparable(full, v)
    ensures HeapFrom(full, SiftDown(v, i), first)
    decreases |v| - i
  {
    hide AtMost, Less;
    if 2 * i + 1 < |v| {
      var child := LeastChild(v, i);
      if Less(v[child], v[i]) {
        SwapPermutes(v, i, child);
        ComparableFollowsContents(full, v, Swap(v, i, child));
        SiftDownStep(full, v, first, i);
        SiftDownRestoresHeap(full, Swap(v, i, child), first, child);
      } else {
        forall j | 0 < j < |v| && Parent(j) == i ensures AtMost(full, v[i], v[j]) {
          LeastChildIsLeast(full, v, i, j);
          LessFollowsOrder(full, v, child, i);
          AtMostIsTransitive(full, v[i], v[child], v[j]);
        }
      }
    }
  }

  lemma {:induction false} HeapifyMakesHeap(full: bool, v: seq<Event>, parents: nat)
    requires parents <= |v| && HeapFrom(full, v, parents) && Comparable(full, v)
    ensures Heap(full, Heapify(v, parents))
    decreases parents
  {
    hide AtMost, SiftDown;
    if parents > 0 {
      SiftDownRestoresHeap(full, v, parents - 1, parents - 1);
      SiftDownPermutes(v, parents - 1);
      ComparableFollowsContents(full, v, SiftDown(v, parents - 1));
      HeapifyMakesHeap(full, SiftDown(v, parents - 1), parents - 1);
    }
  }

  /** Every operation leaves a heap, in the full order as long as the DMA events queued have one source. */
  lemma OperationsKeepHeap(full: bool, v: seq<Event>, event: Event)
    ensures Comparable(full, v) ==> Heap(full, Reordered(v))
    ensures Heap(full, v) && Comparable(full, v + [event]) ==> Heap(full, Pushed(v, event))
    ensures v != [] && Heap(full, v) && Comparable(full, v) ==> Heap(full, Popped(v))
  {
    hide AtMost, Less, SiftUp, SiftDown, Heapify;
    if Comparable(full, v) && |v| >= 2 {
      HeapifyMakesHeap(full, v, |v| / 2);
    }
    if Heap(full, v) && Comparable(full, v + [event]) {
      SiftUpRestoresHeap(full, v + [event], |v|);
    }
    if |v| > 1 && Heap(full, v) && Comparable(full, v) {
      PoppedIsHeap(full, v);
    }
  }

  lemma PoppedIsHeap(full: bool, v: seq<Event>)
    requires |v| > 1 && Heap(full, v) && Comparable(full, v)
    ensures Heap(full, Popped(v))
  {
    hide AtMost, Less, SiftDown;
    var w := v[..|v| - 1][0 := v[|v| - 1]];
    assert HeapButDown(full, w, 0, 0);
    SiftDownRestoresHeap(full, w, 0, 0);
  }

  lemma {:induction false} HeadIsLeast(full: bool, v: seq<Event>, i: nat)
    requires Heap(full, v) && i < |v|
    ensures AtMost(full, v[0], v[i])
  {
    if i > 0 {
      HeadIsLeast(full, v, Parent(i));
    }
  }

  /** Where a DMA source stands: completions before requests, and lower channels first. */
  function Rank(source: nat): nat {
    if source >= DMA_COUNT then source % DMA_COUNT else DMA_COUNT + source
  }

  /** Two DMA events of one cycle whose priorities are not in the order of their scheduling. */
  predicate Contending(a: Event, b: Event) {
    && a.eventType.Dma? && b.eventType.Dma? && a.paused == b.paused && a.cycle == b.cycle
    && a.source != b.source && (Rank(a.source) < Rank(b.source)) != (a.sequence < b.sequence)
  }

  /** `Less` is the strict order of (paused, cycle, sequence) exactly for the pairs that do not contend. */
  lemma LessIsFifo(a: Event, b: Event)
    ensures (Less(a, b) <==> !AtMost(true, b, a)) <==> !Contending(a, b)
  {
  }

  /** Any two sources make `Less` go round in a circle, so it is not an order at all. */
  lemma LessIsCircular(cycle: nat, first: nat, second: nat)
    requires Rank(first) < Rank(second)
    ensures var a := Scheduled(cycle, 3, Dma, first);
            var b := Scheduled(cycle, 1, Dma, second);
            var c := Scheduled(cycle, 2, Pmp, 0);
            Less(a, b) && Less(b, c) && Less(c, a)
  {
  }

  function Scheduled(cycle: nat, sequence: nat, eventType: EventType, source: nat): Event {
    Event(cycle, sequence, 0, 0, source, eventType, false)
  }

  lemma SiftUpStays(v: seq<Event>, i: nat)
    requires i < |v| && (i > 0 ==> !Less(v[i], v[Parent(i)]))
    ensures SiftUp(v, i) == v
  {
  }

  lemma SiftUpRises(v: seq<Event>, i: nat, w: seq<Event>)
    requires 0 < i < |v| && Less(v[i], v[Parent(i)]) && w == Swap(v, i, Parent(i))
    ensures SiftUp(v, i) == SiftUp(w, Parent(i))
  {
  }

  lemma SiftDownFalls(v: seq<Event>, i: nat, w: seq<Event>)
    requires 2 * i + 1 < |v| && Less(v[LeastChild(v, i)], v[i]) && w == Swap(v, i, LeastChild(v, i))
    ensures SiftDown(v, i) == SiftDown(w, LeastChild(v, i))
  {
  }

  // ---------------------------------------------------------------------------------------
  // Pausing and resuming a class of events
  // ---------------------------------------------------------------------------------------

  const CYCLE_RANGE: nat := 0x1_0000_0000_0000_0000

  /** The 64-bit difference, which wraps when the event is already in the past. */
  function PauseEvent(now: nat, e: Event): Event {
    e.(pausedRemaining := (e.cycle - now) % CYCLE_RANGE, paused := true)
  }

  predicate CanResume(now: nat, e: Event) {
    e.pausedRemaining + now < CYCLE_RANGE
  }

  function ResumeEvent(now: nat, e: Event): Event {
    e.(cycle := now + e.pausedRemaining, pausedRemaining := 0, paused := false)
  }

  predicate Pauses(selects: Event -> bool, e: Event) {
    selects(e) && !e.paused
  }

  predicate Resumes(selects: Event -> bool, now: nat, e: Event) {
    selects(e) && e.paused && CanResume(now, e)
  }

  function PausedEvents(selects: Event -> bool, now: nat, v: seq<Event>): (w: seq<Event>)
    ensures |w| == |v|
  {
    seq(|v|, i requires 0 <= i < |v| => if Pauses(selects, v[i]) then PauseEvent(now, v[i]) else v[i])
  }

  function ResumedEvents(selects: Event -> bool, now: nat, v: seq<Event>): (w: seq<Event>)
    ensures |w| == |v|
  {
    seq(|v|, i requires 0 <= i < |v| => if Resumes(selects, now, v[i]) then ResumeEvent(now, v[i]) else v[i])
  }

  function Retained(drop: Event -> bool, v: seq<Event>, n: nat): (w: seq<Event>)
    requires n <= |v|
    ensures |w| <= n
  {
    if n == 0 then [] else Retained(drop, v, n - 1) + if drop(v[n - 1]) then [] else [v[n - 1]]
  }

  /** Discarding keeps exactly the events that are not dropped. */
  lemma {:induction false} RetainedMembers(drop: Event -> bool, v: seq<Event>, n: nat)
    requires n <= |v|
    ensures forall e :: e in Retained(drop, v, n) <==> e in v[..n] && !drop(e)
  {
    if n > 0 {
      assert v[..n] == v[..n - 1] + [v[n - 1]];
      RetainedMembers(drop, v, n - 1);
    }
  }

  /** What pausing leaves in the queue: nothing is reordered when no event matched. */
  function Paused(selects: Event -> bool, now: nat, v: seq<Event>): seq<Event> {
    if exists i :: 0 <= i < |v| && Pauses(selects, v[i]) then Reordered(PausedEvents(selects, now, v)) else v
  }

  function Resumed(selects: Event -> bool, now: nat, v: seq<Event>): seq<Event> {
    if exists i :: 0 <= i < |v| && Resumes(selects, now, v[i]) then Reordered(ResumedEvents(selects, now, v)) else v
  }

  /** Events paused together and resumed together are all delayed by the length of the pause. */
  lemma PauseShiftsCycle(paused: nat, resumed: nat, e: Event)
    requires !e.paused && paused <= e.cycle && paused <= resumed
    requires CanResume(resumed, PauseEvent(paused, e)) && e.cycle < CYCLE_RANGE
    ensures ResumeEvent(resumed, PauseEvent(paused, e))
         == e.(cycle := e.cycle + (resumed - paused), pausedRemaining := 0)
  {
  }

  /** So they keep their relative order, while paused and afterwards. */
  lemma PauseKeepsOrder(paused: nat, resumed: nat, a: Event, b: Event)
    requires !a.paused && paused <= a.cycle < CYCLE_RANGE && CanResume(resumed, PauseEvent(paused, a))
    requires !b.paused && paused <= b.cycle < CYCLE_RANGE && CanResume(resumed, PauseEvent(paused, b))
    requires paused <= resumed
    ensures Less(PauseEvent(paused, a), PauseEvent(paused, b)) == Less(a, b)
    ensures Less(ResumeEvent(resumed, PauseEvent(paused, a)), ResumeEvent(resumed, PauseEvent(paused, b)))
         == Less(a, b)
  {
    PauseShiftsCycle(paused, resumed, a);
    PauseShiftsCycle(paused, resumed, b);
  }

  // ---------------------------------------------------------------------------------------
  // Whole runs
  // ---------------------------------------------------------------------------------------

  datatype Queue = Queue(events: seq<Event>, sequence: nat)

  datatype QueueAct =
    | Add(eventType: EventType, source: nat, cycle: nat)
    | Take
    | PauseSome(selects: Event -> bool, now: nat)
    | ResumeSome(selects: Event -> bool, now: nat)
    | DropSome(drop: Event -> bool)

  function Change(q: Queue, act: QueueAct): Queue {
    match act
    case Add(eventType, source, cycle) =>
      Queue(Pushed(q.events, Scheduled(cycle, q.sequence, eventType, source)), q.sequence + 1)
    case Take => if q.events == [] then q else q.(events := Popped(q.events))
    case PauseSome(selects, now) => q.(events := Paused(selects, now, q.events))
    case ResumeSome(selects, now) => q.(events := Resumed(selects, now, q.events))
    case DropSome(drop) => q.(events := Reordered(Retained(drop, q.events, |q.events|)))
  }

  function ChangeAll(q: Queue, acts: seq<QueueAct>): Queue
    decreases |acts|
  {
    if acts == [] then q else ChangeAll(Change(q, acts[0]), acts[1..])
  }

  /** Every DMA event scheduled has one of these sources. */
  ghost predicate Uses(sources: set<nat>, acts: seq<QueueAct>) {
    forall act :: act in acts && act.Add? && act.eventType.Dma? ==> act.source in sources
  }

  ghost predicate DmaWithin(sources: set<nat>, v: seq<Event>) {
    forall e :: e in v && e.eventType.Dma? ==> e.source in sources
  }

  /** The head does not overtake an event of its cycle that was scheduled earlier, DMA events aside. */
  ghost predicate HeadInTurn(v: seq<Event>) {
    forall e :: e in v && !e.eventType.Dma? && !v[0].eventType.Dma? && e.paused == v[0].paused && e.cycle == v[0].cycle
                ==> v[0].sequence <= e.sequence
  }

  lemma AtMostOne(sources: set<nat>, a: nat, b: nat)
    requires |sources| <= 1 && a in sources && b in sources
    ensures a == b
  {
    assert sources - {a} == {} by {
      assert |sources - {a}| == |sources| - 1;
    }
    assert b !in sources - {a};
  }

  lemma FewSourcesCompare(sources: set<nat>, v: seq<Event>)
    requires DmaWithin(sources, v)
    ensures Comparable(|sources| <= 1, v)
  {
    if |sources| <= 1 {
      forall e, f | e in v && f in v && e.eventType.Dma? && f.eventType.Dma? ensures e.source == f.source {
        AtMostOne(sources, e.source, f.source);
      }
    }
  }

  /** A heap of events whose DMA sources are these, in the full order if there is at most one. */
  ghost predicate Ordered(sources: set<nat>, v: seq<Event>) {
    DmaWithin(sources, v) && Heap(false, v) && Heap(|sources| <= 1, v)
  }

  lemma ReorderedIsOrdered(sources: set<nat>, v: seq<Event>)
    requires DmaWithin(sources, v)
    ensures Ordered(sources, Reordered(v))
  {
    hide Reordered, Heap;
    var none := Scheduled(0, 0, Dma, 0);
    FewSourcesCompare(sources, v);
    OperationsKeepHeap(false, v, none);
    OperationsKeepHeap(|sources| <= 1, v, none);
    OperationsKeepEvents(v, none);
    SameMembers(v, Reordered(v));
  }

  lemma PushedIsOrdered(sources: set<nat>, v: seq<Event>, event: Event)
    requires Ordered(sources, v) && (event.eventType.Dma? ==> event.source in sources)
    ensures Ordered(sources, Pushed(v, event))
  {
    hide Pushed, Heap;
    FewSourcesCompare(sources, v + [event]);
    OperationsKeepHeap(false, v, event);
    OperationsKeepHeap(|sources| <= 1, v, event);
    OperationsKeepEvents(v, event);
    assert multiset(Pushed(v, event)) == multiset(v + [event]);
    SameMembers(v + [event], Pushed(v, event));
  }

  lemma PoppedIsOrdered(sources: set<nat>, v: seq<Event>)
    requires Ordered(sources, v) && v != []
    ensures Ordered(sources, Popped(v))
  {
    hide Popped, Heap;
    FewSourcesCompare(sources, v);
    OperationsKeepHeap(false, v, v[0]);
    OperationsKeepHeap(|sources| <= 1, v, v[0]);
    OperationsKeepEvents(v, v[0]);
    assert v == [v[0]] + v[1..];
    assert multiset(Popped(v)) == multiset(v[1..]);
    SameMembers(v[1..], Popped(v));
  }

  lemma SameMembers(v: seq<Event>, w: seq<Event>)
    requires multiset(v) == multiset(w)
    ensures forall e :: e in v <==> e in w
  {
    forall e ensures e in v <==> e in w {
      assert e in multiset(v) <==> e in multiset(w);
    }
  }

  lemma ReplacedIsWithin(sources: set<nat>, v: seq<Event>, w: seq<Event>)
    requires DmaWithin(sources, v) && |v| == |w|
    requires forall i :: 0 <= i < |v| ==> w[i].eventType == v[i].eventType && w[i].source == v[i].source
    ensures DmaWithin(sources, w)
  {
    forall e | e in w && e.eventType.Dma? ensures e.source in sources {
      var i :| 0 <= i < |w| && w[i] == e;
      assert v[i] in v;
    }
  }

  lemma ChangeKeepsOrdered(sources: set<nat>, q: Queue, act: QueueAct)
    requires Ordered(sources, q.events) && Uses(sources, [act])
    ensures Ordered(sources, Change(q, act).events)
  {
    hide Pushed, Popped, Reordered, Heap;
    match act
    case Add(eventType, source, cycle) =>
      assert act in [act];
      PushedIsOrdered(sources, q.events, Scheduled(cycle, q.sequence, eventType, source));
    case Take =>
      if q.events != [] {
        PoppedIsOrdered(sources, q.events);
      }
    case PauseSome(selects, now) =>
      ReplacedIsWithin(sources, q.events, PausedEvents(selects, now, q.events));
      ReorderedIsOrdered(sources, PausedEvents(selects, now, q.events));
    case ResumeSome(selects, now) =>
      ReplacedIsWithin(sources, q.events, ResumedEvents(selects, now, q.events));
      ReorderedIsOrdered(sources, ResumedEvents(selects, now, q.events));
    case DropSome(drop) =>
      RetainedMembers(drop, q.events, |q.events|);
      ReorderedIsOrdered(sources, Retained(drop, q.events, |q.events|));
  }

  lemma {:induction false} RunKeepsOrdered(sources: set<nat>, q: Queue, acts: seq<QueueAct>)
    requires Ordered(sources, q.events) && Uses(sources, acts)
    ensures Ordered(sources, ChangeAll(q, acts).events)
    decreases |acts|
  {
    hide Ordered, Change;
    if acts != [] {
      ChangeKeepsOrdered(sources, q, acts[0]);
      RunKeepsOrdered(sources, Change(q, acts[0]), acts[1..]);
    }
  }

  lemma OrderedHeadInTurn(sources: set<nat>, v: seq<Event>)
    requires Ordered(sources, v) && |sources| <= 1
    ensures HeadInTurn(v)
  {
    hide Heap;
    forall e | e in v ensures AtMost(true, v[0], e) {
      var i :| 0 <= i < |v| && v[i] == e;
      HeadIsLeast(true, v, i);
    }
  }

  // Two DMA sources are enough for an event that is no DMA event to overtake another one.

  /** Eight events, numbered in the order they are scheduled; two of them are DMA events. */
  function E(low: nat, high: nat, n: nat): Event {
    Scheduled(if n < 8 then [1, 2, 3, 3, 2, 2, 3, 2][n] else 4, n, if n == 1 || n == 7 then Dma else Pmp,
              if n == 1 then high else if n == 7 then low else 0)
  }

  function AddOf(e: Event): QueueAct {
    Add(e.eventType, e.source, e.cycle)
  }

  function Adds(low: nat, high: nat): seq<QueueAct> {
    seq(8, n requires 0 <= n < 8 => AddOf(E(low, high, n)))
  }

  lemma AddStays(v: seq<Event>, e: Event, w: seq<Event>)
    requires w == v + [e] && (v != [] ==> !Less(e, w[Parent(|v|)]))
    ensures Pushed(v, e) == w
  {
  }

  lemma {:induction false} AddsInOrder(acts: seq<QueueAct>, states: seq<Queue>)
    requires |states| == |acts| + 1
    requires forall i :: 0 <= i < |acts| ==> Change(states[i], acts[i]) == states[i + 1]
    ensures ChangeAll(states[0], acts) == states[|acts|]
    decreases |acts|
  {
    hide Change;
    if acts != [] {
      AddsInOrder(acts[1..], states[1..]);
    }
  }

  lemma EarlyAdds(low: nat, high: nat)
    ensures var e := (n: nat) => E(low, high, n);
            && Pushed([], e(0)) == [e(0)]
            && Pushed([e(0)], e(1)) == [e(0), e(1)]
            && Pushed([e(0), e(1)], e(2)) == [e(0), e(1), e(2)]
            && Pushed([e(0), e(1), e(2)], e(3)) == [e(0), e(1), e(2), e(3)]
            && Pushed([e(0), e(1), e(2), e(3)], e(4)) == [e(0), e(1), e(2), e(3), e(4)]
  {
    hide Pushed;
    var e := (n: nat) => E(low, high, n);
    AddStays([], e(0), [e(0)]);
    AddStays([e(0)], e(1), [e(0), e(1)]);
    AddStays([e(0), e(1)], e(2), [e(0), e(1), e(2)]);
    AddStays([e(0), e(1), e(2)], e(3), [e(0), e(1), e(2), e(3)]);
    AddStays([e(0), e(1), e(2), e(3)], e(4), [e(0), e(1), e(2), e(3), e(4)]);
  }

  lemma LateAdds(low: nat, high: nat)
    requires Rank(low) < Rank(high)
    ensures var e := (n: nat) => E(low, high, n);
            && Pushed([e(0), e(1), e(2), e(3), e(4)], e(5)) == [e(0), e(1), e(5), e(3), e(4), e(2)]
            && Pushed([e(0), e(1), e(5), e(3), e(4), e(2)], e(6)) == [e(0), e(1), e(5), e(3), e(4), e(2), e(6)]
            && Pushed([e(0), e(1), e(5), e(3), e(4), e(2), e(6)], e(7)) == [e(0), e(7), e(5), e(1), e(4), e(2), e(6), e(3)]
  {
    hide SiftUp;
    var e := (n: nat) => E(low, high, n);
    var v6 := [e(0), e(1), e(5), e(3), e(4), e(2)];
    SiftUpRises([e(0), e(1), e(2), e(3), e(4)] + [e(5)], 5, v6);
    SiftUpStays(v6, 2);
    var v7 := [e(0), e(1), e(5), e(3), e(4), e(2), e(6)];
    AddStays(v6, e(6), v7);
    var v8 := [e(0), e(7), e(5), e(1), e(4), e(2), e(6), e(3)];
    var w := [e(0), e(1), e(5), e(7), e(4), e(2), e(6), e(3)];
    SiftUpRises(v7 + [e(7)], 7, w);
    SiftUpRises(w, 3, v8);
    SiftUpStays(v8, 1);
  }

  lemma SchedulingContenders(low: nat, high: nat)
    requires Rank(low) < Rank(high)
    ensures var e := (n: nat) => E(low, high, n);
            ChangeAll(Queue([], 0), Adds(low, high)) == Queue([e(0), e(7), e(5), e(1), e(4), e(2), e(6), e(3)], 8)
  {
    hide Pushed, Rank;
    EarlyAdds(low, high);
    LateAdds(low, high);
    var e := (n: nat) => E(low, high, n);
    var acts := Adds(low, high);
    var states := [Queue([], 0), Queue([e(0)], 1), Queue([e(0), e(1)], 2), Queue([e(0), e(1), e(2)], 3),
                   Queue([e(0), e(1), e(2), e(3)], 4), Queue([e(0), e(1), e(2), e(3), e(4)], 5),
                   Queue([e(0), e(1), e(5), e(3), e(4), e(2)], 6), Queue([e(0), e(1), e(5), e(3), e(4), e(2), e(6)], 7),
                   Queue([e(0), e(7), e(5), e(1), e(4), e(2), e(6), e(3)], 8)];
    forall n: nat | n < 8 ensures Change(states[n], acts[n]) == Queue(Pushed(states[n].events, e(n)), n + 1) {
      AddingE(low, high, n, states[n]);
    }
    hide Change, E;
    AddsInOrder(acts, states);
  }

  lemma AddingE(low: nat, high: nat, n: nat, q: Queue)
    requires n < 8 && q.sequence == n
    ensures Change(q, AddOf(E(low, high, n))) == Queue(Pushed(q.events, E(low, high, n)), n + 1)
  {
    hide Pushed;
  }

  /**
  Eight events are scheduled and one is taken: the head is then an event that was scheduled after
  another one of the same cycle, and neither of the two is a DMA event.
  */
  lemma LaterEventOvertakes(low: nat, high: nat)
    requires Rank(low) < Rank(high)
    ensures !HeadInTurn(ChangeAll(Queue([], 0), Adds(low, high) + [Take]).events)
  {
    hide SiftDown;
    var e := (n: nat) => E(low, high, n);
    SchedulingContenders(low, high);
    var v := [e(0), e(7), e(5), e(1), e(4), e(2), e(6), e(3)];
    var w := [e(3), e(7), e(5), e(1), e(4), e(2), e(6)];
    assert v[..7][0 := v[7]] == w;
    var x := [e(5), e(7), e(3), e(1), e(4), e(2), e(6)];
    SiftDownFalls(w, 0, x);
    var y := [e(5), e(7), e(2), e(1), e(4), e(3), e(6)];
    SiftDownFalls(x, 2, y);
    SiftDownStays(y, 5);
    assert Popped(v) == y;
    ChangesAppend(Queue([], 0), Adds(low, high), Take);
    assert y[4] in y;
  }

  lemma SiftDownStays(v: seq<Event>, i: nat)
    requires i < |v| <= 2 * i + 1
    ensures SiftDown(v, i) == v
  {
  }

  lemma {:induction false} ChangesAppend(q: Queue, acts: seq<QueueAct>, act: QueueAct)
    ensures ChangeAll(q, acts + [act]) == Change(ChangeAll(q, acts), act)
    decreases |acts|
  {
    hide Change;
    if acts == [] {
      assert ([act])[1..] == [];
      assert ChangeAll(Change(q, act), []) == Change(q, act);
    } else {
      assert (acts + [act])[1..] == acts[1..] + [act];
      ChangesAppend(Change(q, acts[0]), acts[1..], act);
    }
  }

  lemma RanksDiffer(a: nat, b: nat)
    requires a < b < 2 * DMA_COUNT
    ensures Rank(a) != Rank(b)
  {
  }

  lemma TwoSources(sources: set<nat>) returns (low: nat, high: nat)
    requires |sources| > 1 && forall source :: source in sources ==> source < 2 * DMA_COUNT
    ensures low in sources && high in sources && Rank(low) < Rank(high)
  {
    var a :| a in sources;
    assert |sources - {a}| == |sources| - 1;
    var b :| b in sources - {a};
    if a < b {
      RanksDiffer(a, b);
    } else {
      RanksDiffer(b, a);
    }
    low, high := if Rank(a) < Rank(b) then a else b, if Rank(a) < Rank(b) then b else a;
  }

  /**
  In every run, DMA events aside, the queue hands out the events of one cycle in the order of their
  scheduling if and only if at most one DMA source is in use.
  */
  lemma OrderKeptExactly(sources: set<nat>)
    requires forall source :: source in sources ==> source < 2 * DMA_COUNT
    ensures (forall acts :: Uses(sources, acts) ==> HeadInTurn(ChangeAll(Queue([], 0), acts).events))
       <==> |sources| <= 1
  {
    hide ChangeAll, HeadInTurn, Rank;
    if |sources| <= 1 {
      forall acts | Uses(sources, acts) ensures HeadInTurn(ChangeAll(Queue([], 0), acts).events) {
        RunKeepsOrdered(sources, Queue([], 0), acts);
        OrderedHeadInTurn(sources, ChangeAll(Queue([], 0), acts).events);
      }
    } else {
      var low, high := TwoSources(sources);
      LaterEventOvertakes(low, high);
      assert Uses(sources, Adds(low, high) + [Take]);
    }
  }

  // ---------------------------------------------------------------------------------------
  // The array
  // ---------------------------------------------------------------------------------------

  /** One turn of sinking, or the end of it. */
  lemma SiftDownTurns(v: seq<Event>, i: nat)
    requires i < |v|
    ensures SiftDown(v, i)
         == if 2 * i + 1 < |v| && Less(v[LeastChild(v, i)], v[i])
            then SiftDown(Swap(v, i, LeastChild(v, i)), LeastChild(v, i)) else v
  {
    hide Less;
  }

  class EventHeap {
    var items: seq<Event>
    var sequence: nat

    constructor ()
      ensures items == [] && sequence == 0
    {
      items, sequence := [], 0;
    }

    method Schedule(now: nat, eventType: EventType, source: nat, value: nat, delay: nat) returns (scheduled: bool)
      modifies this
      ensures scheduled == (now + delay < CYCLE_RANGE)
      ensures scheduled ==> sequence == old(sequence) + 1
                            && items == Pushed(old(items), Event(now + delay, old(sequence), 0, value, source, eventType, false))
      ensures !scheduled ==> unchanged(this)
    {
      if now + delay >= CYCLE_RANGE {
        return false;
      }
      var event := Event(now + delay, sequence, 0, value, source, eventType, false);
      sequence := sequence + 1;
      var index := |items|;
      items := items + [event];
      assert items[index := event] == items;
      while index != 0
        invariant 0 <= index < |items| && sequence == old(sequence) + 1
        invariant SiftUp(items[index := event], index) == Pushed(old(items), event)
      {
        var parent := Parent(index);
        if !Less(event, items[parent]) {
          break;
        }
        assert Swap(items[index := event], index, parent) == items[index := items[parent]][parent := event];
        items := items[index := items[parent]];
        index := parent;
      }
      items := items[index := event];
      return true;
    }

    /** Sinks `event` from the hole at `start`. */
    method Sink(start: nat, event: Event)
      requires start < |items|
      modifies this`items
      ensures items == SiftDown(old(items)[start := event], start)
    {
      hide Less, SiftDown;
      var index := start;
      while 2 * index + 1 < |items|
        invariant 0 <= index < |items|
        invariant SiftDown(items[index := event], index) == SiftDown(old(items)[start := event], start)
        decreases |items| - index
      {
        var child := 2 * index + 1;
        if child + 1 < |items| && Less(items[child + 1], items[child]) {
          child := child + 1;
        }
        assert child == LeastChild(items[index := event], index);
        if !Less(items[child], event) {
          break;
        }
        SiftDownTurns(items[index := event], index);
        assert Swap(items[index := event], index, child) == items[index := items[child]][child := event];
        items := items[index := items[child]];
        index := child;
      }
      SiftDownTurns(items[index := event], index);
      items := items[index := event];
    }

    method Reorder()
      modifies this`items
      ensures items == Reordered(old(items))
    {
      if |items| < 2 {
        return;
      }
      var parent := |items| / 2;
      while parent != 0
        invariant 0 <= parent <= |items|
        invariant Heapify(items, parent) == Reordered(old(items))
      {
        assert items[parent - 1 := items[parent - 1]] == items;
        Sink(parent - 1, items[parent - 1]);
        parent := parent - 1;
      }
    }

    method Pop() returns (first: Event)
      requires items != []
      modifies this`items
      ensures first == old(items)[0] && items == Popped(old(items))
    {
      first := items[0];
      var last := items[|items| - 1];
      items := items[..|items| - 1];
      if items != [] {
        Sink(0, last);
      }
    }

    method Pause(selects: Event -> bool, now: nat)
      modifies this`items
      ensures items == Paused(selects, now, old(items))
    {
      var changed := false;
      for index := 0 to |items|
        invariant |items| == |old(items)|
        invariant changed <==> exists i :: 0 <= i < index && Pauses(selects, old(items)[i])
        invariant forall i :: 0 <= i < index ==> items[i] == PausedEvents(selects, now, old(items))[i]
        invariant forall i :: index <= i < |items| ==> items[i] == old(items)[i]
      {
        if Pauses(selects, items[index]) {
          items := items[index := PauseEvent(now, items[index])];
          changed := true;
        }
      }
      if changed {
        assert items == PausedEvents(selects, now, old(items));
        Reorder();
      } else {
        assert items == old(items);
      }
    }

    method Resume(selects: Event -> bool, now: nat) returns (overflowed: bool)
      modifies this`items
      ensures items == Resumed(selects, now, old(items))
      ensures overflowed <==> exists i :: 0 <= i < |old(items)| && selects(old(items)[i]) && old(items)[i].paused
                                          && !CanResume(now, old(items)[i])
    {
      var changed := false;
      overflowed := false;
      for index := 0 to |items|
        invariant |items| == |old(items)|
        invariant changed <==> exists i :: 0 <= i < index && Resumes(selects, now, old(items)[i])
        invariant overflowed <==> exists i :: 0 <= i < index && selects(old(items)[i]) && old(items)[i].paused
                                              && !CanResume(now, old(items)[i])
        invariant forall i :: 0 <= i < index ==> items[i] == ResumedEvents(selects, now, old(items))[i]
        invariant forall i :: index <= i < |items| ==> items[i] == old(items)[i]
      {
        if selects(items[index]) && items[index].paused {
          if !CanResume(now, items[index]) {
            overflowed := true;
            continue;
          }
          items := items[index := ResumeEvent(now, items[index])];
          changed := true;
        }
      }
      if changed {
        assert items == ResumedEvents(selects, now, old(items));
        Reorder();
      } else {
        assert items == old(items);
      }
    }

    /** Compacts the array in place, then restores the heap. */
    method Discard(drop: Event -> bool)
      modifies this`items
      ensures items == Reordered(Retained(drop, old(items), |old(items)|))
    {
      hide Reordered;
      var retained := 0;
      for index := 0 to |items|
        invariant 0 <= retained <= index && |items| == |old(items)|
        invariant |Retained(drop, old(items), index)| == retained
        invariant forall i :: 0 <= i < retained ==> items[i] == Retained(drop, old(items), index)[i]
        invariant forall i :: index <= i < |items| ==> items[i] == old(items)[i]
      {
        if !drop(items[index]) {
          items := items[retained := items[index]];
          retained := retained + 1;
        }
      }
      items := items[..retained];
      assert items == Retained(drop, old(items), |old(items)|);
      Reorder();
    }
  }
}
