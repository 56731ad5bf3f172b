# Verification of the dsPIC33E simulator's stateful mechanisms

A Dafny model of the parts of the simulator that are fast or incremental forms of something simpler,
with proofs that they are. `dafny verify dfyconfig.toml` checks everything.

Each module holds the state of one mechanism as a value, its operations as functions, the theorems
about them as lemmas, and, where the simulator changes records in place, a class whose methods follow
the source's branches and loops and are proved equal to the functions.

| module | mechanism |
|---|---|
| InputCapture, InputCaptureClock, InputCaptureTriggers, InputCaptureCycle | sixteen linked timers, advanced in steps with a sync fixpoint between them; when that is one cycle at a time, which channels a call triggers, and what a cycle does |
| EventQueue | the event heap, its comparison, pausing and resuming |
| Timers, Qei, QeiSigned, Boundaries | counters advanced in closed form, and the boundaries they report to the event loop |
| Runtime, RuntimeAccounts | the loop that jumps from boundary to boundary up to the end of an instruction |
| Pmp, PmpQueue | overlapping two-stage parallel port transfers, and the port on the event heap |
| Pwm | time bases that turn spans of device time into stamped ticks |
| Crc, Gf2 | the CRC unit, and polynomials over the two-element field |
| Uart, UartReceive | a frame as a line level over time, and the sampling receiver |
| Dci, DciRuns | time slots that share a ring of buffers, and what runs of it show outside |
| CallStack, StackErrors | CALL, RETURN, LNK, ULNK, PUSH and POP in memory, and when they raise a stack error |
| DoLoop, LoopWrites, LoopSteps, LoopCode, LoopExact, LoopEdt | the DO stack with its register mirrors and byte writes, and REPEAT; what structured code runs, when that is what is written, and EDT |
| Arithmetic, Bcd | additions, comparisons, branches and decimal adjust, and chains of them |
| Accumulator | the 40-bit accumulators with saturation and sticky status |
| BitReverse | the reverse-carry address adder |
| Coverage, CoverageCounts | the incremental coverage totals, and the sets they are the sizes of |
| Division, Wrappers | facts about quotients and remainders, and the Option type, that several modules share |

Machine words are numbers with explicit wrap-around; where bits matter one by one (Crc, BitReverse)
a word is the set of the positions of its one bits. Masks over channels, buffers and slots are sets.
Registers and status bits that a mechanism does not read or write are not part of its state.

## What is false, and when it is true

- The input-capture clock is not one cycle at a time for every configuration. Exactly when it is, state
  by state, is `TwoCyclesAgreeExactly`, and two cycles decide all spans (`TwoCyclesDecide`). When the
  halves of pairs are linked alike it is so exactly if no ring of links can rise and fall on this clock
  and hold a channel that can run (`AgreesExactlyWithoutFallingRing`). A reset pending on a stopped
  channel or on half of a pair, and a half of a pair held alone, break it as well
  (`StalledResetDiffers`, `PairResetDiffers`, `HalfHeldDiffers`).
- The comparison of queued events is not transitive when two DMA sources are in use (`LessIsCircular`),
  so the heap can hand out an event before an earlier-scheduled one of the same cycle. Order by cycle
  holds always, first-in-first-out order exactly with at most one DMA source (`OrderKeptExactly`).
- For the same reason a parallel port transfer can be lost: with two DMA sources, the end of a bus phase
  may be delivered before the completion of the transfer ahead of it, whose slot is overwritten
  (`TransferIsLost`). With at most one DMA source no run loses one (`TransfersKeptExactly`).
  The request and the completion of a DMA channel are two sources, so one channel that transfers already
  uses two; the runs of both theorems schedule either at will.
- Loops do not always run as they are written. With its last instruction under REPEAT c, a loop serves the
  repetitions once, behind its last iteration: the instruction runs count + c + 1 times, which is what is
  written if and only if c or the count is zero (`RepeatedEnd`). Loops that share their last instruction
  do not nest when it is plain: the outer one stays on the stack with its whole count
  (`SharedEndKeepsOuterLoop`). k loops with one end under REPEAT c do what is written if and only if c is
  at least k - 1, all inner counts are zero, and the outermost is zero or c is k - 1
  (`SharedEndsExactly`); for all code together the condition is exact (`RunsAsWrittenExactly`).
- EDT set in the last two instructions of a DO loop takes effect one iteration later, and set there in
  every iteration it has no effect at all (`EdtEndsLoop`, `LateEdtNeverEndsLoop`).
- A clear SA bit alone does not say that accumulator A is exact when A is computed from B; with both
  bits clear and no CLR, or without such mixing, it does (`ClearStatusMeansExact`,
  `OwnStatusMeansExact`). Between raised statuses errors travel by a fixed linear map, so runs with
  mixing end exact under exact conditions (`QuietRunIsExactlyAsExact`, `ExactWhateverTheStart`).
- A PWM span may be cut anywhere without changing what each time base does. The order of ticks across
  the two time bases, and the blanking counters that ticks reload, do show the cuts, under exact
  conditions (`OrderShowsCutExactly`, `BlankingShowsCutExactly`). Which ticks are edges is given here;
  a chop source on the other time base, or protection gated by the blanking counter, can make the
  edges themselves depend on the cuts.
- A centre-aligned PWM counter with period one has a cycle of three ticks
  (`PeriodOneTakesThreeTicks`).

## Model

| member | source | states |
|---|---|---|
| Timers.AdvanceCounterIsTicks | src/device/dspic33ep_mu/timing/timers.c:68-98 | the closed form of an advance is that many single ticks: the same value and as many matches of the period, from any value, below, at or beyond the period |
| Timers.UntilPeriodIsFirstMatch | src/device/dspic33ep_mu/timing/timers.c:194-226 | the period is reached after exactly the ticks reported and not before |
| Timers.ClockSplits | src/device/dspic33ep_mu/timing/timers.c:229-292 | cutting a span of clocks leaves the same value and fraction and as many matches |
| Timers.BoundaryCycles | src/device/dspic33ep_mu/runtime.c:279-330 | the boundary reported is zero only for a limit of zero, no counting timer passes its period or the tick of an output compare channel within it, and it is the limit unless its last cycle brings a counting timer to such a tick |
| Timers.SignalsAreMatchesExactly | src/device/dspic33ep_mu/timing/timers.c:101-172 | one signal is given for an advance however many matches it has, and none with a period of zero; with a nonzero period a run signals every match if and only if no advance passes two |
| Timers.BoundedAdvancesSignal | src/device/dspic33ep_mu/runtime.c:279-330 | advances that keep to the boundaries signal every match of the period, each once |
| Timers.TimerUnit.ClockTimer | src/device/dspic33ep_mu/timing/timers.c:229-292 | the clocking loop, wherever other units cut it, is one advance |
| Timers.TimerUnit.AdvanceTicks | src/device/dspic33ep_mu/timing/timers.c:127-172 | the counter register of a timer after any number of ticks |
| Qei.PathHitsExactly | src/device/dspic33ep_mu/control/qei.c:210-238 | the path of a whole advance, up or down and round the ring, hits a range if and only if one of its single ticks does |
| Qei.AdvanceTicksIsPulses | src/device/dspic33ep_mu/control/qei.c:261-312 | in timer mode an advance by many ticks is that many single pulses: position, velocity, index and interval counters, direction and all four statuses |
| Qei.TransitionTicks | src/device/dspic33ep_mu/control/qei.c:496-528 | the compare output changes after exactly the ticks reported and not before, or never on the whole ring |
| Qei.BoundaryCycles | src/device/dspic33ep_mu/control/qei.c:530-570 | the boundary reported is zero only for a limit of zero, and no compare output changes and no filter samples before its end |
| Qei.CounterUnit.AdvanceTimerTicks | src/device/dspic33ep_mu/control/qei.c:261-312 | the counters of a channel, in place, after any number of ticks |
| Qei.CounterUnit.AccumulateTicks | src/device/dspic33ep_mu/control/qei.c:626-640 | dividing the clock without a sum that could overflow is the division of the sum |
| QeiSigned.PulsesExactly | src/device/dspic33ep_mu/control/qei.c:240-312 | after any number of pulses, each counter that is let through has moved by that number modulo its width, and each status is raised exactly if it was before or a pulse brought the signed position to the high register or above, to the low one or below, or across the sign |
| QeiSigned.OutputAlongPath | src/device/dspic33ep_mu/control/qei.c:484-494 | the compare output after any number of ticks, in signed numbers: from the high register up, up to the low one, between both, or never, by the mode |
| InputCapture.ClosureIsLeast | src/device/dspic33ep_mu/control/input_capture.c:339-359 | the inner refresh loop reaches the least set that contains the base-high channels and is closed under the sync links |
| InputCapture.ClosureIsSupported | src/device/dspic33ep_mu/control/input_capture.c:339-359 | a channel is in that set only if it is base-high or its sync source is in it |
| InputCapture.TriggeringLowersOutputs | src/device/dspic33ep_mu/control/input_capture.c:246-276 | setting trigger status bits can only lower the outputs |
| InputCapture.RefreshIsIdempotent | src/device/dspic33ep_mu/control/input_capture.c:328-372 | two passes reach a settled state, and a second refresh changes nothing; so eight passes are never needed |
| InputCapture.Peripheral.TriggerSource | src/device/dspic33ep_mu/control/input_capture.c:246-276 | the channel loop, pairs included, sets the trigger status of exactly the channels that wait for the source |
| InputCapture.Peripheral.RefreshSyncOutputs | src/device/dspic33ep_mu/control/input_capture.c:328-372 | the bounded pass loop with its inner fixpoint loop has the effect of the two-pass refresh |
| InputCapture.Peripheral.OutputsHigh | src/device/dspic33ep_mu/control/input_capture.c:331-359 | the two inner loops compute the closure of the base-high channels |
| InputCapture.Peripheral.BaseOutputs | src/device/dspic33ep_mu/control/input_capture.c:310-338 | collects exactly the base-high channels |
| InputCapture.Peripheral.ExpandOutputs | src/device/dspic33ep_mu/control/input_capture.c:340-354 | one expansion adds exactly the channels linked to a high one |
| InputCapture.Peripheral.TriggerRising | src/device/dspic33ep_mu/control/input_capture.c:361-370 | triggers the waiting channels of every output that rose |
| InputCapture.Peripheral.AdvanceStep | src/device/dspic33ep_mu/control/input_capture.c:794-813 | one 16-bit timer: pending reset first, then held, stopped or counting modulo 2^16 |
| InputCapture.Peripheral.AdvancePair | src/device/dspic33ep_mu/control/input_capture.c:815-844 | a 32-bit pair: reset, hold and count of both halves together |
| InputCapture.Peripheral.AdvanceAt | src/device/dspic33ep_mu/control/input_capture.c:864-880 | one turn of the channel loop steps the channel or the pair at it and leaves the others |
| InputCapture.Peripheral.AdvanceChannels | src/device/dspic33ep_mu/control/input_capture.c:864-880 | the channel loop steps every clocked channel once, from the same starting state |
| InputCapture.Peripheral.SyncTransitionOf | src/device/dspic33ep_mu/control/input_capture.c:760-792 | cycles until the output of a channel can change, pairs included |
| InputCapture.Peripheral.NextStep | src/device/dspic33ep_mu/control/input_capture.c:852-863 | the step is the least transition below the remaining cycles, and at least one |
| InputCapture.Peripheral.AdvanceClock | src/device/dspic33ep_mu/control/input_capture.c:846-884 | the clock advances by refresh, variable steps and refresh between steps |
| InputCaptureTriggers.CallTriggersExactly | src/device/dspic33ep_mu/control/input_capture.c:246-276 | after a call, a channel is triggered if and only if it was before, or it operates with its trigger bit and waits for the source of the clock, or for an output that rose during the call |
| InputCaptureTriggers.TriggeredCounts | src/device/dspic33ep_mu/control/input_capture.c:361-370 | a 16-bit channel that a call has triggered counts in the next cycle |
| InputCaptureTriggers.TopStartsWaiting | src/device/dspic33ep_mu/control/input_capture.c:246-276 | a timer that reaches the top raises its output and so triggers the channels that wait for it |
| InputCaptureCycle.WorksExactly | src/device/dspic33ep_mu/control/input_capture.c:149-185 | a channel operates exactly with a mode, clock and sync source that exist, both modules of its pair on, and a power mode that lets it |
| InputCaptureCycle.CycleOfTimer | src/device/dspic33ep_mu/control/input_capture.c:794-813 | one cycle of a 16-bit channel: zero when held by a high output or with a reset pending, one more modulo 2^16 when it operates and is triggered if it has to be, otherwise unchanged |
| InputCaptureCycle.CycleOfPair | src/device/dspic33ep_mu/control/input_capture.c:815-844 | one cycle of a 32-bit pair: the number of both halves in the same way, held or reset by either half, counting only when both do on one clock |
| InputCaptureCycle.OutputsExactly | src/device/dspic33ep_mu/control/input_capture.c:310-359 | after any call an output is high exactly if its channel is off, waits for its trigger, is at the top or is held by a high output, and the outputs are the least set of that kind |
| InputCaptureClock.FirstCycleOfStep | src/device/dspic33ep_mu/control/input_capture.c:846-884 | in the first cycle of a longer step outputs only fall, nothing is triggered, and what falls follows from the timers that the step sets to zero, pairs included |
| InputCaptureClock.StepIsCycleByCycle | src/device/dspic33ep_mu/control/input_capture.c:846-884 | a step that releases no running unit early equals that many one-cycle calls if and only if no output that falls in its first cycle triggers anything by being high again at its end; any configuration |
| InputCaptureClock.TwoCyclesAgreeExactly | src/device/dspic33ep_mu/control/input_capture.c:846-884 | from any settled state of any configuration, one call of two cycles equals two calls of one if and only if the two cycles are cut anyway, or nothing is released early and nothing returns |
| InputCaptureClock.TwoCyclesDecide | src/device/dspic33ep_mu/control/input_capture.c:846-884 | for any configuration, one call equals as many one-cycle calls from all states and for all spans if and only if it does for two cycles from every settled state |
| InputCaptureClock.SteadyRunAgrees | src/device/dspic33ep_mu/control/input_capture.c:846-884 | a run whose steps release nothing early and let nothing return equals its one-cycle calls, whatever rings and pairs there are |
| InputCaptureClock.NothingFallsExactly | src/device/dspic33ep_mu/control/input_capture.c:794-844 | with acyclic links no output falls at the start of a step if and only if no channel that is not held itself has its timer set to zero from the top: no reset waits for a half of a pair, a stopped or a running channel there, and no half of a pair there is held by the other alone |
| InputCaptureClock.AgreesExactlyWithoutFallingRing | src/device/dspic33ep_mu/control/input_capture.c:846-884 | with the halves of every pair linked alike, one call equals as many one-cycle calls for all states without stalled resets and all spans if and only if no ring of links that channels on this clock can raise, and none of whose members is always high, holds a channel that can run on this clock |
| InputCaptureClock.FallingRingDiffers | src/device/dspic33ep_mu/control/input_capture.c:846-884 | every such ring has a state from which two cycles in one call differ from two one-cycle calls |
| InputCaptureClock.AdvanceIsCycleByCycle | src/device/dspic33ep_mu/control/input_capture.c:846-884 | with acyclic links, pairs linked alike and no stalled reset, advancing by any number of cycles equals as many one-cycle advances: timers, trigger status, outputs and pending resets |
| InputCaptureClock.StalledResetDiffers | src/device/dspic33ep_mu/control/input_capture.c:794-804 | a reset pending on a stopped channel at the top breaks the agreement although the links are acyclic |
| InputCaptureClock.PairResetDiffers | src/device/dspic33ep_mu/control/input_capture.c:815-844 | a reset pending on one half of a running pair whose other half is at the top breaks the agreement |
| InputCaptureClock.HalfHeldDiffers | src/device/dspic33ep_mu/control/input_capture.c:815-844 | with nothing pending, a pair of which one half is held and the other is unlinked and at the top breaks the agreement |
| EventQueue.OperationsKeepEvents | src/device/dspic33ep_mu/memory/dma/runtime.c:138-230 | scheduling, reordering and popping neither lose, repeat nor change an event |
| EventQueue.OperationsKeepHeap | src/device/dspic33ep_mu/memory/dma/runtime.c:138-230 | they keep the heap order: by pause state and cycle always, by sequence number as well when the DMA events queued have one source |
| EventQueue.HeadIsLeast | src/device/dspic33ep_mu/memory/dma/runtime.c:209-230 | the head of a heap is before every event of the queue in that order |
| EventQueue.LessIsFifo | src/device/dspic33ep_mu/memory/dma/runtime.c:73-93 | the comparison is the order by pause state, cycle and sequence number for exactly the pairs that are not two DMA events of one cycle and pause state whose priorities go against their sequence numbers |
| EventQueue.LessIsCircular | src/device/dspic33ep_mu/memory/dma/runtime.c:73-93 | with any two DMA sources of different priority the comparison can run in a circle of three, so it is no order |
| EventQueue.LaterEventOvertakes | src/device/dspic33ep_mu/memory/dma/runtime.c:138-230 | for any two DMA sources of different priority, a run after which the head was scheduled after another event of its cycle, neither being a DMA event |
| EventQueue.OrderKeptExactly | src/device/dspic33ep_mu/memory/dma/runtime.c:138-230 | in every run of scheduling, taking, pausing, resuming and discarding, DMA events aside, the queue hands out the events of one cycle in scheduling order if and only if at most one DMA source is in use |
| EventQueue.RetainedMembers | src/device/dspic33ep_mu/runtime.c:107-117 | the in-place filter keeps exactly the events that are not dropped |
| EventQueue.PauseShiftsCycle | src/device/dspic33ep_mu/communication/pmp.c:73-108 | pausing and resuming an event that is not overdue delays it by exactly the length of the pause, without wrap-around |
| EventQueue.PauseKeepsOrder | src/device/dspic33ep_mu/communication/dci.c:255-290 | events paused and resumed together keep their relative order, while paused and afterwards |
| EventQueue.EventHeap.Schedule | src/device/dspic33ep_mu/memory/dma/runtime.c:138-172 | appends and sifts up in place; refuses a cycle beyond 64 bits |
| EventQueue.EventHeap.Sink | src/device/dspic33ep_mu/memory/dma/runtime.c:184-207 | the sift-down loop with a moving hole |
| EventQueue.EventHeap.Reorder | src/device/dspic33ep_mu/memory/dma/runtime.c:184-207 | sinks every parent, last one first |
| EventQueue.EventHeap.Pop | src/device/dspic33ep_mu/memory/dma/runtime.c:209-230 | returns the head and sinks the last event from the root |
| EventQueue.EventHeap.Pause | src/device/dspic33ep_mu/communication/pmp.c:73-87 | the pause loop marks every selected event and reorders if one changed |
| EventQueue.EventHeap.Resume | src/device/dspic33ep_mu/communication/pmp.c:89-108 | the resume loop, with its overflow exit per event |
| EventQueue.EventHeap.Discard | src/device/dspic33ep_mu/communication/pmp.c:110-120 | the compacting loop, then a reorder |
| Runtime.PauseKeepsSchedule | src/device/dspic33ep_mu/communication/pmp.c:73-108 | pausing and resuming keep the delay still to be served by an event; the difference never underflows |
| Runtime.TickKeepsValid | src/device/dspic33ep_mu/runtime.c:332-340 | time never passes a queued unpaused event |
| Runtime.HandleKeepsValid | src/device/dspic33ep_mu/runtime.c:395-397 | popping a head that is due keeps the device valid and records it as handled on time |
| Runtime.IterateKeepsValid | src/device/dspic33ep_mu/runtime.c:371-407 | one trip round the loop keeps the device valid, never pops an empty queue, and exits only at the target with nothing due |
| Runtime.LoopIsOnTime | src/device/dspic33ep_mu/runtime.c:349-408 | every run of the loop keeps the device valid, for any boundaries that are zero only when no time can pass, and any handlers that schedule, pause, resume or discard |
| Runtime.LoopEnds | src/device/dspic33ep_mu/runtime.c:371-407 | such a run ends within the cycles left, the events queued and the events its handlers schedule |
| Runtime.EndlessSchedulesNeverEnd | src/device/dspic33ep_mu/runtime.c:371-407 | handlers that each schedule an event without delay keep the loop going for any number of trips |
| Boundaries.TripBoundary | src/device/dspic33ep_mu/runtime.c:381-386 | the boundary of a trip, from the timers and the encoders: the loop may rely on it, no timer passes its period or the tick of an output compare channel within it, and no encoder output changes |
| Runtime.ValidMeansOnTime | src/device/dspic33ep_mu/runtime.c:369-408 | valid means: each event was handled exactly at its cycle, after exactly its delay of unpaused time, in nondecreasing order; no unpaused event lies in the past; with nothing due, all lie beyond the target; with at most one DMA source the head is in turn |
| RuntimeAccounts.LoopLosesNothing | src/device/dspic33ep_mu/runtime.c:371-407 | in every run with honest boundaries an event that is scheduled before or during it, and that no handler discards, ends up still queued or handled, not both, and no event is handled twice, whatever is scheduled, paused and resumed |
| RuntimeAccounts.ScheduleAddsOne | src/device/dspic33ep_mu/memory/dma/runtime.c:138-172 | scheduling adds exactly the event at the delay from now, with the next number; beyond 64 bits it changes nothing |
| RuntimeAccounts.PauseStopsSelected | src/device/dspic33ep_mu/communication/pmp.c:73-87 | pausing stops exactly the selected running events, with the rest of their delay, and leaves the others as they are |
| RuntimeAccounts.ResumeRestartsSelected | src/device/dspic33ep_mu/communication/pmp.c:89-108 | resuming restarts exactly the selected stopped events, that rest from now, unless that is beyond 64 bits |
| RuntimeAccounts.DiscardDropsSelected | src/device/dspic33ep_mu/communication/pmp.c:110-120 | discarding drops exactly the selected events |
| Runtime.HandledEarlyExactly | src/device/dspic33ep_mu/runtime.c:371-397 | a trip from a valid device hands over an event before its cycle if and only if a boundary of zero is reported although time could pass |
| Runtime.DeviceRuntime.ApplyEffects | src/device/dspic33ep_mu/runtime.c:395-406 | handlers change the queue in place as the effects say |
| Runtime.DeviceRuntime.Trip | src/device/dspic33ep_mu/runtime.c:371-407 | one trip: next cycle, boundary with its 64-bit difference, advance, exit, or pop and handle |
| Runtime.DeviceRuntime.AdvanceInstruction | src/device/dspic33ep_mu/runtime.c:349-408 | the loop up to the end of an instruction |
| Gf2.RemainderIsUnique | src/device/dspic33ep_mu/memory/crc.c:125-144 | a polynomial has one remainder below the degree of the modulus, so naming it determines the register |
| Crc.ShiftBitIsCongruent | src/device/dspic33ep_mu/memory/crc.c:135-140 | one shifted bit multiplies by x and adds the input at the leading term, modulo the polynomial |
| Crc.FeedIsRemainder | src/device/dspic33ep_mu/memory/crc.c:125-144 | shifting in bits leaves the remainder of init·x^L + M·x^n |
| Crc.CycleKeepsResidue | src/device/dspic33ep_mu/memory/crc.c:146-181 | a cycle, loading or not and of one bit or two, does not change what the drained register will be |
| Crc.PushFeedsResidue | src/device/dspic33ep_mu/memory/crc.c:80-93 | a pushed word adds its bits, in the configured order, behind all others; a full buffer ignores it |
| Crc.RunFeedsResidue | src/device/dspic33ep_mu/memory/crc.c:71-181 | over any run of pushes, starts, stalls and cycles the final register is that of feeding the accepted bits in order |
| Crc.DrainedIsRemainder | src/device/dspic33ep_mu/memory/crc.c:71-181 | once drained, the register holds the polynomial that is (init·x^L + M·x^n) mod P, where M is the concatenation of the words accepted, each as its configured bit order reads it, whatever the grouping, the stalls and the times of the pushes |
| Crc.MessageOfWord | src/device/dspic33ep_mu/memory/crc.c:130-134 | the bits shifted from a word spell the word below the data width, or in little-endian order that word read backwards |
| Crc.BufferIsSixteenBytes | src/device/dspic33ep_mu/memory/crc.c:11-14 | the buffer takes 16 words of up to 8 bits, 8 of up to 16, and 4 wider ones |
| Crc.CycleTakesOne | src/device/dspic33ep_mu/memory/crc.c:125-181 | an unstalled cycle uses up one of the cycles left |
| Crc.DrainTime | src/device/dspic33ep_mu/memory/crc.c:125-181 | unstalled, the unit drains in exactly half the data width, rounded up, cycles for each word |
| Crc.RunWorks | src/device/dspic33ep_mu/memory/crc.c:71-93 | in every run, in whatever order words and the start come and however it stalls, the unit is active exactly while it is started and has something to shift |
| Crc.StartDrains | src/device/dspic33ep_mu/memory/crc.c:71-181 | setting the start bit with words waiting runs them down in half the width, rounded up, unstalled cycles each, active up to the last and then stopped and empty |
| Crc.CrcUnit.StartIfReady | src/device/dspic33ep_mu/memory/crc.c:71-78 | starts only when enabled, idle and with words waiting |
| Crc.CrcUnit.Push | src/device/dspic33ep_mu/memory/crc.c:80-93 | writes the masked word into the ring slot behind the last |
| Crc.CrcUnit.LoadShiftData | src/device/dspic33ep_mu/memory/crc.c:105-123 | takes the word at the head of the ring |
| Crc.CrcUnit.ShiftRegister | src/device/dspic33ep_mu/memory/crc.c:125-144 | the bit loop of one cycle |
| Crc.CrcUnit.ShiftedOnce | src/device/dspic33ep_mu/memory/crc.c:135-140 | one turn of the bit loop |
| Crc.CrcUnit.RunCrc | src/device/dspic33ep_mu/memory/crc.c:146-181 | the event handler: stale, stalled, finished, load, shift, finish |
| CallStack.EnterOpensFrame | src/architecture/dspic33/execution/traps.c:389-439 | CALL and LNK within the stack open a frame above everything in use and store the return address with the stack-frame bit and the old frame pointer |
| CallStack.LeaveReturns | src/architecture/dspic33/execution/run.c:224-256 | after a body that restores its registers, ULNK and RETURN continue behind the call with W14, W15, the stack-frame bit and the call depth as before it and older frames untouched |
| CallStack.ReturnAddressSurvives | src/architecture/dspic33/execution/instructions.c:155-181 | a pushed return address is popped unchanged if and only if it is even; W15, the stack-frame bit and the call depth come back |
| CallStack.SaveRestores | src/architecture/dspic33/execution/instructions.c:155-181 | PUSH and POP around restoring code carry one word past it and leave the stack as it was |
| CallStack.RunRestores | src/architecture/dspic33/execution/traps.c:350-439 | every well-nested execution that fits the stack, at any depth, raises no stack error, continues behind itself and restores W14, W15, the stack-frame bit, the call depth and all older frames |
| StackErrors.PushAndPopRaise | src/architecture/dspic33/execution/traps.c:21-30 | a push raises the stack error exactly when it was raised before or the word written lies below 0x1000, or above an enabled limit, or at the top of memory with the limit enabled; a pop in the same way by the word it reads |
| StackErrors.LinkRaises | src/architecture/dspic33/execution/traps.c:389-403 | LNK raises it in addition when a frame is active already or the frame ends outside |
| StackErrors.UnlinkRaises | src/architecture/dspic33/execution/traps.c:350-362 | ULNK raises it in addition when no frame is active |
| StackErrors.RunRaises | src/architecture/dspic33/execution/traps.c:21-30 | a well-nested execution at any depth raises the stack error if and only if the highest word that it checks lies above an enabled limit, and the limit changes nothing else |
| CallStack.Core.StackAddress | src/architecture/dspic33/execution/instructions.c:155-166 | the two pushes of a call, in place |
| CallStack.Core.UnstackAddress | src/architecture/dspic33/execution/instructions.c:168-181 | the two pops of a return, in place |
| CallStack.Core.ExecuteCall | src/architecture/dspic33/execution/traps.c:404-439 | CALL |
| CallStack.Core.ExecuteReturn | src/architecture/dspic33/execution/run.c:224-236 | RETURN, and the stop outside any call |
| CallStack.Core.ExecuteLink | src/architecture/dspic33/execution/traps.c:389-403 | LNK with its two stack checks |
| CallStack.Core.ExecuteUnlink | src/architecture/dspic33/execution/traps.c:350-362 | ULNK |
| DoLoop.MirrorsHold | src/architecture/dspic33/execution/reset.c:584-661 | under any mix of instructions and DCOUNT, DOEND and EDT writes, DOSTART, DOEND and DCOUNT show the top of the stack, and the depth and active bits its height |
| LoopEdt.EdtEndsLoop | src/architecture/dspic33/execution/reset.c:590-599 | EDT set by any plain instruction of a loop body, whatever the body ends with, ends the loop with this iteration; set by one of the last two, with the next iteration if there is one |
| LoopEdt.LateEdtNeverEndsLoop | src/architecture/dspic33/execution/run.c:49-58 | EDT set by one of the last two instructions in every iteration never ends the loop early: it runs all count plus one iterations |
| LoopCode.RepeatRuns | src/architecture/dspic33/execution/run.c:387-425 | an instruction under REPEAT runs its count plus one times and leaves the status as it was; at the end of the innermost loop each single run completes an iteration |
| LoopCode.LoopRuns | src/architecture/dspic33/execution/run.c:49-74 | an entered loop, whatever its body ends with, runs its body for every iteration left and is left with the repetitions of its end that remain, showing the registers of the loop around it |
| LoopCode.BlockRuns | src/architecture/dspic33/execution/run.c:387-425 | code with nested DO and REPEAT loops, repeated and shared ends included, leads in the number of steps computed from it to the state computed from it, and control stays inside it on the way |
| LoopExact.RunsAsWrittenExactly | src/architecture/dspic33/execution/run.c:387-425 | for every block of code, control comes out behind it with its unrolled instructions run and all else as before if and only if every loop in it is left, and none goes back to its start with a repetition of its end still to run |
| LoopExact.PlainEnd | src/architecture/dspic33/execution/run.c:401-425 | a loop whose last instruction is plain runs as it is written |
| LoopExact.RepeatedEnd | src/architecture/dspic33/execution/run.c:387-425 | a loop whose last instruction stands under REPEAT c does if and only if c or the loop count is zero; what it runs is one round per iteration with the end once in each, and the end c times more behind the last |
| LoopExact.RepeatedEndCount | src/architecture/dspic33/execution/run.c:387-425 | so that end runs count + c + 1 times |
| LoopExact.SharedEnd | src/architecture/dspic33/execution/run.c:401-425 | a loop that shares its end with an inner loop does if and only if the inner count is zero and the inner loop leaves a repetition of the end, no more than one unless the outer count is zero too |
| LoopExact.SharedEndsExactly | src/architecture/dspic33/execution/run.c:387-425 | k loops with one end, under REPEAT c, run as they are written if and only if c is at least k - 1, all inner counts are zero, and the outermost is zero or c is k - 1 |
| LoopExact.NestedLoopsTerminate | src/architecture/dspic33/execution/traps.c:489-530 | nested loops with distinct ends terminate after running the inner instruction the product of the counts plus one times |
| LoopExact.SharedEndKeepsOuterLoop | src/architecture/dspic33/execution/run.c:401-425 | for any prefix, inner body and counts, when no repetition of a shared end is left, the outer loop is still on the stack with its whole count behind both loops, and its body has run once |
| LoopExact.UnleftSticks | src/architecture/dspic33/execution/run.c:401-425 | code with a loop in it that is not left, or that uses up the repetitions of its end, comes without leaving its own addresses to a state in which control is behind the end of a level still on the stack |
| LoopExact.StepsKeepStuck | src/architecture/dspic33/execution/run.c:401-425 | from such a state on, whatever code comes, that level never leaves the stack |
| DoLoop.LoopRegisters.CompleteDoLoopIteration | src/architecture/dspic33/execution/run.c:49-74 | the end of an iteration, in place |
| DoLoop.LoopRegisters.LeaveLoop | src/architecture/dspic33/execution/run.c:60-73 | leaving a loop reloads the registers from the level below |
| DoLoop.LoopRegisters.ExecuteDoInstruction | src/architecture/dspic33/execution/traps.c:489-530 | DO with its depth trap and the zero-count case |
| DoLoop.LoopRegisters.EnterLoop | src/architecture/dspic33/execution/traps.c:515-525 | pushing a level |
| DoLoop.LoopRegisters.ExecuteRepeatInstruction | src/architecture/dspic33/execution/traps.c:531-541 | REPEAT with a literal count |
| DoLoop.LoopRegisters.FinishInstruction | src/architecture/dspic33/execution/run.c:387-425 | the REPEAT count and the end of the innermost loop after an instruction |
| DoLoop.LoopRegisters.WriteDcountByte | src/architecture/dspic33/execution/reset.c:627-648 | a write to half of DCOUNT reaches the top level |
| DoLoop.LoopRegisters.WriteDoendByte | src/architecture/dspic33/execution/reset.c:653-661 | a write to a byte of DOEND keeps its mask and reaches the top level |
| DoLoop.LoopRegisters.WriteCorconEdt | src/architecture/dspic33/execution/reset.c:590-599 | EDT marks the top level, late or not |
| LoopWrites.DcountWritten | src/architecture/dspic33/execution/reset.c:627-648 | writing the low byte v and the high byte w of DCOUNT, in either order, leaves v + 0x100 w in the register and in the top level |
| LoopWrites.WrittenCountRuns | src/architecture/dspic33/execution/reset.c:627-648 | a loop whose count is so written at the start of an iteration runs v + 0x100 w + 1 iterations from there |
| LoopWrites.DoendWritten | src/architecture/dspic33/execution/reset.c:653-661 | writing the three bytes of DOEND in any order leaves the address they spell, even and of 23 bits, in the register and in the top level |
| LoopSteps.RunShows | src/architecture/dspic33/execution/traps.c:489-530 | over any run the stack trap is raised exactly by a DO in four open loops, a nested DO of count zero is undefined exactly without its three no-operation words, and between loops DOSTART, DOEND and DCOUNT are clear |
| Pmp.CompletingIsNeverOverwritten | src/device/dspic33ep_mu/communication/pmp.c:445-463 | while events due together are delivered in scheduling order, the completing slot is free whenever a clear-busy event fires |
| Pmp.ActKeepsValid | src/device/dspic33ep_mu/communication/pmp.c:420-517 | with such deliveries, starts, elapsed time, pauses and aborts keep the two slots, the pending events and the history in step |
| Pmp.RunKeepsTransfers | src/device/dspic33ep_mu/communication/pmp.c:420-517 | in every run with such deliveries the completed transfers, then the completing one, then the active one are the transfers started and not aborted, each once, in start order, with the data of their start and after exactly their transfer cycles of running clock |
| Pmp.RunCarriesData | src/device/dspic33ep_mu/communication/pmp.c:489-501 | in every such run a completed read carries the low 8 or 16 bits, by its width, of the response of the delivery that completed it, and a completed write those bits of the data register at its start |
| Pmp.RunShowsBusy | src/device/dspic33ep_mu/communication/pmp.c:420-463 | in every run, aborts and pauses included, the busy flag is set exactly while a transfer of more than one cycle holds the bus |
| Pmp.TransferTakesItsPhases | src/device/dspic33ep_mu/communication/pmp.c:7-20 | a transfer takes the cycles of its address phases and of its one or two data phases, each with its waits |
| Pmp.OverdueIsCompleted | src/device/dspic33ep_mu/communication/pmp.c:465-517 | in a state that such runs reach, a transfer whose due time has passed has been completed |
| Pmp.ResetIsValid | src/architecture/dspic33/execution/traps.c:911-912 | the zeroed core starts in a state that meets the invariant |
| Pmp.Port.StartTransfer | src/device/dspic33ep_mu/communication/pmp.c:420-443 | captures the registers, takes the bus and schedules the two events |
| Pmp.Port.ClearBusyEvent | src/device/dspic33ep_mu/communication/pmp.c:445-463 | moves the transfer on the bus to the completing slot |
| Pmp.Port.RunPmp | src/device/dspic33ep_mu/communication/pmp.c:465-517 | completes the completing transfer, or else the one on the bus, or ignores a stale event |
| Pmp.Port.AbortTransfers | src/device/dspic33ep_mu/communication/pmp.c:163-172 | drops both slots and their events |
| PmpQueue.HeadIsMaster | src/device/dspic33ep_mu/memory/dma/runtime.c:209-230 | with at most one DMA source, a port event that is due at the head of the heap is the one that was scheduled first among those due |
| PmpQueue.RunRefines | src/device/dspic33ep_mu/communication/pmp.c:420-517 | with at most one DMA source, every run of the port on the event heap, among any other events, is a run of Pmp: the heap delivers the port's events in scheduling order |
| PmpQueue.RunKeepsTransfers | src/device/dspic33ep_mu/runtime.c:197-202 | so every such run keeps every transfer, in order, with its data and on time |
| PmpQueue.BoardCarriesData | src/device/dspic33ep_mu/communication/pmp.c:489-501 | on the event heap, with any DMA sources, completed reads and writes carry the same data of responses and registers |
| PmpQueue.TransferIsLost | src/device/dspic33ep_mu/communication/pmp.c:445-463 | with any two DMA sources of different priority, a run in which the end of a bus phase overwrites a transfer still completing, which is lost |
| PmpQueue.TransfersKeptExactly | src/device/dspic33ep_mu/communication/pmp.c:420-517 | every run keeps every transfer if and only if at most one DMA source is in use |
| Uart.ReceiveBitDecides | src/device/dspic33ep_mu/communication/uart.c:400-407 | the samples of a bit are counted and the majority taken as its value |
| Uart.MajorityShowsBit | src/device/dspic33ep_mu/communication/uart.c:400-407 | with at most one of three samples wrong, the majority is the bit that was sent |
| Uart.ShownFrameIsReceived | src/device/dspic33ep_mu/communication/uart.c:408-439 | a frame shown bit by bit is received with its data, without parity or framing error |
| UartReceive.ReceivedExactly | src/device/dspic33ep_mu/communication/uart.c:381-439 | whatever the samples, a start bit heard high cancels the reception, and otherwise the frame completed has the data bits heard, a parity error exactly if the parity bit heard is not that of the data, and a framing error exactly if a stop bit is heard low |
| Uart.SampleInCell | src/device/dspic33ep_mu/communication/uart.c:363-376 | when the clocks agree on the last bit, every sample of every bit falls into its own cell |
| Uart.ClocksAgreeExactly | src/device/dspic33ep_mu/communication/uart.c:363-376 | every sample falls into its own cell if and only if the two bounds on the unit ratio hold |
| Uart.FrameSurvivesLine | src/device/dspic33ep_mu/communication/uart.c:34-66 | sending and sampling a frame is the identity for agreeing clocks, either polarity, and any one wrong sample of three in each bit |
| Uart.ParityMakesEvenOrOdd | src/device/dspic33ep_mu/communication/uart.c:34-43 | with the parity bit the ones of data and parity are even in number with even parity, odd with odd parity |
| Uart.FrameIsItsParts | src/device/dspic33ep_mu/communication/uart.c:45-66 | a frame is the start bit, the data bits lowest first, the parity bit if there is one, and the stop bits |
| Uart.LineShowsFrame | src/device/dspic33ep_mu/communication/uart.c:45-66 | the line shows each bit of the frame, then idles, in the configured polarity |
| Uart.ReceiverUnit.SamplePhysicalReceive | src/device/dspic33ep_mu/communication/uart.c:381-439 | one sample event, in place |
| BitReverse.BitReversedAddress | src/architecture/dspic33/execution/state.c:714-729 | the reverse-carry loop computes addition conjugated by the reversal of bits 15 to 1, and keeps bit 0 |
| BitReverse.RunAddsReflections | src/architecture/dspic33/execution/state.c:714-729 | a run adds the reflected modifier to the reflected address at each step, for any modifier |
| BitReverse.RunWalksBuffer | src/architecture/dspic33/execution/state.c:714-729 | in an aligned buffer of 2^n words the register is, after any number of steps, the base plus twice the bit-reversed step count: it never leaves the buffer |
| BitReverse.EveryWordOnce | src/architecture/dspic33/execution/state.c:714-729 | each word of the buffer is reached in exactly one of the first 2^n steps |
| BitReverse.RunReturns | src/architecture/dspic33/execution/state.c:714-729 | the register is back at the base after exactly the multiples of 2^n steps |
| Arithmetic.AddFlagsAreExact | src/architecture/dspic33/execution/addressing.c:137-165 | C, N, OV and Z of one addition in terms of the exact and the signed sum |
| Arithmetic.SubtractFlagsAreExact | src/architecture/dspic33/execution/addressing.c:167-197 | C, N, OV and Z of one subtraction in terms of the exact and the signed difference |
| Arithmetic.StepIsExact | src/architecture/dspic33/execution/addressing.c:213-290 | one byte or word operation with its carry or borrow taken in |
| Arithmetic.OperationIsExact | src/architecture/dspic33/execution/addressing.c:213-290 | all six operations, the reversed ones included, leave the exact sum or the exact difference in their direction modulo the width, with C, N and Z telling its carry, sign and, sticky with carry, zero |
| Arithmetic.DigitCarryIsExact | src/architecture/dspic33/execution/addressing.c:137-197 | DC is the carry, or the missing borrow, of the low four bits of bytes or the low eight of words, for all six operations |
| Arithmetic.ChainIsExact | src/architecture/dspic33/execution/addressing.c:213-290 | ADD then ADDC, or SUB then SUBB, on numbers of any length give the exact sum or difference up to the carry, with C, N, OV and the sticky Z right for the whole number |
| Arithmetic.CompareLikeSubtract | src/architecture/dspic33/execution/addressing.c:292-360 | a chain of CP and CPB leaves the flags of the chain of SUB and SUBB |
| Arithmetic.BranchesDecideComparison | src/architecture/dspic33/execution/addressing.c:915-970 | after CP and CPB every ordering branch decides the unsigned or signed comparison of the whole numbers, and Z and NZ their equality |
| Arithmetic.Alu.UpdateAddFlags | src/architecture/dspic33/execution/addressing.c:137-165 | the flags of an addition, in place |
| Arithmetic.Alu.UpdateSubtractFlags | src/architecture/dspic33/execution/addressing.c:167-197 | the flags of a subtraction, in place |
| Arithmetic.Alu.Binary | src/architecture/dspic33/execution/addressing.c:213-290 | the six arithmetic operations, reversed ones included |
| Arithmetic.Alu.Compare | src/architecture/dspic33/execution/addressing.c:292-360 | CP and CPB |
| Bcd.StepIsDecimal | src/architecture/dspic33/execution/instructions.c:905-919 | adding two packed bytes and adjusting gives the packed decimal sum, with C as its carry |
| Bcd.DecimalChainIsExact | src/architecture/dspic33/execution/instructions.c:905-919 | ADD.B or ADDC.B with DAW.B after each, on packed numbers of any length, give the packed exact decimal sum, with the last C as the decimal carry |
| Bcd.Register.DecimalAdjustByte | src/architecture/dspic33/execution/instructions.c:905-919 | DAW.B, in place; the upper byte of the register stays |
| Accumulator.StatusShowsInexact | src/architecture/dspic33/execution/state.c:377-396 | an instruction raises the sticky status if and only if the value kept is not the exact result |
| Accumulator.RunKeepsValid | src/architecture/dspic33/execution/state.c:335-427 | over any run both accumulators stay in 40 bits, OA and OB show values beyond 32 bits, OAB is OA or OB and SAB is SA or SB |
| Accumulator.RunIsCongruent | src/architecture/dspic33/execution/state.c:377-396 | with saturation off both accumulators are the exact integers modulo 2^40, over any run |
| Accumulator.QuietRunAddsTerms | src/architecture/dspic33/execution/instructions.c:838-853 | a run of multiply-accumulates without raised status adds, for each MAC, and subtracts, for each MSC, the product of its operands, signed, unsigned or mixed as the mode says, doubled in fractional mode |
| Accumulator.QuietLoadReplaces | src/architecture/dspic33/execution/instructions.c:838-853 | a multiply or load that raises no status leaves that product, or its negative, whatever was there |
| Accumulator.SubtractUndoesAdd | src/architecture/dspic33/execution/instructions.c:838-853 | MSC after MAC with the same operands restores the accumulator when both raise no status |
| Accumulator.SaturationIsNearest | src/architecture/dspic33/execution/state.c:377-396 | a saturated result is the nearest number of its range to the exact one |
| Accumulator.OverflowShowsGuardBits | src/architecture/dspic33/execution/state.c:398-404 | OA or OB is set exactly when the accumulator does not fit 32 signed bits |
| Accumulator.ClearStatusMeansExact | src/architecture/dspic33/execution/state.c:377-408 | in every saturation mode, when a run without CLR ends with SA and SB clear, both accumulators are the exact integers |
| Accumulator.OwnStatusMeansExact | src/architecture/dspic33/execution/state.c:377-427 | when no instruction of the run computes an accumulator from the other, its own clear bit is enough, CLR included |
| Accumulator.MixingIsExactlyAsExact | src/architecture/dspic33/execution/instructions.c:393-410 | an ADD or subtraction of the other accumulator that raises no status is exact if and only if the other one was |
| Accumulator.QuietRunCarriesErrors | src/architecture/dspic33/execution/instructions.c:393-410 | over any run that raises no status, CLR, loads and mixing included, each accumulator's error is a fixed whole multiple of the two starting errors, the multiples depending on the instructions alone |
| Accumulator.ExactWhateverTheStart | src/architecture/dspic33/execution/instructions.c:393-410 | such a run leaves an accumulator exact whatever the starting errors if and only if its multiples of both are zero |
| Accumulator.QuietRunIsExactlyAsExact | src/architecture/dspic33/execution/state.c:377-408 | over a run with mixing, without CLR, loads and raised status, both accumulators end exact if and only if both were exact at the start |
| Accumulator.OwnStatusIsNotEnough | src/architecture/dspic33/execution/instructions.c:393-410 | with mixing, SA clear does not mean that A is exact: a concrete run |
| Accumulator.ClearHidesInexact | src/architecture/dspic33/execution/state.c:424-427 | with mixing and CLR, even SA and SB clear do not mean it: a concrete run |
| Accumulator.DspEngine.UpdateCombinedStatus | src/architecture/dspic33/execution/state.c:335-343 | recomputes OAB and SAB |
| Accumulator.DspEngine.ApplyAccumulatorResult | src/architecture/dspic33/execution/state.c:377-406 | saturation, wrap to 40 bits and status, in place |
| Accumulator.DspEngine.ExecuteOperation | src/architecture/dspic33/execution/instructions.c:393-410 | the accumulator instructions, in place |
| Dci.PredictionIsExact | src/device/dspic33ep_mu/communication/dci.c:51-75 | a buffer is in the mask computed from as many frames as there are buffers if and only if some word of an unbounded run sends it |
| Dci.ActiveTransmitBuffers | src/device/dspic33ep_mu/communication/dci.c:51-75 | the double loop over frames and slots computes that mask |
| Dci.AtFrame | src/device/dspic33ep_mu/communication/dci.c:441-476 | after f frames the buffer index is f times the active slots of a frame, modulo the buffer count |
| Dci.PerformKeepsConsistent | src/device/dspic33ep_mu/communication/dci.c:331-491 | a word on the line, a transmit register write and a receive register read keep buffers, masks and histories in step |
| Dci.NothingLostOrRepeated | src/device/dspic33ep_mu/communication/dci.c:331-491 | from start-up on, the buffer index stays below the count, a transmit slot always has a loaded value, and loaded and received values are passed on each once and in order |
| Dci.UnusedBuffersStayEmpty | src/device/dspic33ep_mu/communication/dci.c:383-403 | a buffer that no transmit slot will ever use is never loaded |
| DciRuns.LineShowsLoaded | src/device/dspic33ep_mu/communication/dci.c:431-447 | in a transmit slot the line carries the upper word bits of the value last loaded into the buffer; in any other slot zero |
| DciRuns.WordIsStored | src/device/dspic33ep_mu/communication/dci.c:448-463 | a receive slot stores the upper word bits of the word on the line, or in loopback the word sent, and no other slot stores anything |
| DciRuns.TransferCompletesRing | src/device/dspic33ep_mu/communication/dci.c:464-476 | buffers are transferred exactly by the word of an active slot that completes the ring; everything received is then delivered and every buffer that is ever sent has a new value |
| DciRuns.RunKeepsBooks | src/device/dspic33ep_mu/communication/dci.c:331-381 | over every run each load takes the last value that software wrote since the load before, or else repeats or sends zero with the underflow mark, each delivery replaces the receive register, and the unread and overflow marks say what software has missed |
| Dci.Interface.TransferAll | src/device/dspic33ep_mu/communication/dci.c:331-381 | the loop over the buffers, with overflow and underflow |
| Dci.Interface.Start | src/device/dspic33ep_mu/communication/dci.c:925-956 | enabling clears both buffer masks and the position |
| Dci.Interface.StartUpTransfer | src/device/dspic33ep_mu/communication/dci.c:383-403 | loads exactly the predicted buffers; without any, the received mask stays as it is |
| Dci.Interface.ProcessLineWord | src/device/dspic33ep_mu/communication/dci.c:431-491 | one word: output, masks, rotation and transfer |
| Dci.Interface.Deliver | src/device/dspic33ep_mu/communication/dci.c:340-347 | one received buffer to its register |
| Dci.Interface.Load | src/device/dspic33ep_mu/communication/dci.c:348-363 | one transmit register, or the underflow value, to its buffer |
| Dci.Interface.WriteTransmitRegister | src/device/dspic33ep_mu/communication/dci.c:1063-1070 | software writes a transmit register |
| Dci.Interface.ReadReceiveRegister | src/device/dspic33ep_mu/communication/dci.c:1096-1108 | software reads a receive register |
| Pwm.StampsSplit | src/device/dspic33ep_mu/control/pwm.c:643-656 | the ticks of a span are those of its first part, then those of its second part, with the same stamps |
| Pwm.StampsFallInSpan | src/device/dspic33ep_mu/control/pwm.c:643-656 | a stamp lies in the span and names the cycle in which the tick's subcycle ends |
| Pwm.CutsDoNotShow | src/device/dspic33ep_mu/control/pwm.c:624-657 | cutting a span into any advances leaves the same fractions, counters, periods and sync times, and the same ticks for each time base, as one advance |
| Pwm.OrderShowsCutExactly | src/device/dspic33ep_mu/control/pwm.c:643-656 | the order of ticks across the two time bases does not show a cut if and only if the second time base has no tick before it or the first one none after it |
| Pwm.OrderDependsOnCuts | src/device/dspic33ep_mu/control/pwm.c:643-656 | a smallest cut that shows: two cycles at the full rate |
| Pwm.BlankingShowsCutExactly | src/device/dspic33ep_mu/control/pwm.c:403-412 | ticks reload the leading-edge blanking counter, so, for given edges, it does not show the cuts of a span if and only if the generator is disabled, has no blanking time or no edge in the span, or no time passes after the advance that holds its last edge |
| Pwm.MasterCounts | src/device/dspic33ep_mu/control/pwm.c:496-511 | with a settled period the master counter counts modulo the period plus one |
| Pwm.LastFoldSetsSync | src/device/dspic33ep_mu/control/pwm.c:496-511 | the sync output ends twelve cycles after the stamp of the last fold |
| Pwm.PeriodTakesOver | src/device/dspic33ep_mu/control/pwm.c:496-511 | from any counter and periods, the master counter runs through the active period to its first fold, and modulo the period latched there, or kept with immediate update, from then on |
| Pwm.SyncFollowsFolds | src/device/dspic33ep_mu/control/pwm.c:496-511 | with the sync output enabled its end is twelve cycles behind the stamp of the last of these folds; otherwise, and without a fold, it stays |
| Pwm.BlankingCountsSubcycles | src/device/dspic33ep_mu/control/pwm.c:403-412 | an advance leaves a blanking counter at its blanking time after an edge, or two less for each cycle, down to zero; a disabled one stays |
| Pwm.CentreAlignedIsTriangle | src/device/dspic33ep_mu/control/pwm.c:460-494 | a centre-aligned counter with a period of at least two is a triangle of twice the period, with one boundary each |
| Pwm.EdgeAlignedCounts | src/device/dspic33ep_mu/control/pwm.c:460-474 | an edge-aligned counter counts modulo the period plus one, with a boundary at each fold; a period of zero makes every tick a boundary |
| Pwm.PeriodOneTakesThreeTicks | src/device/dspic33ep_mu/control/pwm.c:460-494 | with a period of one the boundary comes every three ticks, not two |
| Pwm.IndependentCounter.AdvanceOne | src/device/dspic33ep_mu/control/pwm.c:460-494 | one tick of an independent counter, edge- or centre-aligned |
| Pwm.PwmUnit.TickBase | src/device/dspic33ep_mu/control/pwm.c:496-511 | one tick of a master counter, its period latch, and the blanking counters that the edges of the tick load |
| Pwm.PwmUnit.AdvanceBase | src/device/dspic33ep_mu/control/pwm.c:643-656 | the tick loop of one time base, with the blanking loads of all its ticks |
| Pwm.PwmUnit.AdvancePwm | src/device/dspic33ep_mu/control/pwm.c:624-657 | an advance: power, blanking counters down, then both time bases |
| Coverage.TotalsAreRecounts | src/architecture/dspic33/coverage.c:56-135 | after any operations on a new map, all eight totals are recounts of the slot flags |
| Coverage.DefinitionsMayComeFirst | src/architecture/dspic33/coverage.c:75-97 | any interleaving of definitions with the other operations gives the state of defining everything first |
| Coverage.FlagsRememberHistory | src/architecture/dspic33/coverage.c:56-135 | a slot's flags say exactly what reached it since the last clear, and how it was ever defined |
| CoverageCounts.TotalsAreSizes | src/architecture/dspic33/coverage.c:56-135 | each of the eight totals is the size of the set of slots with the marks it stands for |
| CoverageCounts.CountsAreNumbers | src/architecture/dspic33/coverage.c:99-135 | the counts are the numbers of operations since the last clear: executions, those outside the range, and branches taken and not taken inside it |
| CoverageCounts.SlotIsAddress | src/architecture/dspic33/coverage.c:29-36 | slot i stands for exactly the address at twice i from the start of the range; odd and outside addresses have none |
| Coverage.CoverageMap.ClearAll | src/architecture/dspic33/coverage.c:56-73 | the clearing loop |
| Coverage.CoverageMap.DefineInstruction | src/architecture/dspic33/coverage.c:75-97 | defining an instruction, with its incremental totals |
| Coverage.CoverageMap.RecordInstruction | src/architecture/dspic33/coverage.c:99-109 | recording an execution |
| Coverage.CoverageMap.RecordOutcome | src/architecture/dspic33/coverage.c:111-135 | recording a branch outcome |

## Left out

- InputCapture: capture FIFO, edges, interrupts, DMA requests, and the effects of power and PMD changes during an advance; the configuration is fixed over an advance.
- InputCaptureClock.AdvanceIsCycleByCycle: says nothing of pairs whose halves are linked differently; for those the exact conditions are stated on states (SteadyRunAgrees, NothingFallsExactly) and not on the configuration alone.
- EventQueue: allocation failure and rejected event sources; a failed schedule leaves the queue as it was.
- Runtime: event handlers are not modelled. Each trip takes the boundary reported and the queue effects as given; device cycles and sequence numbers stay below 2^64.
- Runtime.LoopIsOnTime: takes the boundaries as zero only when no time can pass, which Boundaries.TripBoundary proves of the timers and encoders, and handlers that pause, resume and discard through the loops modelled in EventQueue; interrupt service after the loop is not modelled.
- Timers: gating, external clocks, power states, interrupts and DMA requests of a signal; the stops that output compare channels ask for are given, and never after zero ticks.
- Qei: quadrature decoding, index matching, the input filter itself and interval capture; the position modes apply outside timer mode only.
- Pmp: slave mode, address increments, the bounded output queue, interrupts and the wrap-around of the 16-bit generation.
- Crc: changes of configuration or aborts during a drain, interrupts and the generation tag's wrap-around; a full buffer is modelled, a change of width with words waiting is not.
- Uart: IrDA and break frames, auto-baud, flow control, the receive FIFO and its overrun, and the falling-edge detection that begins a reception; sampling starts with the frame.
- Dci: serial bit timing, frame synchronisation, disabling during a run, the bounded output queue, DMA requests and interrupts; the configuration is fixed from start-up on.
- Pwm: waveforms, faults, dead time, triggers and the comparator; which ticks give a generator an edge that starts blanking is given; the divider is fixed, so the fraction stays below it.
- CallStack: address errors, CodeGuard, exceptions, cycle counts and paged data; code is well nested and the stack lies in RAM with word addresses.
- DoLoop: instruction encodings, computed counts read from W registers (the count is the instruction's operand), the extra-decrement erratum after nested interrupts, interrupts, and EDT written by DMA or by an instruction under REPEAT; loop bodies hold at least one instruction; the four parallel arrays of the stack are one array of levels.
- Arithmetic: AND, XOR, IOR, operand addressing, increments and decrements, illegal destinations, and SR as the destination.
- Bcd: nothing is said about bytes that are not packed decimal.
- Accumulator: stores with rounding, shifts, prefetch and write-back, math error traps, and MUL into an accumulator, which changes the value without updating OA and OB.
- BitReverse: modulo addressing and the conditions that enable bit-reversed addressing.
- Coverage: the percentages, and a missing coverage object.
- USB, CAN, I2C, DMA transfers, RTCC, oscillator, NVM, image loading and the command-line runner: not modelled.
