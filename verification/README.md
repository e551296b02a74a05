# The SEvMgr event queue, verified

SEvMgr keeps the events of a simulation in a queue ordered by a millisecond
stamp. Adding an event whose stamp is taken moves the event forward, one
millisecond at a time, to the first free stamp; popping always removes the event
with the smallest stamp. Beside the events, the queue counts progress, once
overall and once per event type: current, expected and actual numbers. The
manager's `run` pops up to the next break point, and `select` pops up to an event
of a given date-time.

This project models that queue and its manager in Dafny and proves what their
operations do over whole runs.

## How the model is built

- `StdAir.dfy`: the few assumptions about the StdAir library.
- `Probing.dfy`: first free slots, and filling several requests in any order.
- `QueueModel.dfy`: the queue as a value, and every operation as a function on it.
- `Traces.dfy`: runs as lists of operations, and the histories read off them: who
  arrived, who waits, who has left.
- `Insertion.dfy`, `Ordering.dfy`: where events land and in which order they leave.
- `Totals.dfy`, `Accounting.dfy`: the progress counters over whole runs.
- `RunControl.dfy`, `PoppingLoops.dfy`: what `run` and `select` pop, and their loops.
- `Simulation.dfy`: whole simulations, from announcing events to the empty queue, in
  one round or in several with resets in between.
- `Limits.dfy`: concrete runs that show where conditions are needed.
- `EventList.dfy`: the ordered map of the C++ class as a sequence of events.
- `EventQueueBom.dfy`: the class `EventQueue`, with the fields of the C++ class
  updated in place, proved against `QueueModel`.
- `EventQueueManager.dfy`: the manager's commands as methods and loops.
- `Sessions.dfy`: every sequence of commands, performed on a real queue object,
  ends in the state of its trace and hands out what the trace says.

The main results: the stamps taken by a batch of events do not depend on the
order of the additions (`Insertion.AnyOrderSameStamps`); no event waits behind a
usable free slot (`Ordering.Tightness`); first come, first served
(`Ordering.FirstComeFirstServed`), and the exact runs that stay orderly
(`Ordering.OrderlyRuns`) or pop in the order of time
(`Ordering.NextComingInTime`); conservation of events and exact counters
(`Ordering.NothingLost`, `Accounting.CurrentGap`); the exact runs whose overall
numbers stay the sums over the types (`Accounting.BalancedRuns`); the exact
outcome of `select` (`RunControl.SelectExactly`, `RunControl.SelectFindsScheduled`)
and the exact cases in which it keeps its promise (`RunControl.SelectPromise`);
`run` as a partition of the drain (`RunControl.RunPartitionsDrain`); and the full
accounting of simulations (`Simulation.SimulationEnds`, `Simulation.RoundsEnd`).

Several behaviours differ from what the code's comments say, and the model follows
the code. `addEvent` touches no counter and moves by milliseconds, although
sevmgr/bom/EventQueue.hpp:251-264 speaks of nanoseconds and of progress statuses.
The retry counter of `addEvent` never changes (sevmgr/bom/EventQueue.cpp:453-463),
so the loop ends by success alone. And `select` looks up a stamp but compares
date-times, so its documented promise (sevmgr/command/EventQueueManager.hpp:81-97)
does not always hold. `Limits.SelectOverlooks`, `Limits.SelectRunsDry`,
`Limits.SelectThrowsOnTheWay`, `Limits.SelectIgnoresOldest` and
`Limits.SelectLeavesEarlier` are concrete failures of five kinds, and
`RunControl.SelectPromise` says, for every queue and every date-time, exactly when the
promise is kept. It reads the note that all events occurring before the selected one are
played (sevmgr/command/EventQueueManager.hpp:93-95) by date-time; read by stamps, the
note holds of every event that select pops up to.

`popEvent` is documented to hand out the next coming event in time
(sevmgr/bom/EventQueue.hpp:235-249). An event can be moved behind one of a later
date-time; `Ordering.NextComingInTime` says in exactly which runs that never happens.

The numbers of a type start again at zero when it is announced again
(sevmgr/bom/EventQueue.cpp:244-246) while its expected number accumulates, so events
run before that stay missing: `Simulation.RoundsEnd` gives the exact gap.

`run` and `select` call the queue's own `popEvent`, so the exception for an event
type without status leaves both loops after the event has been removed; only the
manager's `popEvent` catches it. The model keeps all of these paths.

## Assumptions about StdAir

- The event list is a map ordered by stamp, whose insertion fails on a taken key.
- Moving an event's stamp adds one millisecond and changes nothing else.
- Incrementing a status adds one to its current number; a status built from one
  number n is (0, n, n); the default status is (0, 0, 0), and a status set built
  from a type alone holds default statuses.
- Resetting a status zeroes current and keeps expected. Whether it zeroes actual
  is a parameter of every reset; all results hold for both.
- Date-times are whole microseconds, counted from the oldest date-time; a
  duration in milliseconds is truncated toward zero.
- A conversion from floating point to a count truncates toward zero.
- Event types are the two named in the code, and any number of others.

## Model

| member | source | states |
|---|---|---|
| Probing.FirstFree | sevmgr/bom/EventQueue.cpp:436-466 | the slot that an added event ends in is the least free one at or above the one asked for |
| Probing.BumpBound | sevmgr/bom/EventQueue.cpp:454-462 | an event moves by at most the number of occupied slots at or above the one it asked for |
| StdAir.TotalMilliseconds | sevmgr/bom/EventQueue.cpp:478-481 | the whole milliseconds of a duration, however long, truncated toward zero |
| StdAir.Truncate | sevmgr/bom/EventQueue.cpp:268-277 | the conversion of a number to a count, truncated toward zero |
| Probing.SwapTwo | sevmgr/bom/EventQueue.cpp:436-466 | two requests take the same two slots whichever is served first |
| Probing.FillMoveToFront | sevmgr/bom/EventQueue.cpp:436-466 | serving a later request first changes neither the slots taken in the end nor the total displacement |
| Probing.FillPermuted | sevmgr/bom/EventQueue.cpp:436-466 | the same requests in any order end in the same slots with the same total displacement |
| Insertion.AddEventLands | sevmgr/bom/EventQueue.cpp:436-466 | the stored stamp is the least stamp not taken from the requested one on, at most the queue size further; type, time and content are kept |
| Insertion.AddEventKeepsTheRest | sevmgr/bom/EventQueue.cpp:436-466 | adding keeps every queued event and every counter, and the order of stamps |
| Insertion.SameRequestsSameStamps | sevmgr/bom/EventQueue.cpp:436-466 | event lists that ask for the same stamps, in any order, occupy the same stamps afterwards and are delayed by the same total |
| Insertion.AnyOrderSameStamps | sevmgr/bom/EventQueue.cpp:436-466 | in particular, any permutation of the same events |
| Insertion.DelayIsDisplacement | sevmgr/bom/EventQueue.cpp:436-466 | the total delay of a batch is the sum of the queued stamps afterwards less the sum before and the sum of the stamps asked for |
| Ordering.NothingLost | sevmgr/bom/EventQueue.cpp:368-433 | in every run, the arrivals since the last reset are those popped plus those queued, each exactly once |
| Ordering.Tightness | sevmgr/bom/EventQueue.cpp:382-466 | in every run, each slot between the requested and the actual stamp of a queued event is taken, if it lies above everything popped since the reset |
| Ordering.NewArrivalIsLater | sevmgr/bom/EventQueue.cpp:436-466 | a new event that asks above everything popped gets a later stamp than any earlier arrival that asked for no later a stamp |
| Ordering.CausalOrder | sevmgr/bom/EventQueue.cpp:368-433 | when events are only added above what has been popped, popped stamps strictly increase, all queued stamps lie above them, and arrivals get fair stamps |
| Ordering.LateAddBreaksOrder | sevmgr/bom/EventQueue.cpp:436-466 | an event added at or below a popped stamp is queued at or below a popped stamp, so order is lost |
| Ordering.OrderlyRuns | sevmgr/bom/EventQueue.cpp:368-466 | the runs that are orderly at every point are exactly those in which events are only added above everything popped |
| Ordering.FirstComeFirstServed | sevmgr/bom/EventQueue.cpp:368-466 | in such a run, an earlier arrival with no later a requested stamp is popped first, ties included |
| Ordering.ByRequestAfterAdd | sevmgr/bom/EventQueue.cpp:436-466 | one addition keeps the events in the order of the stamps asked for exactly when no queued event on a skipped slot asked for a later stamp |
| Ordering.TimelyRuns | sevmgr/bom/EventQueue.hpp:235-249 | in causal runs, events leave in the order of the stamps they asked for, at every point, if and only if every addition met that condition |
| Ordering.NextComingInTime | sevmgr/bom/EventQueue.hpp:235-249 | with events entered on time, those are exactly the runs in which the next event popped is always the next one in time, to the millisecond |
| Ordering.OnTimeRequests | sevmgr/bom/EventQueue.cpp:469-495 | when events enter with their date-time as stamp, every event queued or popped asked for the stamp of its own date-time, however far it was moved |
| Totals.TotalSplit | sevmgr/bom/EventQueue.hpp:406-411 | the sum over the per-type statuses does not depend on the order of the types |
| Accounting.EventsConserved | sevmgr/bom/EventQueue.cpp:368-413 | in every run, with throwing and empty pops, overall current is the number of pops since the reset, and with the queue size it makes the number of adds |
| Accounting.CurrentOfType | sevmgr/bom/EventQueue.cpp:244-246 | the current number of a type is its pops since the later of the last reset and the last addStatus for it |
| Accounting.CurrentGap | sevmgr/bom/EventQueue.cpp:396-419 | overall current exceeds the sum over the types by exactly the pops of types without status plus the counts that addStatus overwrote with zero |
| Accounting.PopReportsExactCounts | sevmgr/bom/EventQueue.cpp:326-433 | every returned status set carries the exact pop counts and is made of the two statuses as they stand after the pop; a pop throws exactly on an empty queue or on a type never announced |
| Accounting.RoundingAgrees | sevmgr/bom/EventQueue.cpp:260-277 | truncating the sum agrees with adding the floor exactly when the amount is whole or the sum is not negative |
| Accounting.AddStatusKeepsBalance | sevmgr/bom/EventQueue.cpp:256-279 | addStatus keeps the overall expected and actual numbers equal to the sums over the types exactly when both roundings agree |
| Accounting.BalancedRuns | sevmgr/bom/EventQueue.cpp:256-308 | a run is balanced at every point if and only if each addStatus in it met that condition |
| Accounting.WholeAmountsBalance | sevmgr/command/EventQueueManager.cpp:289-300 | runs with whole amounts are always balanced |
| Accounting.NonNegativeAmountsBalance | sevmgr/bom/EventQueue.cpp:282-308 | runs with non-negative amounts, fractional or not, are always balanced, and no expected or actual number becomes negative |
| Accounting.FractionalCounts | sevmgr/bom/EventQueue.cpp:268-277 | overall expected, and overall actual if nothing else touched it, is the sum of the rounded-down amounts |
| Accounting.FractionalCountsOfType | sevmgr/bom/EventQueue.cpp:260-266 | the same per type, over the whole run and across resets |
| Accounting.ActualOfType | sevmgr/bom/EventQueue.cpp:282-308 | the actual number of a type is what its last updateStatus said plus what was announced later |
| RunControl.PopManyEffect | sevmgr/bom/EventQueue.cpp:368-433 | n pops remove the first n events and count each one overall and, if its type has a status, for its type |
| RunControl.DepartedAfterPops | test/sevmgr/EventQueueManagementTestSuite.cpp:119-143 | n pops let exactly the first n queued events leave, each once and in order |
| RunControl.ReachStops | sevmgr/command/EventQueueManager.cpp:232-241 | the loop pops nothing after a stop, and ends only at a stop or on an empty queue |
| RunControl.ReachMeetsGoal | sevmgr/command/EventQueueManager.cpp:226-243 | the loop ends with an event that meets its goal exactly when one can be reached without a throwing pop |
| RunControl.RunPartitionsDrain | sevmgr/command/EventQueueManager.cpp:226-243 | calling run until done pops exactly what a drain pops, in batches cut after each stop, with as many calls as stops plus one if the last event is no stop |
| RunControl.StopsAreBreakPoints | sevmgr/command/EventQueueManager.cpp:232-241 | when every type has a status, those stops are the break points |
| RunControl.SelectExactly | sevmgr/command/EventQueueManager.cpp:258-273 | after a successful lookup, select ends well exactly when an event of the date-time can be reached, with the first such event; its assertion fails exactly when none is queued and nothing throws |
| RunControl.SelectOldest | sevmgr/command/EventQueueManager.cpp:258-273 | for the oldest date-time select pops nothing and returns true exactly when the first slot is taken |
| PoppingLoops.RunSays | sevmgr/command/EventQueueManager.cpp:226-243 | run pops no break point and no type without status before its last event, and ends at one of these or on an empty queue |
| PoppingLoops.SelectSays | sevmgr/command/EventQueueManager.cpp:246-275 | the outcome of select, read off the queue: no key exactly when the slot is free, an exception exactly at a type without status, success with an event of the date-time, the failed assertion on an empty queue, and no pop for the oldest date-time |
| RunControl.SelectPromise | sevmgr/command/EventQueueManager.hpp:81-97 | for every queue and every date-time, select does what its documentation says, with all events of an earlier date-time played, exactly when: if the date-time is queued, it is not the oldest, its slot is taken, it can be reached without an exception, and no earlier event stands behind one of that date-time; if not, its slot is free |
| RunControl.ScheduledSlotIsTaken | sevmgr/bom/EventQueue.cpp:469-495 | with events entered on time, the lookup never misses a queued event whose date-time lies above everything popped |
| RunControl.SlotTakenExactly | sevmgr/bom/EventQueue.cpp:469-495 | in causal, on-time runs the slot of a queued date-time is taken exactly when everything popped lies below it |
| RunControl.SelectFindsScheduled | sevmgr/command/EventQueueManager.cpp:246-275 | end to end: in such states select returns true with an event of the date-time if and only if one can be reached |
| RunControl.ScheduledSelectPromise | sevmgr/command/EventQueueManager.hpp:81-97 | the same in on-time states above everything popped, where the slot of a queued date-time needs no condition |
| RunControl.CausalSelectPromise | sevmgr/command/EventQueueManager.hpp:81-97 | the same in causal, on-time runs, with the slot condition of a queued date-time replaced by what has been popped |
| RunControl.TimelyRunsPlayAll | sevmgr/command/EventQueueManager.hpp:93-95 | in timely runs of whole-millisecond events no earlier event ever stands behind a later one, so select plays all of them |
| Simulation.TypeProgress | sevmgr/bom/EventQueue.cpp:368-433 | at every point of a simulation, a type shows its planned numbers, and its pops plus its queued events are its added events |
| Simulation.OverallIsTotal | sevmgr/bom/EventQueue.cpp:256-279 | at every point of a simulation, the overall triple is the sum of the per-type triples |
| Simulation.SimulationEnds | sevmgr/bom/EventQueue.hpp:49-66 | once everything is loaded, the queue is done exactly when every type shows current = expected = actual = planned, and exactly when overall current reaches overall expected |
| Simulation.DrainFinishes | test/sevmgr/EventQueueManagementTestSuite.cpp:113-143 | draining a loaded simulation always ends with an empty queue and current = expected = actual = planned everywhere |
| Simulation.SimulationReports | sevmgr/bom/EventQueue.cpp:418-432 | no pop of a simulation throws, and each reports the exact numbers run so far |
| Simulation.AddsAccounted | sevmgr/bom/EventQueue.cpp:118-132 | in every run, with repeated announcements and resets, the events added of a type are those its current number shows, those queued, and those forgotten: overwritten by addStatus, or zeroed or thrown away by reset |
| Simulation.ProgressGap | sevmgr/bom/EventQueue.cpp:244-252 | in every run, expected minus current of a type is what was announced and not added, plus what is queued, plus what was forgotten |
| Simulation.RoundsEnd | test/sevmgr/EventQueueManagementTestSuite.cpp:156-208 | at the end of any number of rounds, expected minus current is exactly the forgotten events, and they agree exactly when none is queued and none forgotten |
| Simulation.OverallGap | sevmgr/bom/EventQueue.cpp:118-132 | overall, expected minus current is what was announced beyond the arrivals since the last reset, plus what is queued |
| Simulation.OneRoundForgetsNothing | sevmgr/bom/EventQueue.cpp:256-279 | with one announcement per type and no reset nothing is forgotten |
| Limits.NegativeFractionUnbalances | sevmgr/bom/EventQueue.cpp:260-277 | a concrete negative fraction that unbalances a fresh queue |
| Limits.SelectOverlooks | sevmgr/command/EventQueueManager.cpp:250-257 | a concrete run after which select misses a queued event of the date-time |
| Limits.SelectRunsDry | sevmgr/command/EventQueueManager.cpp:263-272 | a concrete run after which select empties the queue and fails its assertion |
| Limits.SelectThrowsOnTheWay | sevmgr/command/EventQueueManager.cpp:265-270 | a concrete run after which select throws before it reaches a queued event of the date-time |
| Limits.SelectIgnoresOldest | sevmgr/command/EventQueueManager.cpp:260-272 | a concrete run after which select returns true for the oldest date-time without handing out the event queued there |
| Limits.SelectLeavesEarlier | sevmgr/command/EventQueueManager.hpp:93-95 | a concrete causal run after which select succeeds and leaves an event of an earlier date-time in the queue |
| Limits.LateArrivalOvertakes | sevmgr/bom/EventQueue.cpp:436-466 | without causality, an event added at the stamp just popped passes the whole queue; the history is not orderly, and each event passed that asked for no later a stamp is treated unfairly |
| EventList.ListingUnique | sevmgr/bom/EventQueue.cpp:382-391 | an ordered map lists its events in one way only, so the value of a queue is determined by its fields |
| EventList.ProbedAdd | sevmgr/bom/EventQueue.cpp:436-466 | storing under the first free key is what adding means for the listed events |
| EventQueueBom.EventQueue.AddEvent | sevmgr/bom/EventQueue.cpp:436-466 | always terminates with success on the least free stamp; only that key is added and no counter moves |
| EventQueueBom.EventQueue.PopEvent | sevmgr/bom/EventQueue.cpp:368-433 | hands out and removes the least-stamped event, counts it overall first, then for its type, and reports the very statuses it has stored; or throws as the code does, leaving the event of the caller untouched on an empty queue |
| EventQueueBom.EventQueue.SetStatus | sevmgr/bom/EventQueue.cpp:310-323 | replaces the status of a known type only |
| EventQueueBom.EventQueue.UpdateStatusWith | sevmgr/bom/EventQueue.cpp:216-253 | inserts a first status, or takes over the current number and accumulates the others |
| EventQueueBom.EventQueue.AddStatus | sevmgr/bom/EventQueue.cpp:256-279 | sets current of the type to 0 and adds the floor to its other numbers; adds the amount to the overall numbers and truncates |
| EventQueueBom.EventQueue.UpdateStatus | sevmgr/bom/EventQueue.cpp:282-308 | replaces the actual number of a known type and moves the overall one by the difference; does nothing for an unknown type |
| EventQueueBom.EventQueue.Reset | sevmgr/bom/EventQueue.cpp:118-132 | empties the list, and zeroes current and keeps expected overall and for every type |
| EventQueueBom.EventQueue.GetQueueSize | sevmgr/bom/EventQueue.cpp:102-104 | the number of keys of the map is the number of queued events |
| EventQueueBom.EventQueue.HasProgressStatus | sevmgr/bom/EventQueue.cpp:135-153 | true exactly when the type has a status |
| EventQueueBom.EventQueue.IsQueueDone | sevmgr/bom/EventQueue.cpp:112-115 | true exactly when no event is queued |
| EventQueueBom.EventQueue.HasEventDateTime | sevmgr/bom/EventQueue.cpp:469-495 | true exactly when some event is stored under the millisecond stamp of the date-time |
| EventQueueManager.PopEvent | sevmgr/command/EventQueueManager.cpp:192-223 | pops through the catch path: same effect on the queue, and on an exception a set of zeros for booking requests |
| EventQueueManager.Run | sevmgr/command/EventQueueManager.cpp:226-243 | takes events off the front up to the first break point or exception and hands out the last of them, or leaves the event of the caller untouched |
| EventQueueManager.Select | sevmgr/command/EventQueueManager.cpp:246-275 | takes off as many events as SelectSays describes, has the outcome described there, and hands out the last event, of the date-time asked for on success, or leaves the event of the caller untouched |
| EventQueueManager.RunUntilDone | test/sevmgr/EventQueueManagementTestSuite.cpp:194-212 | calling run until the queue is done hands out the last events of the batches, one for each call, and leaves the queue as a drain does |
| EventQueueManager.PopAll | test/sevmgr/EventQueueManagementTestSuite.cpp:119-143 | the drain loop returns every queued event once in strictly increasing stamp order, and its count is the initial queue size |
| Sessions.Perform | sevmgr/service/SEVMGR_Service.cpp:397-528 | any sequence of commands on a new queue object ends in the state of its trace and hands out, command by command, what the rows below describe |
| Sessions.AddOutput | sevmgr/command/EventQueueManager.cpp:141-148 | an addition hands out the event that has joined the queue, moved at most |
| Sessions.PopOutput | sevmgr/command/EventQueueManager.cpp:192-223 | a pop hands out the event that has left the queue with the statuses as they now stand, or the zeros of the catch path |
| Sessions.RunOutput | sevmgr/command/EventQueueManager.cpp:226-243 | a run hands out the last event that has left the queue, or the one of the caller, and throws exactly at a type without status |
| Sessions.SelectOutput | sevmgr/command/EventQueueManager.cpp:246-275 | a selection hands out the last event that has left the queue, or the one of the caller; on success for any other than the oldest date-time it has that date-time |
| Sessions.AskOutput | sevmgr/command/EventQueueManager.cpp:127-138 | the question for a status is answered by whether one was ever added in the run |
| Sessions.ManagerSessionsBalance | sevmgr/command/EventQueueManager.cpp:278-300 | every session whose counts go through the manager has whole amounts only and is balanced |

## Left out

- Machine arithmetic: counts and stamps are unbounded integers and amounts are exact reals, so neither overflow nor rounding of doubles is modelled.
- Raw setters of the overall status (sevmgr/bom/EventQueue.hpp:140-165) and outside calls of the two status-taking members: they can set anything and no manager command reaches them; runs do not contain them.
- The pass-through getters, `calculateProgress` and their missing-type assertions: one-line reads of the fields.
- `buildSampleQueue` and the sample booking requests: fixed data built by StdAir.
- Event contents are an opaque handle; sharing of the contents between copies of an event is not modelled.
- `list`, `display`, `toString`, JSON export and logging: text formatting.
- `SEVMGR_Service`, its context, the factories and the Python binding: null checks and delegation.
- The command-line program and the demonstration batch: parsing and console output.
- Keys, parents and the holder map of the queue object: no modelled operation uses them.
