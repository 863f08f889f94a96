# Verified models of the jordan device tree's state machines

Dafny models of six self-contained parts of the Motorola Defy (jordan) device tree, with proofs about them.
`dafny verify dfyconfig.toml` checks all of it.

| part | files |
|---|---|
| "sio" I/O scheduler: four deadline FIFOs, batches and a starvation counter | `SioQueues`, `SioModel`, `SioOrder`, `SioMerges`, `SioRuns`, `SioFairness`, `SioWaiting`, `SioLeastWait`, `SioStarvation`, `SioConservation`, `SioTimeline`, `SioScheduler` |
| sensor event pipeline: mirrored ring buffer, sync-driven demultiplexer, poll loop | `EventRing`, `SensorStreams`, `SensorDrivers`, `SingleSensor`, `PollLoop`, `PollShortcut`, `PollWaiting`, `PollRounds`, `PollReceived`, `PollShares`, `PollContext` |
| ARM function hooking: a branch word, a trampoline and a toggle | `Arm`, `Hooking`, `Trampoline` |
| "boosted" CPU frequency governor | `FrequencyTable`, `Boosted` |
| CPU frequency statistics | `FreqStats`, `FreqHistory` |
| Bluetooth glue: address text, and a reference count in a shared file | `BtAddress`, `RefCount` |
| shared by several parts: the word size and an optional value | `Basics` |

Each part has a value-level model (functions on states, and runs of steps), classes whose methods update fields and
arrays in place and are proved to do what those functions say, and lemmas over all inputs and all runs of the functions.
A method that changes state says `View() == Step(old(View()), ...)` or the like; what the source promises about that step
is proved once, about the function.

## Main results

- Scheduler: every list stays in deadline order under additions, merges, time and dispatches, so looking at four heads
  finds an expired request exactly when there is one. No request is lost or duplicated. A merge takes `next` out; if it
  was queued and due before `rq`, which was queued too, `rq` gets its place and its deadline, and else stays where it was.
- Scheduler, waiting: over all runs from `sio_init_queue`, whatever is added or merged meanwhile, the dispatches that a
  request at a given position can wait for are bounded if and only if it is an asynchronous write that is overdue; or a
  synchronous read, with `fifo_batch` ≥ 2, or `fifo_batch` = 1 and `writes_starved` ≥ 1; or a synchronous write, with
  `writes_starved` + 2 ≤ `fifo_batch`. An asynchronous read can always be made to wait for any number, even an overdue one. An
  overdue asynchronous write at position p waits for at most p·(fifo_batch+1) + (fifo_batch+2−batched) dispatches, and in
  some run for exactly that many. For synchronous requests the least bound is the value of a game on the two counters: a
  number bounds the wait over all runs if and only if no counters make `Longest` exceed it. At the head of its list, with
  `fifo_batch` ≥ 2, that is 3 for a synchronous read, 4 if `writes_starved` is 0, and 2 if all its bits are set.
- Scheduler, order: each request stays in the list of its class throughout a run if and only if no merge moves one across
  lists. Then a class is sent in the order of submission, except that a merge deletes `next` and, if `next` is due first,
  puts `rq` in its place; the requests that merges do not name keep their order and their deadlines.
- Scheduler, starvation: from any state that a run from `sio_init_queue` can reach, one direction can shut the other out
  for exactly so long: writes shut out a waiting read for 2 dispatches, reads a waiting write for `writes_starved`+2, or
  for one more when `fifo_batch`+1 divides `writes_starved`+2. There is no bound at all, in either direction, with
  `fifo_batch` 0, which sysfs admits. `sio_init_queue` never sets `writes_starved`: with all bits set, or with
  2^32−2 and a `fifo_batch`+1 that divides 2^32, reads shut writes out for ever (and writes shut reads out for one
  dispatch only, if all bits are set). With the default batch only the former happens; 2^32−2 then gives 2^33−1.
- Sensors: the ring is a FIFO queue; neither ring boundaries, nor read sizes, nor buffer sizes, nor the turns the drivers
  take change the stream that each driver delivers, and clearing a flag strands nothing. A sync sends, in sensor order, one
  event for each enabled sensor touched since the last sync, each field holding the latest value read for it; so do the
  drivers with one sensor, at every sync.
- Sensors, where it fails: a call that takes the temperature shortcut leaves unread events behind a clear flag, unless
  there are none, the drivers before it leave it at most one place in the buffer, or `poll` reports the device again in
  the same call. An application that switches the temperature on between two calls gets there.
- Sensors, waiting: a call waits in the `read` of a driver if and only if the driver loop comes to it with room left, its
  flag is up and it has no pending temperature, its ring has room and its device has nothing. If `poll` only reports
  devices that have something to read, then without a pending temperature no call that has produced an event waits, in
  `poll` or in `read`. With one, a call can be left waiting with an event produced and more of them in the ring.
- Sensors, in any session: with sensors switched and shortcuts taken, each driver with one sensor has at any time sent a
  prefix of its stream, all of it when its flag is clear. So has the compass, of each sensor that is not switched, the
  temperature excepted, and all of it when its ring is empty.
- Sensors, failing calls: a call whose rounds leave room in the buffer and wait in no `read` does exactly what the four
  drivers do alone, however the buffer is shared. So the rounds tell when `poll` fails and what was written by then. Over
  any session whose calls have come back or written nothing, the caller gets everything that was sent if and only if in no
  call the first answer that is not positive is a failure, after rounds that pass and of which one finds a driver with an
  event to hand out: a pending temperature, or, behind a raised flag, a sync (for the compass one that finds an enabled
  sensor touched). An application loses the temperature in this way. If `poll` never fails and only reports devices that
  have something to read, nothing is missed from a fresh start without a pending temperature.
- Hooking: the patched word reaches its replacement exactly when that is word-aligned and within branch range; the
  trampoline does what the original did; after any toggles the code is the original or exactly the patched one,
  the latter if and only if the last well-formed write was not zero.
- Hooking, where it fails: over all tables, targets and surrounding code, the trampoline keeps the meaning of a first
  instruction (a branch, a load of the PC, or one that goes on to the next word) if and only if that does not use the PC or
  is a branch to the next word. Any other branch goes astray by the distance of the trampoline from the target, modulo
  2^32, and it or a load of the PC has surroundings in which the trampoline fails.
- Governor: the frequency set is the usable entry that the preference picks for the clamped request, or, if that is the
  old one and the preference holds back, the one that the opposite preference picks; and so for each ramp-up and
  ramp-down. A real request moves strictly to the side asked for, and repeated ones converge to the limit. The "should
  not get here" branch is reached exactly when the current frequency is a usable entry with none beyond it, for instance
  when a limit lies between two entries. A ramp-up step rises exactly when the sum fits an `int`, a ramp-down step below the
  ideal speed sinks exactly when the difference does. Enough ramp-ups always end at the maximum if and only if the step
  still fits an `int` there (or the limits are equal), and likewise downwards at the minimum.
- Statistics: each state has exactly the time that passed while it was the current one, and each cell the number of
  changes from its row to its column, read off the history of notifications. State i is left as often as it is entered,
  up to the first and the current state; the times add up to the time since creation. The built table is complete exactly when the kernel's table does not list frequency 0.
- Bluetooth: parsing inverts printing on every address, and printing inverts parsing exactly on canonical text. The
  reference count never exceeds the increments written, and is the zero-floored difference of increments and decrements,
  overlapping or not, when no write is based on an outdated read; for increments alone it is exact if and only if that is
  so. Calls that do not overlap make no such write; the locks do not prevent it.

## Model

| member | source | states |
|---|---|---|
| SioScheduler.Scheduler.InitQueue | modules/overclock/sio-iosched.c:245-270 | four empty lists, the default expiries and batch size; `starved` and `writes_starved` are whatever bits were there; all invariants hold; runs are counted from this state |
| SioScheduler.Scheduler.AddRequest | modules/overclock/sio-iosched.c:70-83 | the request joins the tail of its class with deadline now plus the expiry of the class, and nothing else changes |
| SioScheduler.Scheduler.MergedRequests | modules/overclock/sio-iosched.c:51-68 | the list operations are the merge: `next` is gone; if it was due first, and both were queued, `rq` has the place that `next` has once `rq` is taken out, and its deadline; else `rq` is where it was |
| SioMerges.MergesAsPromised | modules/overclock/sio-iosched.c:55-67 | the merge of the specification, read off the lists: which request stands where, with which deadline, in each of the four lists |
| SioScheduler.SpliceIsSubstitution | modules/overclock/sio-iosched.c:59-67 | moving `rq` behind `next`, stamping it and deleting `next` is substituting it for `next` |
| SioScheduler.MergeByHand | modules/overclock/sio-iosched.c:51-68 | the same over all four lists, for requests in any of them |
| SioScheduler.Scheduler.QueueEmpty | modules/overclock/sio-iosched.c:85-95 | true exactly when every class is empty |
| SioScheduler.Scheduler.ExpiredRequest | modules/overclock/sio-iosched.c:97-114 | the head of the list if its deadline has passed, else none |
| SioScheduler.Scheduler.ChooseExpiredRequest | modules/overclock/sio-iosched.c:116-141 | the head of the class that the specification chooses among the expired ones |
| SioScheduler.Scheduler.ChooseRequest | modules/overclock/sio-iosched.c:143-165 | the head of the class that the specification chooses for the wanted direction |
| SioScheduler.Scheduler.DispatchRequest | modules/overclock/sio-iosched.c:167-183 | the head leaves its list for the device queue, and both counters are brought up to date |
| SioScheduler.Scheduler.RetrieveRequest | modules/overclock/sio-iosched.c:192-208 | the head of the class that the specification chooses, an expired one first when a check is due |
| SioScheduler.Scheduler.DispatchRequests | modules/overclock/sio-iosched.c:185-215 | one dispatch step; returns 0 exactly when all four lists are empty, else 1, and that many requests reach the device queue |
| SioOrder.MergedMembers | modules/overclock/sio-iosched.c:51-68 | who is in each list after a merge, and that distinctness and deadline order survive it |
| SioOrder.StepKeepsInv | modules/overclock/sio-iosched.c:51-83 | every operation keeps deadline order, unique identities and the counter bounds |
| SioOrder.RunKeepsInv | modules/overclock/sio-iosched.c:51-215 | deadline order holds in every reachable state, under fixed expiries and monotone time, merges across lists included |
| SioOrder.HeadsSuffice | modules/overclock/sio-iosched.c:97-141 | inspecting heads finds an expired request exactly when one exists anywhere, in the first class by priority that has one |
| SioOrder.ChoosesFirstInServiceOrder | modules/overclock/sio-iosched.c:143-165 | an ordinary choice is the first non-empty class: wanted direction, then synchronous; none exactly when all are empty |
| SioFairness.DispatchMovesUp | modules/overclock/sio-iosched.c:185-215 | a dispatch sends the overdue write, moves it up at an expiry check, or brings the next check closer |
| SioFairness.OthersKeepPlace | modules/overclock/sio-iosched.c:51-83 | additions, merges and time push no request of any class back, and give none a later deadline |
| SioFairness.StepSpendsRank | modules/overclock/sio-iosched.c:97-141 | the waiting formula is a ranking function: every dispatch lowers it, nothing raises it |
| SioFairness.BoundedWaiting | modules/overclock/sio-iosched.c:167-215 | an overdue asynchronous write is dispatched within p·(fifo_batch+1) + (fifo_batch+2−batched) dispatches of any run |
| SioWaiting.WaitExactly | modules/overclock/sio-iosched.c:116-215 | for every setting, class and position: a number bounds the wait over all runs from the initial state if and only if the class is one of those listed above, under its condition |
| SioWaiting.SynchronousWait | modules/overclock/sio-iosched.c:143-215 | under its condition a synchronous read at position p goes out within 4·(p+1) dispatches, a synchronous write within (fifo_batch+writes_starved+4)·(p+1) |
| SioWaiting.AnyWaitHappens | modules/overclock/sio-iosched.c:116-165 | without the condition, a run from the initial state makes a request at any position wait for any number of dispatches |
| SioWaiting.BoundIsReached | modules/overclock/sio-iosched.c:192-208 | for every position and value of `batched`, a run from the initial state in which an overdue asynchronous write is still waiting one dispatch short of the bound |
| SioWaiting.OverdueWriteWaitExactly | modules/overclock/sio-iosched.c:185-215 | a number bounds the wait of overdue asynchronous writes at position p if and only if it is at least p·(fifo_batch+1)+fifo_batch+2 |
| SioLeastWait.SynchronousWaitExactly | modules/overclock/sio-iosched.c:143-215 | for every setting under the condition, both synchronous classes and every position: a number bounds the wait over all runs from the initial state if and only if it is at least the longest wait that any values of the two counters allow |
| SioLeastWait.Play | modules/overclock/sio-iosched.c:116-215 | from any values of the counters a run of additions, time and dispatches keeps the request waiting for exactly that long |
| SioLeastWait.HeadWaitExactly | modules/overclock/sio-iosched.c:185-215 | with a batch of at least two, the least bound for a synchronous read at the head is 2, 3 or 4, by `writes_starved` |
| SioStarvation.DispatchSpendsCredit | modules/overclock/sio-iosched.c:185-215 | a dispatch in one direction while the other waits uses up exactly one unit of its credit, the counter wraps included |
| SioStarvation.StarvationBounds | modules/overclock/sio-iosched.c:143-215 | at most 2 writes while a read waits; at most `writes_starved`+2 reads while a write waits (+3 when the counter wraps there) |
| SioRuns.CountersReached | modules/overclock/sio-iosched.c:245-270 | runs from the initial state reach every value of `batched` and `starved`, with all lists empty |
| SioStarvation.WorstCaseHappens | modules/overclock/sio-iosched.c:185-215 | the longest shut-out that the bound allows happens, in a run from the initial state |
| SioStarvation.AnyLengthHappens | modules/overclock/sio-iosched.c:192-204 | without `Bounded`, shut-outs of every length happen, in either direction |
| SioStarvation.ShutOutExactly | modules/overclock/sio-iosched.c:185-215 | for every setting and direction: a number bounds all shut-outs of all runs if and only if `Bounded` holds and it is at least the worst case |
| SioStarvation.DefaultBatchIsBounded | modules/overclock/sio-iosched.c:245-270 | with the default batch size, only an uninitialised `writes_starved` of all ones, and only for reads, leaves no bound |
| SioConservation.DispatchSendsHead | modules/overclock/sio-iosched.c:167-215 | a dispatch sends the head of one list and touches nothing else; it idles only when all lists are empty |
| SioConservation.StepAccounts | modules/overclock/sio-iosched.c:51-83 | each operation keeps the books: queued, dispatched or merged away, exactly one of them |
| SioConservation.Conservation | modules/overclock/sio-iosched.c:51-215 | over any run each added request is queued in one list, dispatched once, or merged away |
| SioTimeline.MergeKeepsClass | modules/overclock/sio-iosched.c:59-64 | requests stay in the list of their class if and only if the merge does not move one across lists |
| SioTimeline.ClassesStayApart | modules/overclock/sio-iosched.c:51-215 | throughout a run every request stays in the list of its class if and only if no merge of the run moves one across lists |
| SioTimeline.MergeEditsTimeline | modules/overclock/sio-iosched.c:51-68 | in the order in which a class is sent, a merge removes `next`, and puts `rq` in its place if `next` was due first |
| SioTimeline.TimelineIsReplayed | modules/overclock/sio-iosched.c:51-215 | over any run without cross-list merges, the order of a class is its additions, edited by its merges, and by nothing else |
| SioTimeline.ClassesAreFifo | modules/overclock/sio-iosched.c:51-83 | over any run without cross-list merges: leaving out the requests that merges name, what a class sent and holds is what it held and was given, in order, with its deadlines |
| SioTimeline.WithoutMergesPureFifo | modules/overclock/sio-iosched.c:70-83 | without merges, what a class sent followed by what it holds is what was added to it, in order, with its deadlines |
| EventRing.InputEventCircularReader.constructor | libsensors/InputEventReader.cpp:35-42 | an empty queue with room for the given number of events |
| EventRing.InputEventCircularReader.Fill | libsensors/InputEventReader.cpp:49-72 | appends exactly the events read; on an error, a torn event or a full buffer the queue is unchanged and the status says so |
| EventRing.InputEventCircularReader.Commit | libsensors/InputEventReader.cpp:60-68 | the copy-back makes the stored events the newest ones without touching an unread one |
| EventRing.StoredInPlace | libsensors/InputEventReader.cpp:60-62 | events stored before the end follow the unread ones, wrapped or not |
| EventRing.CopiedBack | libsensors/InputEventReader.cpp:63-67 | events stored across the end follow the unread ones once copied back, even when the head rests on the end |
| EventRing.InputEventCircularReader.ReadEvent | libsensors/InputEventReader.cpp:74-79 | 1 exactly when something is unread, pointing at the oldest event |
| EventRing.InputEventCircularReader.Next | libsensors/InputEventReader.cpp:81-88 | removes exactly the oldest event |
| SensorDrivers.SensorAK8973.constructor | libsensors/SensorAK8973.cpp:37-67 | nothing enabled, pending or unread |
| SensorDrivers.SensorAK8973.ProcessEvent | libsensors/SensorAK8973.cpp:235-320 | sets the pending bit of the code's sensor and the one field the code stands for |
| SensorDrivers.SensorAK8973.FlushSensors | libsensors/SensorAK8973.cpp:201-213 | the inner loop is `Flush`, appended to the caller's buffer |
| SensorDrivers.SensorAK8973.VisitSensor | libsensors/SensorAK8973.cpp:204-212 | one sensor: its bit goes, and its stamped event is appended if it is enabled |
| SensorDrivers.SensorAK8973.Handle | libsensors/SensorAK8973.cpp:197-222 | one round of the loop leaves the outcome of the drain unchanged and makes progress |
| SensorDrivers.SensorAK8973.Sync | libsensors/SensorAK8973.cpp:201-216 | a sync is taken off the queue exactly when no bit is left pending; the outcome of the drain does not change |
| SensorDrivers.SensorAK8973.Enable | libsensors/SensorAK8973.cpp:73-127 | which sensors are enabled afterwards, and when an event is left pending |
| SensorDrivers.SensorAK8973.ReadEvents | libsensors/SensorAK8973.cpp:176-225 | one drain of everything unread; the shortcut, read errors and bad counts as the code has them; it terminates |
| SensorStreams.PendingMeansTouched | libsensors/SensorAK8973.cpp:197-217 | a sensor is pending exactly when one of its codes came since the last sync, or before with no sync yet |
| SensorStreams.SyncSendsLatest | libsensors/SensorAK8973.cpp:197-217 | a sync adds, in sensor order, one event for each enabled sensor touched since the last sync, stamped with its time, each field holding the latest value for its code |
| SensorStreams.AccelerometerReads | libsensors/SensorAK8973.cpp:241-263 | which code each axis of the acceleration is read from |
| SensorStreams.MagneticFieldReads | libsensors/SensorAK8973.cpp:265-276 | which code each axis of the magnetic field is read from |
| SensorStreams.OrientationReads | libsensors/SensorAK8973.cpp:278-309 | which code each angle of the orientation is read from |
| SensorStreams.AccuraciesRead | libsensors/SensorAK8973.cpp:257-309 | which codes the two accuracies are read from, held to two bits |
| SensorStreams.TemperatureReads | libsensors/SensorAK8973.cpp:311-315 | which code the temperature is read from |
| SensorStreams.CodesOfSensors | libsensors/SensorAK8973.cpp:241-315 | which codes touch which sensor |
| SensorStreams.FieldsHoldLatest | libsensors/SensorAK8973.cpp:235-320 | each field of each sensor holds the value of the latest input event with its code |
| SensorStreams.FlushKeepsSnapshot | libsensors/SensorAK8973.cpp:203-216 | an interrupted flush leaves exactly the rest of the snapshot, and leaves something only when the buffer is full |
| SensorStreams.DrainStaysOnTheWay | libsensors/SensorAK8973.cpp:189-224 | what a drain leaves completes what it emitted to the one-pass stream; a short drain has emptied the queue |
| SensorStreams.CallStaysOnTheWay | libsensors/SensorAK8973.cpp:189-224 | each call emits the next stretch of the one-pass stream, at most `count` events of it |
| SensorStreams.ChunkIndependence | libsensors/SensorAK8973.cpp:189-224 | over any calls with any reads and counts the output is a prefix of the one-pass stream, all of it once drained |
| SensorStreams.ShortcutSendsLatest | libsensors/SensorAK8973.cpp:182-187 | the shortcut sends the latest temperature read, with the time of the call |
| SensorStreams.LastSwitchDecides | libsensors/SensorAK8973.cpp:73-127 | after any switches a sensor is enabled as the last one for it that the chip accepted says |
| SensorStreams.ShortcutKeepsStream | libsensors/SensorAK8973.cpp:182-187 | the temperature shortcut does not change the stream still owed |
| SingleSensor.Sensor.constructor | libsensors/SensorKXTF9.cpp:30-49 | an empty ring; the KXTF9 driver leaves the unset fields of its event as they were in memory |
| SingleSensor.Sensor.ProcessEvent | libsensors/SensorKXTF9.cpp:141-164 | sets the one field the code stands for; other codes are dropped |
| SingleSensor.Sensor.ReadEvents | libsensors/SensorKXTF9.cpp:105-139 | one pass over everything unread up to a full buffer; errors and bad counts change nothing |
| SingleSensor.SyncSendsLatestAxes | libsensors/SensorKXTF9.cpp:116-164 | at every sync, and only then, the stream gets one event: same sensor and accuracy, the time of the sync, each axis holding the latest value read for it |
| SingleSensor.ServedNext | libsensors/SensorKXTF9.cpp:116-138 | each call emits the next stretch of the stream with one event per sync; a short one has emptied the queue |
| SingleSensor.SinglePassAppends | libsensors/SensorISL29030.cpp:98-135 | reading input in two parts gives the stream of the whole |
| PollContext.SensorsPollContext.PollEvents | libsensors/nusensors.cpp:165-208 | over the driver objects with their rings: the call is `Poll`, waits in `read` included; the buffer holds its events without gaps, the result is their number |
| PollContext.SensorsPollContext.SweepDrivers | libsensors/nusensors.cpp:171-184 | the driver loop is `Sweep`, and stops at the driver whose read waits; produced plus room is constant |
| PollContext.SensorsPollContext.ReadDriver | libsensors/nusensors.cpp:174-183 | one driver's events go right behind those already there, and its flag clears on a short read; nothing happens while its read waits |
| PollContext.SensorsPollContext.ReadEventsOf | libsensors/nusensors.cpp:175-175 | the driver replies as its specification says, taking from the device what its ring has room for, or waits, exactly when the ring has room, the device has nothing and no temperature is pending; the other drivers are untouched |
| PollContext.SensorsPollContext.EnableCompass | libsensors/nusensors.cpp:137-153 | switching a sensor of the compass chip is the `Enable` act of a session |
| PollContext.SensorsPollContext.Await | libsensors/nusensors.cpp:186-205 | `poll` is called only with room left, waits without limit only while nothing was produced, and replaces all flags |
| PollLoop.ShortReadEmptiesRing | libsensors/nusensors.cpp:175-179 | a driver that returns less than it had room for has an empty ring |
| PollLoop.SweepStrandsNothing | libsensors/nusensors.cpp:171-190 | with room left after the driver loop every ring is empty, so overwriting the flags loses nothing |
| PollLoop.PollStrandsNothing | libsensors/nusensors.cpp:165-208 | a driver whose flag is clear has an empty ring, whatever `poll` reports |
| PollShortcut.ShortcutStrandsExactly | libsensors/nusensors.cpp:165-208 | a call with a pending temperature leaves no unread event behind a clear flag if and only if the ring is empty, at most one place is left for the driver, or `poll` reports it in this call |
| PollShortcut.ShortcutSweep | libsensors/nusensors.cpp:171-184 | what the driver loop leaves of a driver that takes the shortcut, by the room it finds |
| PollShortcut.ShortcutCanStrand | libsensors/SensorAK8973.cpp:182-187 | four acts of an application that end with a reading unread behind a clear flag |
| PollLoop.BlocksOnlyEmptyHanded | libsensors/nusensors.cpp:186-205 | `poll` is left to wait without a time limit only while the call has produced nothing; a call that returns has events or a full buffer |
| PollWaiting.WaitsExactly | libsensors/InputEventReader.cpp:49-53 | the driver loop waits in the `read` of driver `i` if and only if it comes there with room left, the flag is up, no temperature is pending, the ring has room and the device has nothing |
| PollWaiting.CallWaitsFirst | libsensors/nusensors.cpp:165-208 | a call without a pending temperature waits in a `read` only before it has done anything, if what `poll` reports is true |
| PollWaiting.SessionWaitsEmptyHanded | libsensors/nusensors.cpp:165-208 | over any session without a pending temperature no call that has produced an event waits, in `poll` or in `read`, if what `poll` reports is true |
| PollWaiting.WaitsWithEventProduced | libsensors/SensorBase.cpp:106-106 | a session from a fresh start whose last call waits in `read` with one event produced and unread ones in the ring of that very driver |
| PollRounds.ReadsAsAlone | libsensors/nusensors.cpp:175-179 | a driver with too little room fills it; with room enough it replies with the whole rest of its one-pass stream |
| PollRounds.SweepAsAlone | libsensors/nusensors.cpp:171-184 | the driver loop leaves room and waits nowhere if and only if the four drivers' streams for the round fit and none must wait; then it does what they do alone |
| PollRounds.FailsExactly | libsensors/nusensors.cpp:186-194 | `poll` fails in a call if and only if the rounds say so: all answers before are positive and all rounds pass; what was written by then is what the rounds say |
| PollRounds.SpeaksExactly | libsensors/SensorAK8973.cpp:176-224 | a driver alone hands out an event if and only if a temperature is pending, or its flag is up and its input has a sync, for the compass one that finds an enabled sensor touched |
| PollRounds.LosesExactly | libsensors/nusensors.cpp:165-208 | a call fails with events written if and only if, after rounds that pass with positive answers, `poll` fails and in one of the rounds a driver had an event to hand out |
| PollReceived.ReceivedIsTheRest | libsensors/nusensors.cpp:190-194 | over any session, switches and shortcuts included, the caller gets, in order, everything that was sent except at the places that the rounds of the failing calls tell |
| PollReceived.ReceivedAllExactly | libsensors/nusensors.cpp:190-194 | over any such session the caller gets everything that was sent if and only if the rounds of no call make it lose something |
| PollReceived.NothingIsMissed | libsensors/nusensors.cpp:165-208 | from a fresh start without a pending temperature, with a `poll` that never fails and tells the truth, the caller gets everything that is sent |
| PollReceived.ReceivedEndToEnd | libsensors/nusensors.cpp:165-208 | if no call loses anything, what the caller gets of each driver is a prefix of its one-pass stream, all of it when its flag is clear |
| PollReceived.FailureLosesTemperature | libsensors/nusensors.cpp:190-194 | a session from a fresh start within the domain of the equivalence: a call that `poll` fails in after the temperature shortcut; the event is neither received nor pending any more |
| PollShares.OnePassOf | libsensors/SensorAK8973.cpp:201-213 | the share of one sensor in the compass stream depends on no other sensor's switch |
| PollShares.ShortcutStaysInStep | libsensors/SensorAK8973.cpp:182-187 | the temperature shortcut leaves what is owed of every other sensor unchanged |
| PollShares.SinglesEndToEnd | libsensors/nusensors.cpp:137-208 | over any session of calls and switches, a driver with one sensor has sent a prefix of its one-pass stream, all of it when its flag is clear |
| PollShares.CompassEndToEnd | libsensors/nusensors.cpp:137-208 | over any session, of each sensor that it does not switch, the temperature excepted, the compass has sent a prefix of that sensor's share of the one-pass stream, all of it when its ring is empty |
| PollLoop.FaithfulMeansPrefix | libsensors/SensorAK8973.cpp:189-224 | a driver in step has sent a prefix of its reference stream, all of it once its ring is empty |
| PollLoop.EndToEnd | libsensors/nusensors.cpp:165-208 | over any session each driver's share of the output is a prefix of its one-pass stream, all of it when its flag is clear |
| Arm.BranchLands | modules/backlight/hook.c:72-73 | the patched word sends the processor to `newfunc` if and only if that is word-aligned and within branch range, in 32-bit arithmetic |
| Hooking.PatchStep | modules/backlight/hook.c:49-83 | hooking one entry arms it and changes nothing but its target and its table fields |
| Hooking.UnpatchStep | modules/backlight/hook.c:85-92 | unhooking one entry restores its target and nothing else |
| Hooking.PatchAllPatches | modules/backlight/hook.c:94-104 | hooking the table patches every resolved entry and leaves unresolved ones and all other code alone |
| Hooking.UnpatchAllRestores | modules/backlight/hook.c:106-113 | unhooking the table restores all code |
| Hooking.HookRoundTrip | modules/backlight/cpcap-bright.c:202-219 | after any toggles: unhooked, all code is original; hooked, it differs only at resolved targets, each holding its branch |
| Hooking.HooksWhatItNames | modules/backlight/hook.c:52-73 | an entry hooks the address it holds, else the one its name stands for, else nothing; no other code changes |
| Hooking.LastWriteDecides | modules/backlight/cpcap-bright.c:208-216 | after any writes the kernel is hooked if and only if the last well-formed one is not zero, or there is none and it was |
| Hooking.WritesDecideCode | modules/backlight/cpcap-bright.c:202-219 | so the writes alone say what each word of code is: the original after a zero or none, else the branch at each resolved target and the original elsewhere |
| Trampoline.TargetLandsOnReplacement | modules/backlight/hook.c:67-74 | in a hooked run the processor at a target lands on the replacement if and only if that is aligned and in range |
| Trampoline.TrampolineKeepsMeaning | modules/backlight/hook.h:25-32 | two steps from the saved instruction equal one step of the original target, registers and program counter alike, if that instruction can move |
| Trampoline.BranchGoesAstray | modules/backlight/hook.c:45-48 | one step of a displaced branch ends exactly the distance of the trampoline from the target away from where it should, modulo 2^32 |
| Trampoline.MeaningKeptExactly | modules/backlight/hook.c:45-48 | over all tables, targets, code and toggles the two-step equality holds if and only if the first instruction does not use the PC or is a branch to the next word |
| Trampoline.JumpsAreNotKept | modules/backlight/hook.c:69-77 | for every other branch and every load of the PC there is a hooked kernel in which it fails |
| Hooking.Module.Hook | modules/backlight/hook.c:49-83 | one entry is patched; -1 exactly when its target cannot be found |
| Hooking.Module.Unhook | modules/backlight/hook.c:85-92 | one entry is restored, if it has a target |
| Hooking.Module.HookInit | modules/backlight/hook.c:94-104 | the loop patches all entries up to the terminator |
| Hooking.Module.HookExit | modules/backlight/hook.c:106-113 | the loop restores all entries up to the terminator |
| Hooking.Module.ProcHookWrite | modules/backlight/cpcap-bright.c:202-219 | a number toggles only when it differs from the current state; malformed input does nothing |
| Boosted.IdealIsClamped | modules/overclock/cpufreq_boosted.c:183-193 | both branches clamp the tunable to the limits, like `validate_freq` |
| FrequencyTable.LookupPicks | modules/overclock/cpufreq_boosted.c:244-260 | the table lookup is the highest usable entry up to the request, or the lowest beyond; or the other way round |
| Boosted.TargetIsAsAsked | modules/overclock/cpufreq_boosted.c:233-280 | which frequency is set and which value returned, in all cases, told by the usable entries |
| Boosted.UsableIsSet | modules/overclock/cpufreq_boosted.c:244-275 | a usable request is set exactly |
| Boosted.StuckExactly | modules/overclock/cpufreq_boosted.c:244-271 | the warning branch is reached if and only if the current frequency is usable and no usable entry lies beyond it |
| Boosted.StrictProgress | modules/overclock/cpufreq_boosted.c:233-280 | with limits and current frequency in the table, a real request picks a usable frequency strictly on its side, for either relation |
| Boosted.LimitOffTheTableSticks | modules/overclock/cpufreq_boosted.c:263-270 | a limit between two entries reaches the warning branch |
| Boosted.WorkMoves | modules/overclock/cpufreq_boosted.c:383-456 | the work item moves the CPU strictly to the side it asks for, or not at all, and keeps the governor's state in order |
| Boosted.RampUpSets | modules/overclock/cpufreq_boosted.c:409-423 | which entry a ramp-up leads to: for the ideal speed, the step, or the maximum |
| Boosted.RampDownSets | modules/overclock/cpufreq_boosted.c:424-439 | which entry a ramp-down leads to: for the ideal speed, the step, or the load |
| Boosted.WorkHoldsStill | modules/overclock/cpufreq_boosted.c:403-450 | when the work item leaves the frequency alone |
| Boosted.WorkLeaves | modules/overclock/cpufreq_boosted.c:391-464 | the direction, the timer and the preference that the work item leaves behind |
| Boosted.RampUpRises | modules/overclock/cpufreq_boosted.c:409-423 | ramping up rises below the maximum and stays at it |
| Boosted.RampDownSinks | modules/overclock/cpufreq_boosted.c:424-431 | stepwise ramping down sinks above the minimum and stays at it, if the difference fits an `int` at the minimum |
| Boosted.LoadHeuristicSinks | modules/overclock/cpufreq_boosted.c:432-439 | without a step the frequency never rises, and sinks exactly when scaling by the load changes it |
| Boosted.StepRisesUnlessItOverflows | modules/overclock/cpufreq_boosted.c:413-416 | a ramp-up step rises if and only if the sum fits an `int` |
| Boosted.StepSinksUnlessItWraps | modules/overclock/cpufreq_boosted.c:424-431 | below or at the ideal speed a ramp-down step sinks if and only if the difference fits an `int` |
| Boosted.ConvergesUp | modules/overclock/cpufreq_boosted.c:383-466 | as many ramp-ups as there are entries above reach the maximum, and more leave it there |
| Boosted.ConvergesDown | modules/overclock/cpufreq_boosted.c:383-466 | likewise downwards to the minimum |
| Boosted.ConvergesUpExactly | modules/overclock/cpufreq_boosted.c:383-466 | enough ramp-ups always end at the maximum if and only if the step fits an `int` there or the limits are equal |
| Boosted.ConvergesDownExactly | modules/overclock/cpufreq_boosted.c:383-466 | enough steps down always end at the minimum if and only if the difference fits an `int` there or the limits are equal |
| Boosted.ShareOfTheWork | modules/overclock/cpufreq_boosted.c:391-464 | a CPU in the mask ends as its own share of the work, under `AtMost` if a CPU before it turned the preference, else under the first one; any other CPU as it was |
| Boosted.EveryCpuMoves | modules/overclock/cpufreq_boosted.c:391-392 | the preferred relation that leaks from one CPU to the next stops none of them: each CPU in the mask that is ramped up rises unless it is at its maximum, and one that is stepped down sinks unless it is at its minimum |
| Boosted.LimitsAreObeyed | modules/overclock/cpufreq_boosted.c:705-722 | new limits bring the CPU inside them if and only if it is inside already or the table has an entry inside |
| Boosted.LimitsSet | modules/overclock/cpufreq_boosted.c:705-722 | from outside the new limits the CPU goes to the usable entry nearest to the limit, inside it stays; the new ideal speed and the timer |
| Boosted.Governor.TargetFreq | modules/overclock/cpufreq_boosted.c:233-280 | the frequency set is the entry that the preference picks for the clamped request, or the opposite one's if that changes nothing; 0 is returned when nothing changed |
| Boosted.Governor.WorkOn | modules/overclock/cpufreq_boosted.c:393-464 | one CPU's share of the work item, its timer and the relation it leaves behind |
| Boosted.Governor.FreqChangeTimeWork | modules/overclock/cpufreq_boosted.c:383-466 | exactly the CPUs in the mask are worked on, in order, each with the task count found at its turn, and the mask is cleared |
| Boosted.Governor.GovernorLimits | modules/overclock/cpufreq_boosted.c:705-722 | one CPU follows its new limits, the others are untouched |
| FreqStats.CpufreqStats.CreateTable | modules/overclock/cpufreq_stats.c:192-266 | zeroed counters, the built table and its sizes with `state_num` ≤ `max_state`; usable if and only if the current frequency is in a slot |
| FreqStats.CpufreqStats.CountStates | modules/overclock/cpufreq_stats.c:219-226 | the number of valid entries plus one |
| FreqStats.CpufreqStats.FillFreqTable | modules/overclock/cpufreq_stats.c:244-253 | the slots hold the built frequencies, then zeros |
| FreqStats.CpufreqStats.FreqTableGetIndex | modules/overclock/cpufreq_stats.c:168-175 | the first slot that holds the frequency, or -1 |
| FreqStats.BuiltIsComplete | modules/overclock/cpufreq_stats.c:244-251 | every valid frequency is in the table if and only if frequency 0 is not listed |
| FreqStats.Built | modules/overclock/cpufreq_stats.c:244-251 | the table holds each valid nonzero frequency, once, and no others |
| FreqStats.BuiltInOrder | modules/overclock/cpufreq_stats.c:244-251 | in the order of first occurrence |
| FreqStats.LookupInvertsBuild | modules/overclock/cpufreq_stats.c:168-175 | looking a built frequency up gives its slot |
| FreqStats.CpufreqStats.UpdateStats | modules/overclock/cpufreq_stats.c:63-78 | the time since the last update goes to the current state |
| FreqStats.CpufreqStats.NotifierTrans | modules/overclock/cpufreq_stats.c:286-318 | one notification, known or unknown, changed or not, before or after the change |
| FreqStats.CpufreqStats.FreqUpdate | modules/overclock/cpufreq_stats.c:53-61 | one slot is renamed, nothing else changes |
| FreqStats.TransitionFlows | modules/overclock/cpufreq_stats.c:300-316 | a notification keeps row sum minus column sum and the grand total in step |
| FreqStats.FlowIsConserved | modules/overclock/cpufreq_stats.c:286-318 | for every state, row sum minus column sum is [start] − [current], and all cells add up to `total_trans`, over any run |
| FreqStats.TimeIsConserved | modules/overclock/cpufreq_stats.c:63-78 | the times add up to the last update minus creation, over any run |
| FreqHistory.HistoryIsTold | modules/overclock/cpufreq_stats.c:53-78 | after any history from any valid state, the slots, the current state, the times and the transitions are what the history says |
| FreqHistory.StatsTellHistory | modules/overclock/cpufreq_stats.c:286-318 | from creation on, `time_in_state[i]` is the time during which i was the current state, `trans_table[i * max_state + j]` the number of changes from i to j |
| FreqStats.StatsAreConserved | modules/overclock/cpufreq_stats.c:244-257 | both laws hold from creation on |
| BtAddress.ParseInvertsPrint | bluedroid.c:458-470 | `str2ba` of the output of `ba2str` is the address, for every address |
| BtAddress.PrintInvertsParse | bluedroid.c:458-470 | printing what was parsed restores the text if and only if the text is canonical |
| BtAddress.BytesAreNumbers | bluedroid.c:463-470 | whatever the text: the bytes are its numbers from the last byte down, each cut to eight bits, and each looked for one character behind the one before |
| BtAddress.StrtoulTakes | bluedroid.c:466-466 | what `strtoul` takes from any text and what it is worth: spaces, sign, prefix, digits, overflow, no number |
| BtAddress.TwoDigits | bluedroid.c:466-466 | `strtoul` in base 16 takes exactly two digits that no third one follows |
| BtAddress.Ba2Str | bluedroid.c:458-461 | the 17 characters and the terminator, and nothing beyond |
| BtAddress.Str2Ba | bluedroid.c:463-470 | the six bytes of the parse, last one first |
| RefCount.LocksExclude | bluedroid.c:176-221 | a writer excludes every other lock holder, in any run |
| RefCount.NeverOvercounts | bluedroid.c:158-322 | with any processes in any interleaving the stored count never exceeds the increments written |
| RefCount.CountsExactly | bluedroid.c:158-322 | increments and decrements in any interleaving without an outdated read leave their zero-floored difference |
| RefCount.CountsExactlyAlone | bluedroid.c:158-322 | calls that do not overlap never write what they computed from an outdated read, so they leave that difference |
| RefCount.LostUpdatesExactly | bluedroid.c:187-230 | increments are all counted if and only if no write is based on an outdated read |
| RefCount.LocksAllowLostUpdate | bluedroid.c:205-221 | two complete increments that the locks permit leave the count at 1 |
| RefCount.CallIsItsSteps | bluedroid.c:158-322 | an undisturbed increment or decrement does to the file and the log what its steps do; a decrement without a file ends at once |
| RefCount.CallCounts | bluedroid.c:187-322 | what a whole call makes of every kind of file: one more or one less, zero kept, damaged and empty files counted as 0 |
| RefCount.RefFile.IncAtomic | bluedroid.c:158-237 | the file and the result of a whole increment |
| RefCount.RefFile.DecAtomic | bluedroid.c:239-322 | the file and the result of a whole decrement; -2 without a file |

## Left out

Assumptions and simplifications:

- Scheduler time is an unbounded integer; the wrap of `jiffies` is not modelled. `fifo_batch` and the expiries stay fixed during a run, because lowering an expiry through sysfs breaks deadline order.
- The four linked lists are sequences in one map field; a request is found by its identity, not through a pointer. Adding a request that is already queued is excluded, as the kernel excludes it.
- SioFairness.BoundedWaiting: excludes merges that delete the request or move it into another list; it speaks of overdue asynchronous writes, SioWaiting.WaitExactly of every class.
- SioWaiting.WaitExactly: excludes the same merges, and those of requests of two directions, as SioLeastWait.SynchronousWaitExactly does.
- SioWaiting.SynchronousWait: a bound in closed form, not the least one, which SioLeastWait.SynchronousWaitExactly gives.
- SioStarvation.ShutOutExactly: assumes that merges join requests of one direction only, as the block layer does.
- SioTimeline.ClassesAreFifo: says nothing about the requests that merges name; SioTimeline.TimelineIsReplayed says where those stand.
- Sensor fields hold raw values; the floating-point unit conversions are fixed functions of them and are left out, and so are the constant `version` and `type` fields.
- PollContext.SensorsPollContext.PollEvents: the devices deliver whole events and no errors; a read takes what waits, up to the room in the ring, and a call whose read waits ends there: events that arrive later belong to a round whose device has them.
- PollContext.SensorsPollContext.EnableCompass: opening and closing the device and the delay that goes with it are left out; the chip's refusal is a parameter.
- PollWaiting.SessionWaitsEmptyHanded: assumes that a device reported by `poll`, and not read since, has something to read.
- PollLoop.EndToEnd: assumes no read errors, a fixed enable mask and no pending temperature (PollShares.CompassEndToEnd and PollShares.SinglesEndToEnd do without the last two); a negative `nb` would enlarge the remaining budget.
- The `poll` system call appears as a list of rounds; a list that runs out means the call is still going on. Events already written count as sent even if `poll` then fails; PollReceived.ReceivedIsTheRest says what the caller gets of them.
- Hooking assumes word-aligned, pairwise distinct targets outside the `hook_info` table, and a symbol lookup that does not change. Everything but B and loads into the PC is one abstract `exec`; data memory is part of its machine state, apart from the code words. Length checks of the written text, cache maintenance and kernel locking are left out.
- The kernel's `cpufreq_frequency_table_target` and the driver's target call are contracts over the same table. Limits and frequencies are below 2^31; the product in the load heuristic must fit an `int`.
- Trampoline.MeaningKeptExactly: of the instructions behind the abstract `exec` it covers those that go on to the next word; one that may jump elsewhere (a conditional branch, a return) is covered only if it is B or a load of the PC from a literal.
- Boosted.ConvergesDown: needs a step that is at most the minimum plus 2^31; Boosted.ConvergesDownExactly shows that beyond it the minimum is left again.
- FreqStats.StatsAreConserved: needs the current frequency in a slot at creation; otherwise the code keeps an index of -1 and writes outside the table. The counters are unbounded, so the wrap of 32-bit `total_trans` and table cells is not modelled.
- BtAddress.Str2Ba: requires a text that the scan does not run past, which the code leaves to its callers.
- RefCount.CountsExactlyAlone: counts fewer than 2^32 writes; the wrap of the stored count is modelled and covered by RefCount.NeverOvercounts.
- RefCount.RefFile.IncAtomic: models the call without failures; failures at any point are `Close` steps of the state machine.

Not modelled, because it would add only easy members or needs code that is not in the repository:

- `sio_former_request`, `sio_latter_request`, sysfs and procfs handlers, timers and workqueues, notifier registration, module init and exit.
- The load sampling of the boosted governor (`cpufreq_boosted_timer`), its idle and suspend hooks, and the other governors.
- Device discovery, enabling and delays of the sensors; Bluetooth power, HCI sockets and daemon control.
- Lights, proximity, clock, camera, audio policy, user interface, scripts and build files.
