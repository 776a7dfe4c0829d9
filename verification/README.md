# Verification of the guest-kernel synchronisation layer

This project models the parts of an emulator's guest kernel where threads meet, and two self-contained
algorithms beside them, and proves what they are for:

- mutexes and condition variables (`PthreadObjects`, `CondProtocol`, `CondRuns`, `CondWrap`, `MutexRuns`);
- reader-writer locks (`Rwlock`, `RwlockRuns`), one-time initialisation (`Once`) and thread-specific keys
  (`Keys`, `KeyDestruction`);
- event flags (`EventFlag`, `EventFlagRuns`) and event queues (`EventQueue`, `EventQueueRuns`);
- the directory-entry encoder and its chunked reader (`Dirents`);
- the Julian-day calendar (`Calendar`);
- the subsystem scheduler (`Subsystems`, `SubsystemRuns`).

`dafny verify dfyconfig.toml` checks everything.

## How it is built

**Objects.** Each C++ object is a class with the same fields. Each critical section, that is each stretch of
code between taking and releasing the object's lock, is a method that changes those fields, and the method is
proved equal to a function from the old value to the new one. Linked lists stay linked lists
(`Subsystems.SubsystemsList`), output buffers stay arrays (`EventQueue.Equeue.GetTriggeredEvents`,
`Dirents.File.Getdirentries`, `Keys.PthreadKeys`).

**Runs.** For the shared objects, the functions are put together into a transition system over any number of
threads. A step is one critical section; a sleeping thread may be scheduled at any time, whether or not
anybody notified it, because the C++ code polls. `CanRun` holds of exactly the sequences of steps that are
possible, and `Run` gives the state they lead to. Steps append events to a log, and the main theorems speak
of the log: of what every possible history of lock, wait, signal, set or cancel calls looks like.

**Machine arithmetic.** Counters that wrap in C++ wrap here (`Wrap64`, `Inc32`, `Dec32`, the rounding in
`WaitMicros`), the calendar is proved both over the integers and in checked 32-bit arithmetic, and bit patterns
are 64-bit vectors. Where a promised property depends on a counter not wrapping, a theorem says when it
holds, and an input or a run shows that it fails otherwise:

- a step of a reader-writer lock leaves exclusion safe in every continuation if and only if it does not admit
  a reader while 2^32 - 1 read holds are outstanding; every run that goes beyond that has a point from which
  one thread can be given the write lock beside another that reads (`ExclusionSurvivesExactly`,
  `RunLosesExclusion`, and the run of `ExclusionFailsAtLimit`);
- a woken wait misses its wake-up if and only if it was a broadcast that woke it and the broadcasts on its
  condition since it began to wait that found someone waiting number a multiple of 2^64; a signalled wait never
  does (`MissedExactly`, `SignalWakesFirst`, and the run of `WakeUpLostAtWrap`);
- an accepted timer is seen by the wait for the nearest one if and only if its deadline lies strictly between
  the two ends of the 64-bit clock: one whose deadline saturates is armed and never waited for
  (`FreshTimerIsSeenExactly`, and the timer of `UnseenTimer`);
- the wait for a timer that is seen is rounded correctly from 998 nanoseconds of clock time on
  (`WaitIsRightExactly`, `WaitIsWrongBefore998`);
- a date can be stored and read back if and only if it lies between 13 July -1474604 and 18 October 1465102:
  the encoder covers more days than the decoder (`DateRoundTrip32`, `StoredButUnreadable`).

## Model

| member | source | states |
|---|---|---|
| PthreadObjects.Mutex.BeginLock | src/kernel/pthread.cpp:1137-1201 | the code and new owner and depth of a lock call up to its first sleep, EAGAIN at the depth limit and the relock errors included |
| PthreadObjects.Mutex.ResumeLock | src/kernel/pthread.cpp:1162-1200 | a woken lock call takes a free mutex at depth 1, and otherwise times out or sleeps again |
| PthreadObjects.Mutex.Trylock | src/kernel/pthread.cpp:1203-1229 | as for a lock, without sleeping |
| PthreadObjects.Mutex.NativeUnlock | src/kernel/pthread.cpp:1231-1259 | EPERM for others; one level for recursive mutexes; with the depth asked for, all levels, and the depth is returned |
| PthreadObjects.Mutex.RestoreDepth | src/kernel/pthread.cpp:1261-1270 | the second half of a relock sets the depth, at least 1 |
| PthreadObjects.Find | src/kernel/pthread.cpp:439-440 | the first position of a thread in a waiter list, or its end |
| PthreadObjects.CondAddWaiter | src/kernel/pthread.cpp:427-433 | the thread joins the end of the list, and no other thread or condition changes |
| PthreadObjects.CondRemoveWaiter | src/kernel/pthread.cpp:435-449 | the thread leaves the list if it is on it; nothing else changes |
| PthreadObjects.CondWakeWaiter | src/kernel/pthread.cpp:451-472 | the target, or without one the first waiter, leaves the list and its sequence number steps |
| PthreadObjects.WakeListed | src/kernel/pthread.cpp:461-471 | the same for a chosen thread, with the 64-bit wrap of its number |
| PthreadObjects.CondBroadcast | src/kernel/pthread.cpp:474-483 | all waiters leave at once and the condition's number steps, unless nobody waits |
| CondProtocol.JoinKeepsLists | src/kernel/pthread.cpp:2856-2867 | beginning a wait keeps the lists: arrival order, one list per thread, fields and history in agreement |
| CondProtocol.WaitEndKeepsLists | src/kernel/pthread.cpp:2870-2900 | so does the pass that ends a wait, which tests and leaves the list in one critical section |
| CondProtocol.WakeKeepsLists | src/kernel/pthread.cpp:451-472 | so does waking one waiter, and the one woken was waiting on that condition |
| CondProtocol.BroadcastKeepsLists | src/kernel/pthread.cpp:2679-2685 | so does a broadcast that finds waiters |
| CondRuns.ReadyExactly | src/kernel/pthread.cpp:3040-3044 | the readiness test is false for every listed thread, and true for an unlisted one exactly when a captured number differs, the wrap-around of 2^64 broadcasts included |
| CondRuns.MissedExactly | src/kernel/pthread.cpp:2870-2877 | over any run, a waiting thread off its list was woken exactly once, and is not ready if and only if, by the events, a broadcast woke it and the broadcasts since it began to wait that found a waiter are a multiple of 2^64 |
| CondWrap.WakeUpLostAtWrap | src/kernel/pthread.cpp:2679-2685 | from any fresh state with two threads, a run of 2^64 broadcasts in which a wait woken exactly once ends with ETIMEDOUT |
| CondRuns.RestoreActs | src/kernel/pthread.cpp:1261-1270 | after the second critical section of the relock the thread owns the mutex at the depth its wait gave up |
| CondRuns.StepKeepsInv | src/kernel/pthread.cpp:427-483 | every step of every thread keeps lists, mutexes, history and counts in order |
| CondRuns.ListedExactly | src/kernel/pthread.cpp:427-483 | in every reachable state a thread is on a condition's list exactly when it waits there with both captured numbers unchanged; once, on one list only, and its waiting_cond agrees |
| CondRuns.WakeUpsConserved | src/kernel/pthread.cpp:2662-2688 | over any run, every wait begun has ended or still goes on; wake-ups issued equal waits that ended OK, woken threads on their way, and waits that missed theirs; a wait is woken at most once, and ends OK if and only if it was woken and did not miss it; short of 2^64 broadcasts none is missed |
| CondRuns.SignalWakesFirst | src/kernel/pthread.cpp:2779-2787 | an untargeted signal wakes, of all threads listed, the one that began to wait first, and only it; that thread is then ready, however many broadcasts there were |
| CondRuns.SignalToWakesTarget | src/kernel/pthread.cpp:2812-2817 | a targeted signal wakes its target alone, which is then ready, if it is listed, and otherwise changes nothing |
| CondRuns.RunAdvances | src/kernel/pthread.cpp:2779-2787 | over any run, each signal moves a listed wait at least one place up its list |
| CondRuns.NoLostWakeUp | src/kernel/pthread.cpp:3027-3053 | a wait behind n others is off the list after more than n signals or one broadcast sent since it gave up the mutex; it has then ended, with OK unless its time limit came first, or its next pass ends it with OK if and only if it does not miss the wake-up, which it does not within 2^64 broadcasts |
| CondRuns.UntimedNeverTimesOut | src/kernel/pthread.cpp:3040-3053 | over any run a wait without a time limit goes on or has ended with OK |
| CondRuns.TimeLimitsAreKept | src/kernel/pthread.cpp:2869-2898 | over any run, ETIMEDOUT ends only a wait made with a time limit, in a pass that finds it passed, and a wait sleeps on only while no limit of its own has passed and it has no wake-up to take |
| CondRuns.DepthIsBalance | src/kernel/pthread.cpp:1137-1270 | a mutex is free iff its count is 0, the count is its owner's locks less unlocks over the run, only recursive ones nest, and each finished wait gave back the mutex and depth it took |
| MutexRuns.MutualExclusion | src/kernel/pthread.cpp:1137-1259 | at any moment of any run at most one thread holds a mutex, counted from the events alone, and it is the recorded owner |
| MutexRuns.AnswersAreRight | src/kernel/pthread.cpp:1137-1259 | over any run, a lock is granted only when nobody else holds the mutex, and a call sleeps or is refused only when somebody does; a holder is refused a recursive mutex only at full depth, with EAGAIN, and any other with EBUSY, EDEADLK or ETIMEDOUT as it tried, locked without a limit or locked with one; others get EBUSY from a try, and ETIMEDOUT only once the limit of their own call has passed; EPERM goes to non-holders; a wait begins and returns at the same depth |
| MutexRuns.NestedLockIsGranted | src/kernel/pthread.cpp:1145-1152 | in every reachable state a holder of a recursive mutex below full depth gets it again at once, from lock and trylock and with any time limit |
| Rwlock.RwlockObject.FindReader | src/kernel/pthread.cpp:2275-2285 | the entry of a thread, or the end of the table |
| Rwlock.RwlockObject.Add | src/kernel/pthread.cpp:2287-2294 | one more hold in the thread's entry, which is made if there is none, with 32-bit wrap-around |
| Rwlock.RwlockObject.Remove | src/kernel/pthread.cpp:2296-2309 | one hold less, the entry dropped at zero, or false |
| Rwlock.RwlockObject.LockOnce | src/kernel/pthread.cpp:2325-2377 | one pass of the cooperative lock loop: grant, deadlock, timeout or wait, with the writer's registration |
| Rwlock.RwlockObject.TryRdlock | src/kernel/pthread.cpp:2438-2448 | grant or EBUSY by the same test as the loop |
| Rwlock.RwlockObject.TryWrlock | src/kernel/pthread.cpp:2465-2477 | grant, EDEADLK or EBUSY |
| Rwlock.RwlockObject.UnlockOnce | src/kernel/pthread.cpp:2499-2516 | a read hold is given back before the write hold; EPERM with neither |
| Rwlock.AddReaderCounts | src/kernel/pthread.cpp:2287-2294 | the thread has one more hold and nobody else's count changes; entries stay distinct and positive and sum to reader_count |
| Rwlock.RemoveReaderCounts | src/kernel/pthread.cpp:2296-2309 | the thread has one hold less and nobody else's count changes; the table stays in shape |
| Rwlock.AddReaderFitsExactly | src/kernel/pthread.cpp:2287-2294 | admitting a reader keeps the table in shape if and only if reader_count is below 2^32 - 1 |
| RwlockRuns.StepKeepsInvExactly | src/kernel/pthread.cpp:2311-2381 | a step keeps the lock's invariant if and only if it does not admit a reader at that limit |
| RwlockRuns.ExclusionSurvivesExactly | src/kernel/pthread.cpp:2287-2358 | after a step, every continuation within the limit keeps exclusion if and only if the step does not admit a reader while reader_count is 2^32 - 1 |
| RwlockRuns.OverflowIntrudes | src/kernel/pthread.cpp:2293-2345 | admitting a reader at the limit, with or without a writer, has a continuation after which one thread write-holds beside another that holds |
| RwlockRuns.RunLosesExclusion | src/kernel/pthread.cpp:2293-2345 | every run that goes beyond the limit has a prefix that can be continued to such a state |
| RwlockRuns.Exclusion | src/kernel/pthread.cpp:2336-2358 | over any run that admits no reader while reader_count is 2^32 - 1, while one thread write-holds nobody else holds in any way, nobody write-holds twice, unlock answers EPERM iff its caller holds nothing, and reader_count is the sum of the table |
| RwlockRuns.WaitingWritersCounted | src/kernel/pthread.cpp:2329-2350 | in every reachable state, without condition, waiting_writers is modulo 2^32 the number of registered blocking writers, which are those whose last event is a wait in the queue |
| RwlockRuns.AnswersAreRight | src/kernel/pthread.cpp:2311-2516 | within the reader limit: a read is granted only while nobody else write-holds and, to a thread holding nothing, while waiting_writers is zero; a write only while nobody holds anything; refusals and further waiting come only from the opposite, EBUSY from a try, ETIMEDOUT from a blocking call whose own limit has passed, EDEADLK to a holder; a call waits only while somebody is in the way and no limit of its own has passed; EPERM goes to those who hold nothing |
| RwlockRuns.TimeLimitsAreKept | src/kernel/pthread.cpp:2361-2377 | in every run, ETIMEDOUT goes only to a blocking call made with a time limit, in a pass that finds it passed, and no call waits on past its limit |
| RwlockRuns.StepPrefersWriters | src/kernel/pthread.cpp:2352-2358 | with writers waiting, a step makes nobody a reader but a reader or the writer |
| RwlockRuns.WriterPreference | src/kernel/pthread.cpp:2438-2446 | over any run during which writers wait, the only readers are those there before and threads that wrote meanwhile |
| RwlockRuns.ExclusionFailsAtLimit | src/kernel/pthread.cpp:2293-2293 | a run of 2^32 nested read locks after which another thread is given the write lock beside the reader |
| Once.Control.Enter | src/kernel/pthread.cpp:3973-3991 | the top of the loop: return, run the init routine, or mark WAIT and sleep |
| Once.Control.WakeUp | src/kernel/pthread.cpp:3979-3988 | a waiter goes back to the top only once the word is no longer WAIT |
| Once.Control.Publish | src/kernel/pthread.cpp:3997-4000 | the word becomes DONE |
| Once.AtMostOnce | src/kernel/pthread.cpp:3960-4004 | for any number of calls in any interleaving the init routine starts at most once, every OK comes after it completed, and a call waits only once it has started and while nobody has returned |
| Once.OtherWords | src/kernel/pthread.cpp:3972-3991 | from any other initial word it never starts: DONE always answers OK, IN_PROGRESS and WAIT never answer, the rest EINVAL |
| Once.DoneStays | src/kernel/pthread.cpp:3977-3979 | DONE is absorbing: no waiter's write of WAIT follows it |
| Once.DoneAnswersAtOnce | src/kernel/pthread.cpp:3974-3988 | once the word is DONE, a call that looks at it returns OK in that pass |
| Keys.PthreadKeys.Create | src/kernel/pthread.cpp:1422-1438 | the first free key is taken with no values, or none is |
| Keys.PthreadKeys.Delete | src/kernel/pthread.cpp:1440-1452 | a live key becomes free; any other number is refused |
| Keys.PthreadKeys.Set | src/kernel/pthread.cpp:1497-1514 | a live key's value for the thread is replaced or added; any other number is refused |
| Keys.PthreadKeys.Get | src/kernel/pthread.cpp:1516-1535 | the thread's value, null if it has none, or refusal |
| Keys.PthreadKeys.Destruct | src/kernel/pthread.cpp:1454-1495 | the rounds of collecting and calling, whatever guest code and other ending threads do between them, against the recursive specification; at most four rounds |
| Keys.PthreadKeys.Collect | src/kernel/pthread.cpp:1466-1475 | exactly the non-null values of the thread under live keys with destructors are listed, and nulled |
| Keys.PthreadKeys.Purge | src/kernel/pthread.cpp:1489-1494 | the final sweep takes the thread's entries from every key and leaves the others |
| KeyDestruction.SetThenGet | src/kernel/pthread.cpp:1497-1535 | a set changes what the same thread gets from the same live key and nothing else |
| KeyDestruction.CreateThenGet | src/kernel/pthread.cpp:1427-1434 | a new key is null for every thread, and other keys keep their values |
| KeyDestruction.CreateKeepsDestructors | src/kernel/pthread.cpp:1427-1434 | a new key has the destructor it was created with, and every other key keeps its own |
| KeyDestruction.DeleteThenGet | src/kernel/pthread.cpp:1447-1449 | a deleted key is dead for every thread, and every other key keeps its values and its destructor |
| KeyDestruction.NothingIsLeft | src/kernel/pthread.cpp:1460-1495 | on both exits the thread gets null from every live key that has a destructor, even when other threads end at the same time |
| KeyDestruction.CallsConserved | src/kernel/pthread.cpp:1460-1485 | every value held at the start is handed to its destructor, and each value held or set meanwhile at most once, even when other threads end at the same time |
| KeyDestruction.CreatedValueIsHandedOver | src/kernel/pthread.cpp:1422-1514 | a key created with a destructor, set to a non-null value by a thread and left alone whatever else happens, hands that value to that destructor when the thread ends |
| KeyDestruction.QuietKeepsOthers | src/kernel/pthread.cpp:1467-1480 | the early exit keeps a thread's values under keys without a destructor |
| KeyDestruction.StubbornIsCalledFourTimes | src/kernel/pthread.cpp:1460-1495 | a destructor that sets its value again each time is called exactly four times, and the last value is dropped |
| KeyDestruction.QuietDestructors | src/kernel/pthread.cpp:1460-1485 | destructors that leave the table alone are called once each, in table order |
| KeyDestruction.OthersKeepTheirs | src/kernel/pthread.cpp:1460-1495 | with destructors that only set their own thread's values, no other thread gets a different value from any key |
| EventFlag.EventFlagObject.AttemptOnce | src/kernel/eventFlag.cpp:127-137 | the top of the wait loop: a match beats the time limit, and is consumed by the clear mode |
| EventFlag.EventFlagObject.Enter | src/kernel/eventFlag.cpp:101-137 | a wait up to its return or first sleep, with the refusal of a second waiter |
| EventFlag.EventFlagObject.Resume | src/kernel/eventFlag.cpp:145-164 | a woken wait is turned away by a drain, or tries again |
| EventFlag.EventFlagObject.SetBits | src/kernel/eventFlag.cpp:185-191 | sets bits, once no drain is on |
| EventFlag.EventFlagObject.ClearBits | src/kernel/eventFlag.cpp:201-207 | keeps the given bits, once no drain is on |
| EventFlag.EventFlagObject.BeginDrain | src/kernel/eventFlag.cpp:215-236 | status, bits and the reported count of a cancel, and the same for the destructor |
| EventFlag.EventFlagObject.PollDrain | src/kernel/eventFlag.cpp:230-236 | a drain ends only when nobody waits, and only a cancel restores the status |
| EventFlag.HasCleared | src/kernel/eventFlag.cpp:171-175 | which single bits each clear mode leaves |
| EventFlag.MatchIsSatisfied | src/kernel/eventFlag.cpp:127-128 | the test of the wait loop holds exactly when, under And, every single bit asked for is set, and under Or, at least one is |
| EventFlagRuns.StatusTellsDrains | src/kernel/eventFlag.cpp:81-99 | in every reachable state the status is Canceled exactly while one canceller drains, Deleted from the destructor on; the count is the number of sleepers, and at most 1 for a single-thread flag |
| EventFlagRuns.WaitsAreRight | src/kernel/eventFlag.cpp:123-177 | every wait of a run returns the result its moment demands, with the pattern of that moment and the time left; an Ok wait found what it asked for, bit by bit; a TimedOut one did not, and its limit had passed; and nobody sleeps on what it asked for or past its limit |
| EventFlagRuns.DrainReleasesAll | src/kernel/eventFlag.cpp:210-237 | the reported number is the number of sleepers, each of them returns Canceled (or Deleted), and all have by the time the drain ends |
| EventFlagRuns.BitsConserved | src/kernel/eventFlag.cpp:166-191 | in any history, the takings of a bit plus its current value never exceed its start plus the Set and Cancel calls carrying it |
| EventFlagRuns.RunConservesBits | src/kernel/eventFlag.cpp:166-226 | the same for every run and the flag's own bits |
| EventFlagRuns.PollNeverSleeps | src/kernel/eventFlag.cpp:36-39 | a poll returns at once, and Ok exactly on what it asks for, bit by bit, when it may take it |
| EventQueue.Equeue.AddEvent | src/kernel/eventQueue.cpp:177-191 | the entry replaces the one of its key or joins the end |
| EventQueue.Equeue.TriggerEvent | src/kernel/eventQueue.cpp:193-242 | the entry of the key is triggered by its hook, or false |
| EventQueue.Equeue.DeleteEvent | src/kernel/eventQueue.cpp:244-263 | the entry of the key is removed, or false |
| EventQueue.Equeue.TriggerExpiredTimers | src/kernel/eventQueue.cpp:118-124 | exactly the untriggered entries with a passed non-zero deadline become triggered |
| EventQueue.Equeue.GetTriggeredEvents | src/kernel/eventQueue.cpp:72-116 | the delivery loop terminates, writes the specified events and never past num, leaves the rest of the array alone, and leaves the specified list |
| EventQueue.Equeue.DeliverOne | src/kernel/eventQueue.cpp:81-109 | the inner loop for one entry, level events included, and the erasing of one-shots |
| EventQueue.Equeue.GetNextTimerWaitMicros | src/kernel/eventQueue.cpp:126-143 | a timer is found if and only if an armed entry has a deadline below UINT64_MAX, and then the wait is that for the nearest, with 64-bit wrap-around |
| EventQueue.Equeue.AddHRTimer | src/kernel/eventQueue.cpp:473-502 | EINVAL iff a field is out of range or the delay passes 64 bits, though the guard never computes the delay; otherwise the saturated deadline |
| EventQueue.NearestIsMinimum | src/kernel/eventQueue.cpp:129-137 | the nearest deadline is that of an armed entry, and no armed entry has an earlier one |
| EventQueue.WaitIsRightExactly | src/kernel/eventQueue.cpp:139-141 | the wait is the least positive number of microseconds covering the remaining time, capped at 32 bits, if and only if adding 999 stays within 64 bits |
| EventQueue.WaitIsRightFrom998 | src/kernel/eventQueue.cpp:126-143 | from 998 ns of clock time on it is right, for the earliest armed deadline, in every queue with an armed deadline below UINT64_MAX |
| EventQueue.FreshTimerIsSeenExactly | src/kernel/eventQueue.cpp:129-137 | the accepted timer is in the queue, and counts as one to wait for if and only if now plus its delay is positive and below UINT64_MAX; from there on it is itself armed and not found, and with no other timer in sight none is found |
| EventQueue.UnseenTimer | src/kernel/eventQueue.cpp:129-137 | a timer of 18446744073 seconds, added at one second, is accepted, armed and not found |
| EventQueue.WaitIsWrongBefore998 | src/kernel/eventQueue.cpp:139-140 | for every earlier time there is a queue for which it is wrong |
| EventQueueRuns.KeysStayUnique | src/kernel/eventQueue.cpp:177-263 | after any run no (ident, filter) pair is in the queue twice, and pending events wait only behind a triggered one |
| EventQueueRuns.AtDelivered | src/kernel/eventQueue.cpp:81-113 | delivering from the list is, for each key, delivering from its own entry into the room left for it |
| EventQueueRuns.AmprLosesNothing | src/kernel/eventQueue.cpp:223-242 | since an AMPR entry was added, the events delivered and then those it still holds are exactly its triggers, in order |
| EventQueueRuns.UserEventDelivers | src/kernel/eventQueue.cpp:84-108 | triggers of a user event do not queue up and the last one counts; an edge event is delivered once and cleared, a level event fills the room and stays |
| EventQueueRuns.UserEventsAreLast | src/kernel/eventQueue.cpp:216-242 | over any run, every delivery of a user event carries the last trigger before it; an edge event is triggered exactly while a trigger came after its last delivery, a level event from its first trigger on |
| EventQueueRuns.TimerFiresOnce | src/kernel/eventQueue.cpp:81-124 | a one-shot timer is delivered at most once per add, and unless triggered by hand never before its non-zero deadline |
| EventQueueRuns.DueTimerIsDelivered | src/kernel/eventQueue.cpp:77-113 | a due timer is delivered by any call that does not fill its array |
| EventQueueRuns.PostReachesReader | src/kernel/eventQueue.cpp:193-233 | a trigger of an idle entry is delivered, first of its key and with what its hook puts in it, by any call that does not fill its array |
| EventQueueRuns.NothingLeftBehind | src/kernel/eventQueue.cpp:81-113 | a call that does not fill its array leaves nothing triggered |
| EventQueueRuns.DeadlineZeroExactly | src/kernel/eventQueue.cpp:487-492 | the deadline zero, which never fires, arises only from no delay at time zero; any other fires from its saturated deadline on |
| Dirents.AlignDownMask | src/kernel/fileSystem.cpp:1096-1096 | rounding down by mask is rounding down by division, on 64-bit words |
| Dirents.AlignBounds | src/kernel/fileSystem.cpp:1052-1096 | a count is rounded down to the largest multiple of 512 not above it, a record length up to the smallest multiple of 4 not below it |
| Dirents.RecordFormat | src/kernel/fileSystem.cpp:1067-1075 | a record byte by byte: hash and length in little-endian order, type 8 or 4, name length, name, and zeros |
| Dirents.LayoutIsDense | src/kernel/fileSystem.cpp:1052-1066 | a record is stretched exactly when it is the last or the next does not fit in its block |
| Dirents.Pack | src/kernel/fileSystem.cpp:1039-1086 | the packing loop, which patches the last record of each block, builds the packed directory |
| Dirents.PackedLayout | src/kernel/fileSystem.cpp:1047-1086 | the buffer is whole 512-byte blocks, no record crosses a block, and each block boundary is a record boundary, so the records of a block sum to 512 |
| Dirents.RoundTrip | src/kernel/fileSystem.cpp:1067-1086 | walking the buffer by record length recovers exactly the names and types in order |
| Dirents.CopyOut | src/kernel/fileSystem.cpp:1093-1122 | the resumable copy loop copies exactly the chunk after the saved offset, and nothing past the aligned count |
| Dirents.File.Getdirentries | src/kernel/fileSystem.cpp:1004-1126 | error cases, the chunk returned, the saved offset advanced by it and still on a block boundary, the rest of the guest buffer untouched |
| Dirents.ChunksArePrefix | src/kernel/fileSystem.cpp:1088-1125 | any series of calls returns a prefix of one big read, with progress in every call until the end |
| Dirents.ChunkedWalk | src/kernel/fileSystem.cpp:1088-1125 | enough calls return the whole buffer, and parsing each chunk on its own yields the directory in order |
| Calendar.FloorDivIsFloor | src/common/dateTime.cpp:11-22 | the C++ quotient, built from truncating division, is the floor |
| Calendar.DecodeIsValid | src/common/dateTime.cpp:40-65 | every day number decodes to a valid date, with no year zero |
| Calendar.EncodeDecode | src/common/dateTime.cpp:24-65 | encoding undoes decoding for every day number |
| Calendar.DecodeEncode | src/common/dateTime.cpp:24-65 | decoding undoes encoding for every valid date, years before 1 included |
| Calendar.SuccessorEncodes | src/common/dateTime.cpp:24-38 | the calendar's next day is the next day number |
| Calendar.DecodeSuccessor | src/common/dateTime.cpp:40-65 | the next day number is the calendar's next day, by the month lengths and the leap rule |
| Calendar.DayOfYearMeaning | src/common/dateTime.cpp:221-234 | the day of the year counts the days of the months gone by, within 1 to 365 or 366, and is 1 exactly on 1 January |
| Calendar.DayOfWeekCycles | src/common/dateTime.cpp:209-219 | weekdays cycle through 1 to 7 over all day numbers, negative ones included |
| Calendar.Anchored | src/common/dateTime.cpp:24-65 | 1 January 2000 is day 2451545 and the sixth day of the week, and day 1 is 25 November -4714 |
| Calendar.DecodeFitsExactly | src/common/dateTime.cpp:40-65 | in 32-bit arithmetic the decoder is right, with no intermediate overflow, exactly on an explicit range of day numbers |
| Calendar.EncodeFitsExactly | src/common/dateTime.cpp:24-38 | in 32-bit arithmetic the encoder is right exactly on an explicit range of dates |
| Calendar.RoundTrip32 | src/common/dateTime.cpp:24-65 | on the decoder's range the 32-bit code round-trips |
| Calendar.DateRoundTrip32 | src/common/dateTime.cpp:136-158 | a valid date survives Set and Get in 32-bit arithmetic if and only if it lies between 13 July -1474604 and 18 October 1465102 |
| Calendar.DatesAreOrdered | src/common/dateTime.h:63-68 | comparing valid dates by day number is comparing them by year, month and day |
| Calendar.StoredButUnreadable | src/common/dateTime.cpp:136-158 | 1 January 1500000 is stored and then overflows the decoder |
| Calendar.Date.Set | src/common/dateTime.cpp:136-142 | a valid date is stored so that decoding returns it, any other leaves the invalid day number |
| Subsystems.SubsystemsList.Add | src/common/subsystems.cpp:35-64 | a new node heads the list with its dependencies reversed, not running |
| Subsystems.SubsystemsList.FindByName | src/common/subsystems.cpp:126-134 | the first node of the name, or null |
| Subsystems.SubsystemsList.FindNextToInitialize | src/common/subsystems.cpp:136-156 | the first node in the list that is not running and whose dependencies all are registered and run |
| Subsystems.SubsystemsList.InitAll | src/common/subsystems.cpp:66-88 | terminates; starts ready nodes one by one until none is left or one fails, linking each to the one started before it |
| Subsystems.SubsystemsList.StopAll | src/common/subsystems.cpp:90-110 | follows the prev_init chain, stopping every running node, last started first |
| SubsystemRuns.StepKeepsInv | src/common/subsystems.cpp:35-110 | registering, starting and stopping keep the dependency order of what runs |
| SubsystemRuns.CallsAreRight | src/common/subsystems.cpp:66-110 | over any calls, a start finds the subsystem not running and all it was registered with running; a stop finds all it was registered with running and nothing that runs registered with it; what ever failed to start does not run |
| SubsystemRuns.DependenciesAreRegistered | src/common/subsystems.cpp:42-61 | after any run the dependencies on record are exactly those handed to Add, for exactly the names handed to it |
| SubsystemRuns.StopAllStops | src/common/subsystems.cpp:90-110 | DestroyAll calls Destroy, and ShutdownAll UnexpectedShutdown, once on each running subsystem, last started first, and leaves none running |
| SubsystemRuns.InitKeepsInv | src/common/subsystems.cpp:66-88 | InitAll stops nothing, starts none that fails now or failed before, and returns false exactly on such a start, which it remembers |
| SubsystemRuns.StartReachesExactly | src/common/subsystems.cpp:66-88 | an InitAll without failure, from any reachable state, leaves running exactly the subsystems no dependency chain of which is endless or leads out of the list |
| SubsystemRuns.EverySubsystemStarts | src/common/subsystems.cpp:66-88 | with closed acyclic dependencies and no failure, one InitAll starts every subsystem |

## Left out

- Wake-ups being delivered in time: the code polls, so only safety, conservation and loop termination are stated; nothing says a waiting thread is ever scheduled.
- Signal dispatch between polls (`KernelDispatchPendingSignalForCurrentThread`): it may run guest code that calls back in; here it does not touch the object waited on.
- Destroying a mutex, condition or lock that others still use, and the lookup of statically initialised objects.
- Null handles and a caller that is no guest thread: these are refused before the modelled code starts.
- The conversion of an absolute deadline in PthreadCondTimedwaitAbs (src/kernel/pthread.cpp:2918): the wait it performs is the one modelled.
- The wait of a self-deadlocking timed lock before it answers ETIMEDOUT (src/kernel/pthread.cpp:1153-1157): it changes no state, so only the answer is modelled.
- A condition wait with a zero timeout ends in the critical section it began in; here another thread may act in between, which only adds runs.
- Clock readings are parameters: any poll may or may not find its deadline passed, and the queue's clock never goes back.
- The event flag's count of waiting threads as a 32-bit `int`, and elapsed times beyond 32 bits of microseconds.
- Decoding of the event flag's attribute and mode words, and of the calls' error numbers for the guest.
- WaitForEvents (src/kernel/eventQueue.cpp:145-175): a loop around the two modelled methods and a sleep.
- The trigger, reset and delete hooks that video output and the command processor install on a queue; plain, user and AMPR hooks are modelled, and the user reset hook does what the default does.
- Dirents.File.Getdirentries: descriptor lookup is not modelled, and the entries are fixed at open. The code only logs names over 255 bytes and has no use for empty ones, so the names have 1 to 255 bytes.
- Calendar.Date.Set: dates whose encoding overflows 32 bits are excluded, because that is undefined behaviour in C++; EncodeFitsExactly says which they are.
- Date and time formatting, the Time class, string helpers and hashing: the name hash is any function.
- Init routines that add subsystems while InitAll runs, and the failure message.
- A key's entries for a thread all vanishing at the end of the thread: the early exit keeps null entries and the values of keys without a destructor, as QuietKeepsOthers shows.
