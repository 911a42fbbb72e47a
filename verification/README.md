# Cyctron: verified models of the event core, the aio framework and the call pipeline

These Dafny modules model the parts of the repository in which correctness depends on the interplay
of several functions or threads, and prove what those parts promise.

- `TimerHeap`, `PendingQueue`, `EvLoop`: libev's 4-ary timer heap with cached keys and back-indices,
  its per-priority pending stacks with the dummy watcher, and the loop functions that update both in
  place. The functions on values are the specification; the methods of `EvLoop.Loop` are proved
  equal to them, and the laws of dispatch are proved about them. What callbacks do is a parameter: a
  list of scripts, the i-th of which is performed by the i-th callback that runs.
- `FdSet`: watcher lists, the deferred list of changed descriptors, and the poll backend's arrays.
  Backends that find a descriptor unusable while they are told about a change are a parameter.
- `EvOnce`, `ArrayGrowth`: the one-shot helper on top of both, and the growth of arrays.
- `WakeUp`: the handshake between other threads, signal handlers and a blocking loop, as a state
  machine whose steps are single reads and writes of the shared variables.
- `ExpireQueue`, `AioSleep`, `IoVector`: nng's expire queue, the protocol of sleeping aios as a
  state machine over critical sections, and the scatter/gather vector.
- `WorkerPool`: the worker pool for WebSocket calls; the critical sections are methods of `Pool`,
  and the threads are a state machine over the same specification functions.
- `Sse`: the printer of server-sent events and the incremental reader of the client script.
- `HandleCache`: the cache of library handles with lock-free readers.
- `JsonText`: JSON escaping into bounded and allocated buffers, and the event texts built from it.
- `TaskList`: the linked list of real-time tasks.

Some results say that the code does less than one might think, each with the exact condition:

- An abort with code 0 that arrives between `nni_aio_begin` and `nni_aio_schedule` loses a sleeping
  operation for good; with nonzero codes none is ever lost (`AioSleep.ZeroAbortLoses`,
  `AioSleep.NothingIsLost`).
- Jobs of one connection are executed in the order of acceptance in every run if and only if there is
  one worker; the pool starts two. Callers that wait until nothing is pending for the slot keep the
  order with any number (`WorkerPool.OrderKeptIff`, `WorkerPool.CarefulCallersKeepOrder`).
- A path of 256 bytes or more is stored cut off and therefore loaded again by every call. Since
  `dlopen` usually gives the same handle again, callers do not see that, but each call uses up one of
  the 32 entries: a single path can fill the table if and only if it is that long, and a full table
  shuts out every other path for good (`HandleCache.LongPathSameIfSteady`,
  `HandleCache.OnePathFillsTableIff`, `HandleCache.OneLongPathShutsOthersOut`). And a path of exactly
  255 bytes can be mistaken for a longer one (`HandleCache.WrongLibraryIff`).
- A sleep can end with code 0 before its expiration, but only while the expire thread works off a
  batch into which the same aio was put for an earlier operation (`AioSleep.EarlyOnlyIfStale`,
  `AioSleep.EarlyCanHappen`).
- A server-sent event survives if and only if it fits the buffer and its name and its data are
  single lines (`Sse.SurvivesIffOneLine`).
- A repeating timer keeps its pace if and only if the loop never comes more than one repeat too late
  (`EvLoop.KeepsPaceIff`).
- What an aio returns as the result of a sleep is what ended it, unless somebody aborts the aio when
  the sleep is already over (`AioSleep.ResultIsOutcome`, `AioSleep.LateAbortReplacesResult`).
- A real-time task with a uuid of 64 bytes or more can be created twice
  (`TaskList.Scheduler.CreateLongTwice`).

One bound is tight but not reachable in practice: the 64 spare bytes of a message event are one too
few for a negative time of nineteen digits, which `time` does not return
(`JsonText.MessageIsWholeIff`).

Where a comment in the source and the code disagree, the model follows the code: the heartbeat sends
the seven bytes of `: ping` and one newline although its literal has two, and
`nni_aio_iov_advance` always returns 0 although its last comment speaks of bytes left over.

## Model

| member | source | states |
|---|---|---|
| `TimerHeap.ParentFacts` | crates/libev/ev.c:2584-2586 | the parent slot with C's truncating division: the root is its own parent, and every other slot's parent lies strictly below it inside the heap |
| `TimerHeap.UpRestores` | crates/libev/ev.c:2669-2689 | `upheap` repairs a heap in which only the link above its slot is wrong |
| `TimerHeap.DownRestores` | crates/libev/ev.c:2589-2631 | `downheap` repairs a heap in which only the links below its slot are wrong |
| `TimerHeap.UpPermutes` | crates/libev/ev.c:2669-2689 | sifting up loses, doubles and changes no entry |
| `TimerHeap.DownPermutes` | crates/libev/ev.c:2589-2631 | sifting down loses, doubles and changes no entry |
| `TimerHeap.AdjustRestores` | crates/libev/ev.c:2691-2699 | whatever key is put into any slot of a heap, the one direction that `adjustheap` picks makes it a heap again, with the same entries |
| `TimerHeap.ReheapOrders` | crates/libev/ev.c:2701-2711 | `reheap` turns any array into a heap with the same multiset of entries |
| `TimerHeap.RootIsMin` | crates/libev/ev.c:3808-3834 | the root of a heap is no later than any other entry |
| `EvLoop.Loop.Upheap` | crates/libev/ev.c:2669-2689 | the in-place loop computes exactly the sift-up on values and leaves every moved watcher's `active` equal to its slot |
| `EvLoop.Loop.Downheap` | crates/libev/ev.c:2589-2631 | the in-place loop, with its fast path for four children, computes exactly the sift-down on values and keeps the back-indices |
| `EvLoop.Loop.Adjustheap` | crates/libev/ev.c:2691-2699 | the in-place version equals the one on values and keeps the back-indices |
| `EvLoop.Loop.Reheap` | crates/libev/ev.c:2701-2711 | after any change of keys the in-place loop leaves an ordered heap of the same entries with right back-indices |
| `EvLoop.Loop.EvTimerStart` | crates/libev/ev.c:4383-4406 | starts exactly this timer, with the deadline its relative time plus now; the heap stays ordered, `active` equals the slot, the cached time equals the watcher's, and heap members are exactly the active timers |
| `EvLoop.Loop.EvTimerStop` | crates/libev/ev.c:4408-4437 | stops exactly this timer and leaves the time that remained in it, clears its pending entry, keeps all heap facts, and no other timer changes |
| `EvLoop.Loop.EvTimerAgain` | crates/libev/ev.c:4439-4465 | with a repeat value the timer is active and due one repeat from now, without one it is stopped; its pending entry is cleared; keeps all heap facts |
| `EvLoop.Loop.Do` | crates/libev/ev.c:4383-4465 | an action of a callback: a started timer is due after its relative time with its own repeat, a restarted one after one repeat, a stopped one is inactive; every invariant is kept |
| `EvLoop.Loop.TimersReify` | crates/libev/ev.c:3802-3838 | the pass terminates; exactly the timers with `at < mn_now` fire, each once, in nondecreasing order of deadline; one without repeat is stopped, a repeating one is due one repeat after it was due, or at `mn_now` if that is later; no other timer changes and none is due afterwards; they are fed so that the earlier deadline lies on top |
| `EvLoop.Loop.Tick` | crates/libev/ev.c:3754-3838 | expiry and dispatch together: every due timer fires once, gets the deadline above and an entry with EV_TIMER, which is dispatched for the timer itself, with all that was fed to it meanwhile, if and only if none of the callbacks that run before clears, stops or restarts it, whatever its own and later callbacks do; within a priority, due timers not pending from before are dispatched in nondecreasing order of deadline; no watcher is invoked more than once plus the times a callback feeds it; and the timers at the end are those of the pass, changed by exactly the scripts that were performed |
| `EvLoop.KeepsPaceIff` | crates/libev/ev.c:3810-3834 | over any number of loop iterations in which a repeating timer fires and no callback names it, its deadline advances by exactly one repeat each if and only if no pass came more than one repeat after its deadline; so lateness below that never adds up, and it is never ahead |
| `EvLoop.PassStep` | crates/libev/ev.c:3810-3834 | taking the minimum off the heap extends a pass that so far fired each due timer at most once and in order of deadline |
| `EvLoop.DueIsFired` | crates/libev/ev.c:3808-3837 | a pass that leaves nothing due has fired exactly the timers that were due |
| `EvLoop.Loop.EvFeedEvent` | crates/libev/ev.c:2311-2329 | afterwards the watcher has one entry, with the mask it had and the new events; back-indices and entries keep naming each other |
| `EvLoop.Loop.EvClearPending` | crates/libev/ev.c:4276-4302 | redirects the watcher's entry to the dummy, so that it has none, and returns the mask that was pending |
| `EvLoop.Loop.EvInvokePending` | crates/libev/ev.c:3754-3775 | although its cursor is moved by callbacks that feed, it invokes in exactly the reference order (always the top entry of the highest nonempty queue), returns with all queues empty, and leaves the timers as the performed scripts make them |
| `EvLoop.UnnamedIsKept` | crates/libev/ev.c:3754-3775 | a timer that no callback names is the same after any number of callbacks |
| `EvLoop.Loop.FeedReverseDone` | crates/libev/ev.c:2331-2344 | feeds the remembered watchers from the last to the first and empties the list |
| `PendingQueue.InvokedOnlyAfterFeed` | crates/libev/ev.c:3754-3775 | a watcher that is not pending, because it never was or was cleared, is invoked only after one of the callbacks that ran before has fed it |
| `PendingQueue.ClearedStaysSilent` | crates/libev/ev.c:3754-3775 | in particular it is not invoked at all in a pass whose callbacks do not feed it |
| `PendingQueue.EntriesAreTaken` | crates/libev/ev.c:3754-3775 | every pending entry is taken exactly from its position, for its watcher or for the dummy if it was cleared, whatever callbacks do |
| `PendingQueue.InvokedUnlessCleared` | crates/libev/ev.c:3754-3775 | a pending watcher is invoked for its entry if and only if none of the callbacks that run before clears, stops or restarts it, and with exactly the mask of its entry and all the events that these callbacks have fed to it; otherwise the dummy is invoked for that entry |
| `PendingQueue.OwnCallbackMayStop` | crates/libev/ev.c:3754-3775 | a dispatched watcher is invoked if nobody but its own callback stops or restarts it, as with a timer that stops itself |
| `PendingQueue.LastInFirstOut` | crates/libev/ev.c:3754-3775 | of two entries of one queue the upper one is invoked first, under arbitrary callbacks |
| `PendingQueue.HigherPriorityFirst` | crates/libev/ev.c:3754-3775 | an entry of a higher priority is taken before every entry of a lower one, under arbitrary callbacks |
| `PendingQueue.AtMostOncePerFeed` | crates/libev/ev.c:3754-3775 | a watcher is invoked at most once for the entry it had and once for each time a callback feeds it |
| `PendingQueue.FeedOrderIsDispatchOrder` | crates/libev/ev.c:2331-2344 | feeding a list in reverse and popping the stacks dispatches the watchers of one priority in list order, each for itself if and only if no callback that runs before has cleared it |
| `PendingQueue.FedHasMask` | crates/libev/ev.c:2311-2344 | a fed watcher's entry has the events it had before and those that were fed, and nobody else's entry changes |
| `WakeUp.RunInv` | crates/libev/ev.c:2777-2890 | the invariant of the handshake holds in every state of every interleaving of any number of senders with the loop |
| `WakeUp.RaisedFlagWakes` | crates/libev/ev.c:4088-4167 | whatever the senders are doing: while a flag is raised the loop does not block, or the pipe is readable, or some sender in flight will write |
| `WakeUp.SkippedWriteIsSafe` | crates/libev/ev.c:2782-2799 | a sender that skips the write leaves a loop that is not polling, and something that keeps it from blocking unnoticed as long as the flag is up |
| `WakeUp.NoLostWakeUp` | crates/libev/ev.c:4088-4167 | whenever the loop blocks while a watched async or signal is marked, the pipe is readable or a sender in flight will write to it |
| `WakeUp.SendersWakeTheLoop` | crates/libev/ev.c:2777-2823 | from such a state the senders under way, in any order, make the pipe readable within a number of steps known from the start |
| `WakeUp.SendersFinish` | crates/libev/ev.c:2777-2823 | every step of a sender shortens what it has left; senders never wait for the loop |
| `WakeUp.RaisedFlagIsNoticed` | crates/libev/ev.c:2827-2890 | with no sender under way, every loop step brings it closer to lowering a raised flag and scanning all watched items of that kind |
| `WakeUp.OutsideStep` | crates/libev/ev.c:2777-2823 | one step of anybody: new calls do not lengthen the way to pipecb, although a sender clears `skipped` before it writes, and the loop enters pipecb only where it will still read the flag |
| `WakeUp.PipeCbStarts` | crates/libev/ev.c:4088-4167 | in any run of any number of senders, users and the loop, a raised flag stays up while the loop is outside pipecb, and the loop is in pipecb after a number of turns known from the start; a turn is a step of a sender past its first check, or of the loop while no sender is past it |
| `WakeUp.PipeCbReads` | crates/libev/ev.c:2857-2890 | inside pipecb, whatever the senders do, the flag stays up until the loop lowers it and starts the scan of all watched items of that kind, and every loop step brings it closer to that |
| `WakeUp.MarkGoesByDelivery` | crates/libev/ev.c:2880-2887 | no step of anybody lowers the mark of a watched item but the one that delivers that item, and only a marked and watched item is delivered, one at a time |
| `WakeUp.StartedIsUnmarked` | crates/libev/ev.c:5398-5411 | a watcher that is started carries no mark from before |
| `WakeUp.MarkedUntilDelivered` | crates/libev/ev.c:2866-2888 | in any run from a state of the invariant, an item that was marked and is watched all the time is still marked or has been delivered |
| `WakeUp.ScanIsComplete` | crates/libev/ev.c:2866-2888 | a scan does not end before everything of its kind that was marked and watched at its start has been delivered, whatever the senders do meanwhile |
| `WakeUp.PipeCbDelivers` | crates/libev/ev.c:2857-2890 | in any run of senders, users and the loop, a marked and watched item whose flag pipecb is going to read, or whose scan is under way, is delivered after a number of loop steps known by then |
| `WakeUp.DeliveredAtMostOncePerSend` | crates/libev/ev.c:2857-2890 | in every reachable state an item has been delivered at most as often as it was sent, and once less while it is marked |
| `FdSet.PollSet.Modify` | crates/libev/ev_poll.c:54-89 | afterwards `polls` asks for POLLIN and POLLOUT exactly as the new mask has EV_READ and EV_WRITE, and for every other descriptor for what it asked before; `pollidxs` stays the inverse of `polls` through allocation and swap-removal |
| `FdSet.UnlinkedKeeps` | crates/libev/ev.c:4261-4274 | `wlist_del` removes exactly this watcher and keeps the rest distinct and in order |
| `FdSet.FdLoop.FdChange` | crates/libev/ev.c:2470-2484 | marks a descriptor and lists it only if it was not marked; `fdchanges` stays free of duplicates and lists exactly the marked ones |
| `FdSet.FdLoop.IoStart` | crates/libev/ev.c:4330-4358 | puts the watcher in front of its descriptor's list, strips EV__IOFDSET into the change flags and lists the descriptor; every invariant is kept |
| `FdSet.FdLoop.IoStop` | crates/libev/ev.c:4360-4381 | takes the watcher off its list and lists the descriptor; every invariant is kept |
| `FdSet.FdLoop.FdKill` | crates/libev/ev.c:2486-2497 | stops exactly the watchers of the descriptor, front first, each of which gets an error event |
| `FdSet.FdLoop.ReifyOne` | crates/libev/ev.c:2433-2457 | one turn: the mask of the descriptor is the union of its watchers' masks, its marks are gone, the backend asks for exactly that, and nothing changes for other descriptors |
| `FdSet.FdLoop.FdReify` | crates/libev/ev.c:2392-2467 | even if the backend kills descriptors while it is told, `fdchanges` then lists only descriptors killed meanwhile, without duplicates, and all other lists are untouched |
| `FdSet.FdLoop.InterestIsAsked` | crates/libev/ev.c:2392-2467 | between passes the backend's interest in a descriptor is exactly what its started watchers wait for, unless a change of it is still listed |
| `FdSet.FdLoop.PollsIsExact` | crates/libev/ev_poll.c:54-89 | with no change listed, `polls` has exactly one entry per descriptor with a nonempty union of masks, with exactly that mask, and no other entry |
| `EvOnce.OnceCb` | crates/libev/ev.c:5455-5466 | when the user's callback runs, no pending slot, watcher list or heap entry refers to the freed record, and the callback has run once more with this mask |
| `EvOnce.OnceCbIo` | crates/libev/ev.c:5468-5474 | an event on the descriptor passes its mask merged with the timeout's if that is pending too |
| `EvOnce.OnceCbTo` | crates/libev/ev.c:5476-5482 | a timeout passes its mask merged with the descriptor's if that is pending too |
| `EvOnce.Start` | crates/libev/ev.c:5484-5505 | starts exactly what was asked for: the descriptor watcher, in front of its descriptor's list and listed as changed once, a one-shot timer due after the timeout, both or none; every other timer and every other descriptor is as before |
| `EvOnce.CalledAtMostOnce` | crates/libev/ev.c:5455-5482 | in one pass over the pending queues at most one of the two callbacks runs, and at most once, whatever the other callbacks do |
| `EvOnce.TickOnce` | crates/libev/ev.c:5455-5482 | a whole loop iteration with expiry, in which a callback of either watcher performs `once_cb` and no other callback names them: the record's callback runs at most once, and if it has run, both watchers are idle and the timer is stopped |
| `EvOnce.FreedForGood` | crates/libev/ev.c:5455-5482 | over any number of later iterations, feeds, starts, stops and backend updates that do not name the record, nothing ever refers to it again and neither watcher is invoked |
| `ArrayGrowth.NextSize` | crates/libev/ev.c:2242-2265 | the new size is at least `cnt` and at least `2 * (cur + 1)`; a small one is the least doubling, a large one fills whole pages to within one element and is less than one page and one element above that doubling |
| `ArrayGrowth.NeedSize` | crates/libev/ev.c:2280-2288 | every index below `cnt` is in capacity afterwards and nothing shrinks |
| `AioSleep.StepInv` | crates/nng/src/core/aio.c:187-233 | every critical section of begin, schedule, abort, stop, close, cancel, finish and the expire thread keeps the invariant |
| `AioSleep.FinishedOnce` | crates/nng/src/core/aio.c:325-469 | in every reachable state an operation that has begun is finished at most once, none that has not begun, and a stored cancel function is in the hands of at most one party, also while the expire thread holds a stale batch |
| `AioSleep.OutcomesAreRight` | crates/nng/src/core/aio.c:366-438 | in every run from the initial state, the expire thread ends operations with 0 if the full time was set up and NNG_ETIMEDOUT if the aio's timeout was shorter, callers with the code of one of their calls, and a failed schedule with NNG_ECLOSED after a stop or with the nonzero code of an abort |
| `AioSleep.ResultIsOutcome` | crates/nng/src/core/aio.c:447-469 | the result of an aio at rest is the code with which its last operation was ended, if it has not been stopped, nor aborted since it began |
| `AioSleep.LateAbortReplacesResult` | crates/nng/src/core/aio.c:430-434 | an abort that comes when nothing is under way replaces the result of the last operation by its own code |
| `AioSleep.TakingIsFinishing` | crates/nng/src/core/aio.c:748-765 | whoever takes the cancel function, a caller or the expire thread, finds `a_sleep` set and goes on to finish the operation |
| `AioSleep.NeverBack` | crates/nng/src/core/aio.c:325-469 | no step of anybody moves an operation that has begun back |
| `AioSleep.InFlightMovesOn` | crates/nng/src/core/aio.c:748-794 | an operation that is neither over nor waiting for its expiration has a step that brings it closer to its end |
| `AioSleep.ExpirerCloser` | crates/nng/src/core/aio.c:593-667 | with a clock past the expiration of a scheduled sleep, every turn of the expire thread works off something that is before it in the batch or on the list, or ends it: with code 0, or with NNG_ETIMEDOUT if the aio's timeout was shorter than the sleep |
| `AioSleep.OthersDelayNot` | crates/nng/src/core/aio.c:366-577 | no step of any other thread, in particular no sleep scheduled later, puts anything before it; only a caller of abort, stop or close can take it from the expire thread |
| `AioSleep.DueSleepIsFinished` | crates/nng/src/core/aio.c:593-667 | from every state that satisfies the invariant, hence from every reachable one, and in every run of all threads, a scheduled sleep whose expiration has passed is finished, or taken by a caller that will finish it, as soon as the expire thread has had more turns than the work before the sleep needs, and is pursued until then; the expire thread ends it with 0, or NNG_ETIMEDOUT if the aio's timeout was shorter, and a caller with the code that it passed in this run |
| `AioSleep.ExpirerIsAwake` | crates/nng/src/core/aio.c:593-667 | as long as such a sleep is pursued and the clock has passed its expiration, the expire thread can take a turn: it does not sleep past it |
| `AioSleep.TakenIsFinished` | crates/nng/src/core/aio.c:388-469 | what a caller has taken is finished by that caller's next two turns, with the code that it passed, whatever the others do in between |
| `AioSleep.CallerDecides` | crates/nng/src/core/aio.c:388-438 | who aborts, stops or closes a scheduled sleep ends it by two more turns with exactly that code: the given one, NNG_ECANCELED or NNG_ECLOSED |
| `AioSleep.DueSleepEnds` | crates/nng/src/core/aio.c:593-667 | so there is a run of the expire thread alone that finishes it, with 0 or NNG_ETIMEDOUT as it was set up |
| `AioSleep.ExpirerMovesOn` | crates/nng/src/core/aio.c:593-667 | the expire thread can always take a step, at the latest when the time it sleeps until has come |
| `AioSleep.AtRest` | crates/nng/src/core/aio.c:366-409 | when all threads are idle, an operation is finished, waiting for its expiration on the list, or lost |
| `AioSleep.NoTimeoutSleptPast` | crates/nng/src/core/aio.c:593-667 | a scheduled sleep expires when it was asked to, or after the aio's timeout if that is shorter; it is listed or in the batch at hand, and the expire thread does not sleep beyond the expiration of anything listed |
| `AioSleep.EarlyOnlyIfStale` | crates/nng/src/core/aio.c:617-667 | the expire thread ends a sleep before its expiration only if it was put into the batch at hand for an earlier operation: another one has begun since that scan |
| `AioSleep.EarlyCanHappen` | crates/nng/src/core/aio.c:617-667 | and that is reachable: a second sleep of an aio, due at 100, is finished with code 0 by the batch of the scan at 10 |
| `AioSleep.NothingIsLost` | crates/nng/src/core/aio.c:387-391 | with nonzero abort codes `nni_aio_schedule` swallows no operation in any run |
| `AioSleep.NoRunLoses` | crates/nng/src/core/aio.c:366-438 | hence no run from the initial state leaves a begun operation without a party that will finish it |
| `AioSleep.ZeroAbortLoses` | crates/nng/src/core/aio.c:387-391 | an abort with code 0 between begin and schedule can lose the operation, from every such state |
| `AioSleep.LostForever` | crates/nng/src/core/aio.c:387-391 | a lost operation is never finished by any later step |
| `AioSleep.NothingBeginsAfterStop` | crates/nng/src/core/aio.c:349-360 | once an aio has been stopped or closed, no operation of it begins any more, in any run |
| `ExpireQueue.SplitKeepsAll` | crates/nng/src/core/aio.c:617-639 | a scan neither loses nor doubles an entry |
| `ExpireQueue.SplitMeaning` | crates/nng/src/core/aio.c:617-639 | the batch holds strictly expired entries only, at most as many as there is room; an expired one stays only if the batch is full; `eq_next` is at most the expiration of everything that stays |
| `ExpireQueue.KeptIsDistinct` | crates/nng/src/core/aio.c:617-639 | what was listed once is afterwards in the batch or on the list, once |
| `ExpireQueue.SplitKeepsOrder` | crates/nng/src/core/aio.c:617-639 | what stays and what goes into the batch keeps the order of the list |
| `ExpireQueue.PositionSplit` | crates/nng/src/core/aio.c:617-639 | an expired entry gets into the batch, no further back than it was on the list, or the batch is full and as many entries as it has room for are gone from before it |
| `ExpireQueue.Queue.TakeExpired` | crates/nng/src/core/aio.c:617-639 | the scanning loop computes exactly that split in place |
| `ExpireQueue.Queue.Add` | crates/nng/src/core/aio.c:555-566 | appends, and lowers the wake-up time to the new expiration if that is earlier |
| `ExpireQueue.Queue.Remove` | crates/nng/src/core/aio.c:568-577 | unlinks the entry wherever it is; the wake-up time still bounds what is left |
| `IoVector.Aio.Advance` | crates/nng/src/core/aio.c:727-746 | the vectors denote the old bytes with exactly the first n dropped; returns 0; terminates with empty entries too |
| `WorkerPool.Pool.Submit` | src/ws_worker.c:294-312 | refuses if and only if 64 jobs are queued or 16 are counted for the slot, counts the refusal and changes nothing else, and otherwise appends and counts |
| `WorkerPool.Pool.Drain` | src/ws_worker.c:315-333 | hands out all finished replies in order and empties the list |
| `WorkerPool.Pool.RecordResult` | src/ws_worker.c:106-117 | counts the call as a success or a failure, with timeouts among the failures, and keeps total and maximum time |
| `WorkerPool.Pool.Take` | src/ws_worker.c:132-136 | takes the oldest job off the queue |
| `WorkerPool.Pool.PushDone` | src/ws_worker.c:89-104 | appends the reply |
| `WorkerPool.Pool.Release` | src/ws_worker.c:183-186 | gives the place in the quota back |
| `WorkerPool.MapRc` | src/ws_call.c:227-235 | 0 for 0, and -1, -2 and -3 for exactly one result each, -4 for all others; no executor result looks like a timeout |
| `WorkerPool.FirstInFirstOut` | src/ws_worker.c:119-136 | the queue is the accepted jobs not yet dequeued, in order of acceptance, and a worker takes the first of them |
| `WorkerPool.AnsweredAtMostOnce` | src/ws_worker.c:89-198 | no job gets two replies; each reply carries its job's connection; handed out, waiting and discarded replies together are the replies in order; code -7 stands exactly for calls not made, and no job is executed twice |
| `WorkerPool.RightCode` | src/ws_worker.c:138-161 | in every run a job is answered with -7 if and only if its timeout is positive and it had waited longer than that when a worker looked at it, and then it is not executed; otherwise the answer is the code for what the executor returned |
| `WorkerPool.InTimeIsExecuted` | src/ws_worker.c:138-158 | a job without a timeout, or one that a worker looks at in time, is executed and not answered with -7 |
| `WorkerPool.RefusedIffFull` | src/ws_worker.c:294-312 | in every run a call is refused if and only if 64 jobs are queued, or 16 of its slot are queued or in the hands of a worker |
| `WorkerPool.QuietPoolOwesNothing` | src/ws_worker.c:119-198 | once nothing is queued or in flight, every accepted job has a reply, no quota is in use, and total is ok plus failed |
| `WorkerPool.ShutdownDrains` | src/ws_worker.c:230-267 | workers leave only when the queue is empty, so shutdown frees no accepted job |
| `WorkerPool.CountersAreRight` | src/ws_worker.c:106-136 | queue length at most 64 and equal to the list, quota of a slot at most 16 and equal to its queued and in-flight jobs, total equal to queued, unrecorded, ok and failed, timeouts at most failed, maximum at most total time |
| `WorkerPool.StatisticsAreRight` | src/ws_worker.c:106-117 | ok is the number of recorded jobs with code 0, timeouts that with code -7, failed that with another code than 0, and the times are total and maximum of the times from looking at a job to its reply |
| `WorkerPool.OneAtATime` | src/ws_worker.c:150-158 | the executor never runs twice at once for the connections of one slot |
| `WorkerPool.QuotaGuardNeverFires` | src/ws_worker.c:183-186 | a worker that gives its quota back always finds it positive |
| `WorkerPool.NeverStuck` | src/ws_worker.c:119-198 | while a job is queued or in flight, or a stopping pool has a worker left, some worker can take a step |
| `WorkerPool.WorkersFinish` | src/ws_worker.c:119-198 | every worker step reduces the work left, and only accepting a job adds to it, so shutdown ends |
| `WorkerPool.OrderKeptIff` | src/ws_worker.c:119-181 | the jobs of each connection, and all jobs, are executed in order of acceptance in every run if and only if the pool has one worker |
| `WorkerPool.OrderCanInvert` | src/ws_worker.c:150-158 | with any number of workers from two on, two jobs of one connection can be executed in the opposite order |
| `WorkerPool.CarefulCallersKeepOrder` | src/ws_worker.c:273-313 | with any number of workers, callers that submit only while nothing is pending for the slot get the jobs of each connection executed in order |
| `Sse.ParseBlock` | ts/sse_request.ts:35-60 | the loop over the lines computes the effect of the lines in order, and null exactly when no field was set |
| `Sse.TakeBlocks` | ts/sse_request.ts:94-102 | takes the events of the complete blocks off the buffer, up to the count, and leaves the incomplete rest |
| `Sse.ReadSse` | ts/sse_request.ts:85-103 | however the stream is cut into chunks, the reader returns the events of the whole text, up to the count |
| `Sse.EventsAppend` | ts/sse_request.ts:90-103 | a chunk adds exactly the events of the unfinished rest and itself |
| `Sse.ReadFromServer` | src/handler_sse.c:82-195 | what the reader returns for a stream that the server sent: exactly the events that fit, each with the given name and data or their defaults, in order, up to the count, for events without newlines, 7-byte heartbeats anywhere between them and any chunking |
| `Sse.SentIffFits` | src/handler_sse.c:82-92 | an event is sent if and only if 21 bytes and the lengths of its id, name and data, with the defaults, are less than the size of the buffer |
| `Sse.NothingWaits` | ts/sse_request.ts:94-102 | an event is read as soon as its text has arrived, whatever follows |
| `Sse.SurvivesIffOneLine` | src/handler_sse.c:82-95 | an event reaches the client as it was given if and only if 21 bytes and its id, name and data are shorter than the buffer and neither its name nor its data contains a newline |
| `Sse.IdIsExact` | src/handler_sse.c:89-90 | the printed id reads back as the same number |
| `Sse.DataLinesAreRead` | ts/sse_request.ts:35-60 | a text of several lines that a server sends as several data lines is read back whole, with newlines between them |
| `HandleCache.RunInv` | src/calldyn.c:42-81 | in every interleaving of any number of callers the published entries are complete and the lock protects the unpublished one |
| `HandleCache.PublishedNeverChanges` | src/calldyn.c:42-81 | entries below the published count are fully written and no later step of any thread changes them |
| `HandleCache.SameHandle` | src/calldyn.c:42-81 | for a path under 256 bytes all results that are not null in a whole run are the same handle |
| `HandleCache.HitsAreReturned` | src/calldyn.c:42-62 | once a path has an entry, every call for it that ends later returns the handle of the first one, also a call that is under way, and `dlopen` is not asked for it any more, in any run |
| `HandleCache.OneEntryPerPath` | src/calldyn.c:57-77 | when all paths are under 256 bytes, no path has two entries |
| `HandleCache.LongPathLoadsAgain` | src/calldyn.c:70-72 | a path of 256 bytes or more is not found again: two calls ask `dlopen` twice, and return different handles with a `dlopen` that answers differently |
| `HandleCache.LongPathSameIfSteady` | src/calldyn.c:57-77 | with a `dlopen` that always answers the same for the same path, all calls for one long path that get a handle get the same one |
| `HandleCache.LongPathsUseEntriesUp` | src/calldyn.c:69-75 | in any run, each call for a long path that gets a handle uses up an entry of the table, so that at most 32 of them do, all long paths together |
| `HandleCache.FullTableRefuses` | src/calldyn.c:63-76 | in any run, once the table is full nothing is loaded any more, and every call for a path without an entry returns null |
| `HandleCache.OnePathFillsTableIff` | src/calldyn.c:63-76 | calls for a single path, with a `dlopen` that always gives the same handle, can fill all 32 entries if and only if the path has 256 bytes or more |
| `HandleCache.OneLongPathShutsOthersOut` | src/calldyn.c:63-76 | for every path of 256 bytes or more there is such a run after which a call for any other path but its stored part returns null for ever, without asking `dlopen` |
| `HandleCache.OwnHandleUnlessShadowed` | src/calldyn.c:42-81 | a returned handle is one that `dlopen` gave for that very path, unless a longer path has been loaded whose first 255 bytes are this path |
| `HandleCache.WrongLibraryIff` | src/calldyn.c:70-72 | a call for a path can return the handle of another library if and only if the path has exactly 255 bytes |
| `HandleCache.Stored` | src/calldyn.c:70-71 | an entry keeps the whole path exactly when it is shorter than 256 bytes, and a prefix otherwise |
| `JsonText.EscapeJson` | src/event_format.c:9-37 | the buffer holds the escape of the longest prefix that fits, terminated, and is untouched behind that |
| `JsonText.EventEscapeJson` | src/event_format.c:9-37 | the same with the cases of a missing input and a missing buffer |
| `JsonText.FitIsLongest` | src/event_format.c:25-35 | that prefix is the longest one whose escape leaves room for the terminator |
| `JsonText.UnescapeEscaped` | src/event_format.c:13-35 | a JSON reader (section 7 of RFC 8259) gets the text back without the dropped control bytes |
| `JsonText.BufferIsReadable` | src/event_format.c:9-37 | whatever the buffer size, no escape is cut in two: the buffer reads back as a prefix of the input |
| `JsonText.KeptIffNothingDropped` | src/event_format.c:20-23 | the text comes back unchanged if and only if it has no control byte other than newline, return and tab |
| `JsonText.EventEscapeAlloc` | src/event_format.c:39-46 | `2 * len + 1` bytes never truncate: the result is the escape of the whole input |
| `JsonText.JsonEscapeDup` | src/ws_call.c:116-150 | stays inside its buffer and returns the same string as `event_escape_alloc` for every input |
| `JsonText.TypedEventsAreWhole` | src/event_format.c:48-126 | typed events are never truncated, for every time that fits a 64-bit long |
| `JsonText.MessageIsWholeIff` | src/event_format.c:72-94 | a message event is complete if and only if the time is greater than -10^18, hence for every time the clock returns |
| `JsonText.MessageIsRead` | src/event_format.c:72-94 | a JSON reader finds in a message event the type `message`, the message under `message`, and the time under `timestamp` |
| `JsonText.StringEventIsRead` | src/event_format.c:96-126 | ... in an event with a string, the type under `type`, the string under `data` and the time under `timestamp` |
| `JsonText.DataEventIsRead` | src/event_format.c:48-70 | a JSON reader finds in an event with raw data the type, whatever it makes of the data, and the time, in this order |
| `TaskList.Scheduler.FindNode` | src/realtime.c:53-60 | finds the first node with the uuid, or null exactly when there is none |
| `TaskList.Scheduler.CreateTask` | src/realtime.c:86-137 | returns null exactly when the uuid is taken, and otherwise puts a new node in front; the counter stays the length of the list; a uuid under 64 bytes keeps the uuids pairwise different, and a longer one is never refused and does so if and only if its first 63 bytes are not stored yet |
| `TaskList.Scheduler.RemoveTask` | src/realtime.c:203-221 | unlinks exactly this node and keeps the others in order and the uuids different, or returns -1 and changes nothing |
| `TaskList.Scheduler.RemoveTasksByConn` | src/realtime.c:324-349 | leaves exactly the nodes of other connections in their order, keeps the uuids different and returns how many it removed |
| `TaskList.Scheduler.Perform` | src/realtime.c:86-349 | every run of creations with uuids under 64 bytes, removals and changes of connection keeps counter, links and pairwise different uuids |
| `TaskList.Scheduler.CreateLongTwice` | src/realtime.c:112-113 | a uuid of 64 bytes or more can be created twice and then stands in the list twice |
| `TaskList.Stored` | src/realtime.c:112-113 | the uuid is stored whole exactly when it is shorter than 64 bytes |
| `TaskList.MinusKeeps` | src/realtime.c:203-221 | removing nodes keeps the nodes distinct and the uuids pairwise different |

## Left out

Things the repository does that the models do not:

- Kernel-facing libev backends other than poll; here a backend is poll plus arbitrary kills of descriptors.
- libev's periodics, signals as watchers, child, stat, idle, prepare, check, embed and fork handling, and clock jumps: calls into the system and arithmetic on doubles.
- Times of timers are integers; rounding of doubles is not modelled.
- Calls of `ev_invoke_pending` from inside a callback, and user functions installed in its place.
- Changing a watcher's priority while it is pending, and `ev_io_set` on a started watcher, which libev forbids; a new descriptor or mask means a new `Io` object.
- The memory of watcher lists and of the arrays: lists are sequences, and only `ArrayGrowth` looks at capacities.
- Weak memory: the fences of libev and of `dl_get` are taken to give sequential consistency, and the Windows build of `dl_get` without a mutex is not part of this model.
- The pipe watcher of the wake-up handshake is taken to be registered, and a signal's loop to be set.
- `nni_aio_fini`, `a_expiring` and `eq_exit`: no aio is destroyed in the model; the wait at the end of `nni_aio_stop` only delays its caller.
- Aios that are not sleeping: their providers are code outside the modelled files.
- `ws_worker_submit` overlapping `ws_worker_shutdown`, and starting the pool again afterwards.
- Failing allocations in the worker pool, the escaping functions and the list of tasks.
- Condition variables of the worker pool: a waiting worker looks again at any time.
- What the executor and `dlopen` do: their results are arbitrary.
- The state of an SSE client (intervals, ids, `once` mode), the reading timeout, UTF-8 decoding across chunks, and `Number` on texts that the server never prints; ids above 2^53 are rounded by JavaScript.
- Unicode escapes in the JSON reader, which the escaping functions never produce; the other builders of `src/ws_call.c`.
- Starting, stopping and messaging of real-time tasks; the concurrency of their list.
- HTTP routing, static files, plugin lookup, command parsing, logging: plumbing.

Contracts that are deliberately weaker than what they model:

- EvLoop.Loop.EvInvokePending: describes the runs in which callbacks perform finitely many scripts, because a callback that feeds for ever makes the original run for ever.
- FdSet.FdLoop.FdKill: records the stopped watchers in order instead of feeding them, because feeding is the subject of `EvLoop`.
- EvOnce.OnceCb: sees the descriptor watcher as two objects, one for the pending queues and one for the watcher list.
- ArrayGrowth.NextSize: does not model overflow of int.
- IoVector.Aio.Advance: requires that the vector holds at least n bytes, which the original asserts entry by entry.
- WorkerPool.NeverStuck: says that a step is possible, not that the scheduler takes it.
- AioSleep.InFlightMovesOn: says that a step is possible and (with `AioSleep.NeverBack`) that no other step undoes it, not that the scheduler takes it; a scheduled sleep is the subject of `AioSleep.DueSleepIsFinished`.
- EvOnce.TickOnce: takes the scripts of the record's two callbacks to be those of `once_cb` instead of deriving them from the code of the callbacks, and covers the pending queues and the timers; the watcher list of the descriptor is the subject of `EvOnce.OnceCb`.
- WakeUp.RaisedFlagIsNoticed: requires that no sender is under way; `WakeUp.PipeCbStarts` and `WakeUp.PipeCbReads` cover every interleaving.
