# Verified core of the runtime kernel

A Dafny model of the concurrent heart of the firmware runtime: the bounded
queue, the timer scheduler, TCP connections and the server that tracks them,
framed IPC and its single-instance server, the event bus, the thread manager,
the watchdog's monitor loop and the INI reader. Check the whole project with
`dafny verify dfyconfig.toml`.

## How the model is built

Most components come in two layers.

* A **section layer**: the fields a mutex protects, and one function per
  critical section (or per phase, or per system call). A class holds the same
  fields; its methods perform the sections in place, with the source's own
  branches and loops, and are proved equal to the section functions. What a
  section means, when it answers what and which fields it changes how, is
  stated a second time without naming it (`PopMeans`, `CancelMeans` and so on),
  and proved of the section, of the method and of every step of every run.
* A **runs layer**: a world made of those fields, the whereabouts of every
  thread and a history of what can be observed; an `Event` per atomic step; and
  `IsRun(ws, es)`, which admits every interleaving. An inductive invariant is
  proved step by step, and the promises are theorems about every state of every
  run. Each runs module has its own `RunSteps` (a step of a run is enabled and
  taken) and, where runs are built, its own `Extend`: they are about that
  module's worlds and events, and a module cannot take those as parameters here.

| file | component |
|---|---|
| `Basics` | options, bytes, poll answers, erasing an element of a list |
| `BoundedQueue`, `QueueRuns` | `framework/queue` |
| `TimerTable`, `TimerScheduler`, `TimerRuns`, `TimerHistory`, `TimerTheorems`, `TimerCancellation`, `TimerRearms`, `TimerSteps` | `framework/timer` |
| `NetworkConnection`, `ConnectionRuns`, `ConnectionEnds`, `ConnectionSteps`, `ServerTracking` | `services/network` |
| `IpcErrors`, `IpcFraming`, `FramingRuns`, `SingleInstance`, `SharedDirectory` | `framework/ipc` |
| `EventRegistry`, `EventRuns` | `framework/event` |
| `ThreadManager`, `ThreadJoins` | `framework/thread` |
| `Watchdog` | `framework/watchdog` |
| `Config` | `services/config` |

## What is assumed

* Steps are sequentially consistent. The clock, the kernel's answers (short
  counts, EINTR, EAGAIN, failures), the choice of the thread a `notify_one`
  releases, time-outs, spurious wake-ups and what callbacks do are parameters
  of the steps, so every theorem holds for all of them. Clock readings never go
  backwards.
* Condition variables follow section [thread.condition.condvar] of ISO C++17:
  a waiter is asleep, notified but without the mutex yet, or awake on its own.
* Timer scheduler: Start is called only after the previous Join has returned.
  Timers survive Stop, Join and Start, as in the code, which never clears the
  table.
* Network: each `::send` is one atomic step on this connection's stream, and a
  `::send` on a closed descriptor fails. `NetworkServer::Start` is not called
  while a Stop is under way.
* Single instance: the kernel grants the `flock` to at most one open file and
  frees it when the holder closes it or dies; a crash leaves the socket file
  behind; nobody else touches the directory.
* Framing: one sender, one receiver. After a Send that failed the sender sends
  nothing more on that stream, and after a Recv that failed the receiver reads
  nothing more.

## What the proofs found

* **The socket path is not always the bound one.** `sun_path` takes 107
  characters; a longer path is silently truncated for `bind` but not for
  `unlink`. `SingleInstance.TheFileIsItsOwn` proves that a running server owns
  the file at its path if and only if the path has at most 107 characters;
  `SingleInstance.LongPathRunsWithoutAFile` gives, for every longer path, a run
  with a running server and no file there; and
  `SingleInstance.FreeLockLeadsToRunning` says exactly when a server can still
  get to run.
* **A connection can stay in the server's list after Stop.**
  `ServerTracking.ListedThoughDown` says exactly when: its event was published
  from inside a dispatch or while the server was not subscribed, or was handled
  before the accept thread registered the connection.
  `ServerTracking.StopMayLeaveAStaleEntry` is such a run. What Stop does
  guarantee, that everything registered is disconnected, is
  `ServerTracking.StopLeavesNothingUp`.
* **A handler can outlive Stop**, and it uses the server object.
  `ServerTracking.HandlersOutliveStopExactlyIfDispatching` proves, for every
  Stop of every run, that some continuation runs OnDisconnected before the next
  Start if and only if a publication with the server in its snapshot is still
  under way when Stop returns.
* **Close does not drain**, though `network.h` promises a graceful shutdown.
  `ConnectionEnds.CloseLosesWhatIsNotOnTheWire` proves that a connected
  connection can end with accepted bytes lost if and only if not all of them
  are on the wire yet.
* **A waiting Join can be stranded** without any Detach: a second Join takes the
  completion and a Start that gets no thread clears it.
  `ThreadJoins.WaitingJoinReturnsUnlessSilent` and
  `ThreadJoins.StrandedExactlyByAFailedStart` say exactly when, and
  `ThreadJoins.JoinsItsOwnEpochUnlessRestarted` exactly when a Join ends up
  joining a later epoch than the one it was called for.
* **A lock file is a name like any other.** A server whose path is the name of
  another's lock file unlinks it.
  `SharedDirectory.ExclusiveUnlessTheLockFileIsAPath` proves that a path is
  served by one instance at a time, in every run over a set of paths, if and
  only if the name of its lock file is not one of them.
* **A poll wait can be endless.** The milliseconds left are cast to `int`.
  `IpcFraming.TimeoutIsSafeIfItFits` proves that all waits of a call lie within
  the time left if and only if its timeout is below 2^31 ms.
* **Cancelling does not always stop the callback.**
  `TimerCancellation.CancelStopsTheCallbackUnlessCollected` gives the exact
  rule: a timer that was PENDING, or whose callback in the current batch had
  started, never fires again; one that was collected and had not started fires
  exactly once more.
* **Starting over an unfinished worker endangers Join.** A detached worker posts
  the completion of its successor. `ThreadManager.JoinIsSafeExactlyIfAllPosted`
  proves, for every Start of every run, that some continuation joins a function
  still working if and only if some earlier worker has not posted.
* **A one-second watchdog has no margin**: the kick interval equals the timeout
  (`Watchdog.OneSecondHasNoMargin`), and `Watchdog.MarginExactlyFromTwoSeconds`
  proves that there is one if and only if the timeout is at least two seconds.
* Where comments and code disagree the code is modelled: `ipc.h` speaks of
  detecting stale socket files by a probing connect and of PROTOCOL_ERROR or
  INVALID_ARGUMENT for an oversized message, while the code unlinks whatever is
  there once it holds the lock and answers MESSAGE_TOO_LARGE; `network.h` promises a
  graceful shutdown, while Teardown shuts the send queue down IMMEDIATE.

## Model

| member | source | states |
|---|---|---|
| `BoundedQueue.Queue.constructor` | framework/queue/queue.tpp:10-17 | a new queue is empty and RUNNING, or already SHUTDOWN if its capacity is 0 |
| `BoundedQueue.Queue.Push` | framework/queue/queue.tpp:19-34 | SUCCESS exactly if the queue runs and has room, and then the item is its last and one consumer is released; FULL and SHUTDOWN exactly otherwise, changing nothing |
| `BoundedQueue.Queue.PushFor` | framework/queue/queue.tpp:36-61 | one turn with the mutex: it blocks exactly if the queue runs, is full and the deadline is ahead, times out exactly if the deadline is past, and else answers as Push |
| `BoundedQueue.Queue.Pop` | framework/queue/queue.tpp:63-129 | one turn of Pop or PopFor: the front item exactly if there is one; on an empty queue it blocks, times out or reports SHUTDOWN exactly by state and deadline; the last item of a drain ends it |
| `BoundedQueue.Queue.Close` | framework/queue/queue.tpp:131-161 | refused exactly if already SHUTDOWN; items, state and the release of all waiters for both modes |
| `QueueRuns.StepKeepsInv` | framework/queue/queue.tpp:19-161 | every step of any thread keeps life cycle, wake-up counts, waiter bookkeeping and conservation |
| `QueueRuns.RunKeepsInv` | framework/queue/queue.tpp:10-161 | hence every state of every run has them |
| `QueueRuns.NoWakeUpIsLost` | framework/queue/queue.tpp:19-161 | an un-notified sleeping consumer implies at least as many notified consumers as items, likewise producers and free slots; nobody sleeps un-notified outside RUNNING |
| `QueueRuns.HistoryIsFifo` | framework/queue/queue.tpp:10-161 | pushed = popped ++ queued ++ discarded, nothing discarded without an IMMEDIATE shutdown; size, DRAINING and SHUTDOWN facts |
| `QueueRuns.RunAdvances` | framework/queue/queue.tpp:19-161 | state and histories only move forward; nothing is accepted after RUNNING, nothing handed out after SHUTDOWN |
| `QueueRuns.DrainedBeforeShutdownIsSeen` | framework/queue/queue.tpp:63-161 | after DRAIN alone, when a consumer is told SHUTDOWN every accepted item has been handed out in order, for good |
| `QueueRuns.ConsumersAreAnsweredExactly` | framework/queue/queue.tpp:63-129 | every turn of a Pop in every run answers and changes the queue exactly as it should; an untimed Pop never times out |
| `QueueRuns.ProducersAreAnsweredExactly` | framework/queue/queue.tpp:19-61 | every turn of a Push or PushFor likewise; the item is accepted exactly if the queue runs and has room |
| `QueueRuns.ShutdownIsAnsweredExactly` | framework/queue/queue.tpp:131-161 | every Shutdown likewise; it discards exactly if it is IMMEDIATE and not too late |
| `QueueRuns.WaitsEndExactly` | framework/queue/queue.tpp:36-129 | a time-out or spurious wake-up takes its thread off the sleepers without using up a notification |
| `QueueRuns.ASleepingConsumerIsServed` | framework/queue/queue.tpp:63-91 | a run in which a consumer sleeps, is notified and takes the item |
| `QueueRuns.ASleepingProducerIsServed` | framework/queue/queue.tpp:36-61 | a run in which a producer sleeps, is notified and has its item accepted |
| `TimerTable.IndexOf` | framework/timer/timer_scheduler.cpp:280-291 | the first entry with the id, or none |
| `TimerTable.Without` | framework/timer/timer_scheduler.cpp:445-460 | exactly the entries whose id is not listed remain |
| `TimerTable.Earliest` | framework/timer/timer_scheduler.cpp:304-319 | the minimum of the PENDING deadlines, none exactly if nothing is PENDING |
| `TimerTable.DueTasksAreTheDueTimers` | framework/timer/timer_scheduler.cpp:344-371 | the batch holds exactly the due PENDING timers, once each |
| `TimerTable.ReconcileFate` | framework/timer/timer_scheduler.cpp:386-461 | each entry is kept, re-armed or removed, by whether it was collected and is cancelled, threw or one-shot |
| `TimerTable.ReconcileOrigin` | framework/timer/timer_scheduler.cpp:386-461 | every entry left after reconciling comes from one before it, unchanged or re-armed |
| `TimerTable.RearmBounds` | framework/timer/timer_scheduler.cpp:416-440 | the deadline arithmetic for a deadline that has passed: strictly after the reading, at most one period later, at least one period after the old deadline |
| `TimerRearms.RearmsAreBounded` | framework/timer/timer_scheduler.cpp:416-440 | every re-arm of every run is of a periodic timer whose deadline had passed, and meets those bounds for the period it was scheduled with; FIXED_RATE keeps the grid exactly if the cap does not apply |
| `TimerScheduler.Scheduler.constructor` | framework/timer/timer_scheduler.cpp:46-51 | the initial fields |
| `TimerScheduler.Scheduler.Start` | framework/timer/timer_scheduler.cpp:87-108 | ALREADY_RUNNING, thread creation failure, or running; no other field changes |
| `TimerScheduler.Scheduler.Stop` | framework/timer/timer_scheduler.cpp:110-122 | NOT_RUNNING, or no longer running; the table is kept |
| `TimerScheduler.Scheduler.ScheduleOneShot` | framework/timer/timer_scheduler.cpp:148-187 | each refusal exactly under its condition, and on success one more PENDING one-shot entry with a new id and its deadline |
| `TimerScheduler.Scheduler.SchedulePeriodic` | framework/timer/timer_scheduler.cpp:189-228 | likewise for a periodic entry in either period mode |
| `TimerScheduler.Scheduler.FindEntry` | framework/timer/timer_scheduler.cpp:280-291 | the loop finds the first entry with the id, or reports none |
| `TimerScheduler.Scheduler.CancelTimer` | framework/timer/timer_scheduler.cpp:230-278 | SUCCESS exactly if an entry of that id is PENDING or RUNNING; the first is taken out, the others kept in order, the second marked; INVALID_ARGUMENT exactly for id 0 |
| `TimerScheduler.Scheduler.EarliestDeadline` | framework/timer/timer_scheduler.cpp:304-319 | phase 1 computes the earliest PENDING deadline |
| `TimerScheduler.Scheduler.CollectDue` | framework/timer/timer_scheduler.cpp:344-371 | phase 3 marks exactly the PENDING entries whose deadline has come and copies them, in table order and with their data |
| `TimerScheduler.Scheduler.ReconcileTask` | framework/timer/timer_scheduler.cpp:386-441 | one task of phase 5 re-arms its own entry or reports it for erasure |
| `TimerScheduler.Scheduler.ReconcileBatch` | framework/timer/timer_scheduler.cpp:381-461 | the whole of phase 5 in place equals one simultaneous reconcile of the table |
| `TimerRuns.StepKeepsTable` | framework/timer/timer_scheduler.cpp:148-461 | every step keeps ids distinct and in use, at most 64 entries, and non-PENDING entries matched with the batch |
| `TimerRuns.StepKeepsPark` | framework/timer/timer_scheduler.cpp:148-342 | every step keeps a parked thread's target the earliest deadline, or has notified it |
| `TimerHistory.StepKeepsCancel` | framework/timer/timer_scheduler.cpp:230-461 | every step keeps the log free of anything contradicting an earlier successful Cancel |
| `TimerHistory.StepKeepsRate` | framework/timer/timer_scheduler.cpp:211-221 | every step keeps each deadline at or after, or exactly on, the grid point its past firings give it |
| `TimerTheorems.NeverOversleeps` | framework/timer/timer_scheduler.cpp:293-342 | in every run a parked scheduler's target is no later than any PENDING deadline, and it parks without a target only if nothing is PENDING; otherwise it has been notified |
| `TimerTheorems.BatchIsExact` | framework/timer/timer_scheduler.cpp:344-461 | in every run the non-PENDING entries are exactly the collected ones, so the reconcile lookup never misses |
| `TimerTheorems.ReconcileRemovesTheFinished` | framework/timer/timer_scheduler.cpp:381-461 | after reconciling every entry is PENDING, and an entry is gone exactly if it was cancelled, threw or is one-shot |
| `TimerTheorems.CancellationIsFinal` | framework/timer/timer_scheduler.cpp:230-278 | per id one successful Cancel at most; after it no re-arm, at most one firing, none if it was PENDING |
| `TimerCancellation.CancelStopsTheCallbackUnlessCollected` | framework/timer/timer_scheduler.cpp:230-278 | for every successful Cancel of every run: PENDING or already started in its batch, no further firing ever; collected and not started, exactly one more, made by the time the batch is reconciled |
| `TimerCancellation.StepKeepsSpent` | framework/timer/timer_scheduler.cpp:344-461 | no step starts the callback of a cancelled timer that has no start ahead of it |
| `TimerCancellation.StepKeepsOwed` | framework/timer/timer_scheduler.cpp:373-382 | a collected, cancelled timer keeps its one start ahead until a step makes it, and the batch is not reconciled before |
| `TimerTheorems.ACollectedTimerStillFires` | framework/timer/timer_scheduler.cpp:373-379 | a run in which the callback starts after a successful Cancel: the bound of one is reached |
| `TimerTheorems.RateIsBounded` | framework/timer/timer_scheduler.cpp:345-440 | by time t a periodic timer has fired at most floor((t - scheduled) / period) times, a one-shot at most once |
| `TimerTheorems.NoCallbackStartsEarly` | framework/timer/timer_scheduler.cpp:345-440 | the n-th firing comes after its deadline, which is at least n periods after scheduling, and exactly n for a FIXED_RATE timer never capped |
| `TimerTheorems.LogOnlyGrows` | framework/timer/timer_scheduler.cpp:293-461 | observations and the clock never go back |
| `TimerSteps.CollectsExactly` | framework/timer/timer_scheduler.cpp:344-371 | at every collecting step of every run an entry has a task exactly if it is PENDING with its deadline reached, in table order and with its data; it is RUNNING afterwards and every other entry unchanged |
| `TimerSteps.CancelsAreAnsweredExactly` | framework/timer/timer_scheduler.cpp:230-278 | for every id in every state of every run, when Cancel succeeds, what it does to the table, and whom it wakes |
| `TimerSteps.SchedulesAreAnsweredExactly` | framework/timer/timer_scheduler.cpp:148-228 | every scheduling step: its answer, the entry it adds, and that it wakes the loop exactly if it succeeds |
| `TimerSteps.StartsAndStopsAreExact` | framework/timer/timer_scheduler.cpp:87-139 | every Start, Stop and Join step: what changes, and when nothing does |
| `TimerSteps.LoopTopIsExact` | framework/timer/timer_scheduler.cpp:293-342 | the head of the loop ends, parks with the earliest deadline, starts over or collects exactly when it should |
| `TimerSteps.WaitEndsIsExact` | framework/timer/timer_scheduler.cpp:321-342 | a wait goes on exactly if nothing changed and the target is ahead |
| `TimerSteps.CallbacksRunInOrder` | framework/timer/timer_scheduler.cpp:373-382 | callbacks start in batch order, one at a time, and the loop reconciles after the last |
| `TimerSteps.APeriodicTimerFires` | framework/timer/timer_scheduler.cpp:344-440 | for each period mode a run in which a periodic timer fires and is re-armed where its mode says |
| `NetworkConnection.RecvSection` | services/network/network.cpp:288-377 | which answers of poll and recv lead to a payload, to PEER_CLOSED, to RECEIVE_FAILED and to a mere time-out; it tears the connection down exactly on the two fatal ones, with the error it returns |
| `NetworkConnection.Connection.constructor` | services/network/network.cpp:28-43 | connected, descriptor open, a send queue of 64 chunks |
| `NetworkConnection.Connection.Send` | services/network/network.cpp:81-121 | success exactly if the chunk is valid, the connection up and the queue takes it; SEND_QUEUE_FULL exactly if it is full; otherwise the queue is untouched |
| `NetworkConnection.Connection.Teardown` | services/network/network.cpp:137-189 | the first call takes everything down and decides the event, later calls change nothing |
| `NetworkConnection.Connection.WriteChunk` | services/network/network.cpp:228-284 | for every script of attempts the wire gains a prefix of the chunk as long as the writes say, all of it exactly if the loop ends normally; each other ending exactly by the last attempt, every one before it having gone on, a poll that times out among them |
| `ConnectionRuns.RunKeepsInv` | services/network/network.cpp:81-377 | every state of every run satisfies the teardown and the stream invariant |
| `ConnectionRuns.WireIsAPrefixOfWhatWasAccepted` | services/network/network.cpp:81-286 | before teardown wire ++ rest of chunk ++ queue is what Send accepted; in every state the wire is a prefix of it |
| `ConnectionRuns.TeardownHappensOnce` | services/network/network.cpp:137-189 | descriptor closed once, queue shut down once, at most one event, with the winner's reason, none on the client side |
| `ConnectionRuns.NothingAcceptedAfterShutdown` | services/network/network.cpp:81-189 | once the queue is shut down no Send succeeds |
| `ConnectionEnds.EventIsPublishedUnlessRejected` | services/network/network.cpp:137-189 | of a connection that is down exactly one step ended the teardown; the winner's event is published exactly if the connection is server-side and that step was not rejected |
| `ConnectionEnds.CloseLosesWhatIsNotOnTheWire` | services/network/network.cpp:137-214 | from a connected state of any run a continuation, accepting nothing more, freezes the wire short of what was accepted if and only if the wire does not hold all of it already |
| `ConnectionEnds.WireOnlyGrows` | services/network/network.cpp:216-286 | along every run the wire only grows, and not at all once the descriptor is closed |
| `ConnectionSteps.SenderAbortsExactlyOn` | services/network/network.cpp:228-284 | a step of any run has the sender enter Teardown exactly on four answers of send and poll, with the reason each stands for |
| `ConnectionSteps.SenderStepsAreExact` | services/network/network.cpp:216-286 | every other step of the sender: when it stops, what it takes from the queue and what it writes |
| `ConnectionSteps.SendsAreAnsweredExactly` | services/network/network.cpp:81-121 | a Send goes on exactly if its chunk is valid and the connection up, and is accepted exactly if the queue runs and has room |
| `ConnectionSteps.CallersEnterTeardownExactly` | services/network/network.cpp:211-377 | Close enters the race with SHUTDOWN, Recv exactly on its fatal answers with their reason |
| `ConnectionSteps.TeardownStepsAreExact` | services/network/network.cpp:137-189 | the first exchange wins; only the winner goes on, in the order of the source |
| `ConnectionSteps.DeliverableUnlessTheSenderFailed` | services/network/network.cpp:81-286 | while the connection is up, all that was accepted can still reach the wire if and only if the sender has met no error |
| `ServerTracking.RunKeepsInv` | services/network/network.cpp:393-608 | every state of every run satisfies the tracking invariant |
| `ServerTracking.TrackingIsSound` | services/network/network.cpp:393-404 | no duplicates in the list; a connection leaves it only after being torn down |
| `ServerTracking.StopLeavesNothingUp` | services/network/network.cpp:499-537 | when the winning Stop returns every connection ever registered is disconnected and stays so |
| `ServerTracking.ServerStepsAreExact` | services/network/network.cpp:499-608 | every step of the accept thread, of Stop and of an event: what is registered, listed, closed and subscribed after it |
| `ServerTracking.LeavesTheListWhenHandled` | services/network/network.cpp:393-404 | a registered connection has left the list exactly if an earlier step ran OnDisconnected for it when it was registered |
| `ServerTracking.ListedThoughDown` | services/network/network.cpp:393-404 | with nothing outstanding for it, a registered connection is listed exactly if an earlier step published its event without reaching the server, or handled it before the registration |
| `ServerTracking.StopWaitsForItsOwnEvents` | services/network/network.cpp:499-537 | of a connection that Stop took down itself nothing is outstanding when it returns |
| `ServerTracking.StopMayLeaveAStaleEntry` | services/network/network.cpp:539-608 | a run with no event rejected in which the list is not empty after Stop |
| `ServerTracking.AHandlerMayOutliveStop` | framework/event/event_bus.h:322-366 | a run in which OnDisconnected, taken into a snapshot before, erases its connection after Stop has returned |
| `ServerTracking.HandlersOutliveStopExactlyIfDispatching` | services/network/network.cpp:469-537 | at every Stop that returns, some continuation runs OnDisconnected before the next Start if and only if a publication with the server in its snapshot is under way |
| `ServerTracking.Server.Register` | services/network/network.cpp:594-598 | in any state the accept thread can register in, the list stays free of duplicates, becomes that of the registering step of the runs, and is restored exactly by the disconnect event of the connection |
| `ServerTracking.Server.OnDisconnected` | services/network/network.cpp:393-404 | the erase-remove loop drops that connection and keeps the others in order |
| `IpcFraming.DecodeUndoesEncode` | framework/ipc/ipc_socket.cpp:15-29 | the header code round-trips every 32-bit length |
| `IpcFraming.EncodeUndoesDecode` | framework/ipc/ipc_socket.cpp:15-29 | and every four bytes are the header of the length they decode to |
| `IpcFraming.FrameIsUnique` | framework/ipc/ipc_socket.cpp:188-261 | two frames at the head of one stream have the same payload |
| `IpcFraming.FramesAreAPrefixCode` | framework/ipc/ipc_socket.cpp:188-261 | if the frames of one message list are a prefix of another's bytes, the list is a prefix of the other |
| `IpcFraming.PollWaitExact` | framework/ipc/ipc_socket.cpp:53-65 | a poll wait lies between 0 and the time left if and only if the milliseconds left modulo 2^32 are below 2^31 |
| `IpcFraming.PollWaitIsSound` | framework/ipc/ipc_socket.cpp:53-65 | so it does at every reading of a call whose timeout fits an int of milliseconds |
| `IpcFraming.TimeoutIsSafeIfItFits` | framework/ipc/ipc_socket.cpp:31-131 | all waits a call may ask for are within the time left if and only if its timeout is below 2^31 ms |
| `IpcFraming.WaitsAreSound` | framework/ipc/ipc_socket.cpp:31-131 | and so do all waits of a whole Send or Recv |
| `IpcFraming.PollWaitOverflows` | framework/ipc/ipc_socket.cpp:53-65 | for every timeout of at least 2^31 ms some reading makes the wait negative |
| `IpcFraming.Channel.WriteAll` | framework/ipc/ipc_socket.cpp:31-80 | a prefix of the data reaches the stream, as long as the answers say, the whole exactly on SUCCESS; every other result is what the last answer stands for |
| `IpcFraming.Channel.ReadAll` | framework/ipc/ipc_socket.cpp:82-131 | the buffer is what was taken from the stream, complete exactly on SUCCESS; every other result is what the last answer stands for |
| `IpcFraming.Socket.Send` | framework/ipc/ipc_socket.cpp:188-218 | refusals write nothing; otherwise a prefix of the frame, complete exactly on SUCCESS; every wait within the time left if the timeout fits an int |
| `IpcFraming.Socket.Recv` | framework/ipc/ipc_socket.cpp:232-261 | a payload exactly on SUCCESS, whose frame is what was taken; never more than header and announced length; every wait within the time left if the timeout fits an int |
| `IpcFraming.RecvStaysInsideTheFrame` | framework/ipc/ipc_socket.cpp:232-261 | from a frame boundary no byte of the next frame is taken and the frame is not found too large |
| `IpcFraming.RecvYieldsThatMessage` | framework/ipc/ipc_socket.cpp:232-261 | a successful Recv at a frame boundary returns the payload of that frame |
| `FramingRuns.RunKeepsInv` | framework/ipc/ipc_socket.cpp:31-261 | every state of every run of sender and receiver satisfies the stream invariant |
| `FramingRuns.ReceivedIsWhatWasSent` | framework/ipc/ipc_socket.cpp:188-261 | for every fragmentation the received payloads are the sent ones in order, all of them once the stream is read to its end |
| `FramingRuns.RecvNeverCrossesAFrame` | framework/ipc/ipc_socket.cpp:232-261 | a Recv under way stays inside the frame of one sent message |
| `FramingRuns.EveryMessageGetsThrough` | framework/ipc/ipc_socket.cpp:188-261 | from every state at rest a Send and a Recv of any message of at most 1 MiB can both succeed, and the message is received |
| `FramingRuns.FailuresAreExact` | framework/ipc/ipc_socket.cpp:188-261 | a call that fails leaves the stream as it is |
| `SingleInstance.StepKeepsInv` | framework/ipc/ipc_server.cpp:23-121 | every system call of any server, and every crash, keeps lock and socket file in agreement |
| `SingleInstance.OneServerAtATime` | framework/ipc/ipc_server.cpp:23-121 | at most one server is between taking the lock and releasing it |
| `SingleInstance.TheFileIsItsOwn` | framework/ipc/ipc_server.cpp:23-121 | the file at a running server's path is the one it bound if and only if the path fits sun_path |
| `SingleInstance.OthersLeaveTheFileAlone` | framework/ipc/ipc_server.cpp:210-234 | no step of another server, Stop after a failed Start included, unlinks or replaces it |
| `SingleInstance.FreeLockLeadsToRunning` | framework/ipc/ipc_server.cpp:23-121 | whenever the lock is free, some execution takes an idle server to running if and only if the name it binds is free once the path has been unlinked; always for a path that fits sun_path |
| `SingleInstance.StartsAlone` | framework/ipc/ipc_server.cpp:23-121 | that execution, step by step and by this server alone, and the files it leaves |
| `SingleInstance.LongPathRunsWithoutAFile` | framework/ipc/ipc_server.cpp:67-82 | for every path that does not fit, a run ending with its server running and no file at the path |
| `SingleInstance.LongPathIsBoundOnce` | framework/ipc/ipc_server.cpp:67-82 | once the truncated name of a too long path exists no later bind succeeds |
| `SingleInstance.StepsAreExact` | framework/ipc/ipc_server.cpp:23-121 | every system call of every execution: what it does to the names and the lock, and where it leaves the server |
| `SingleInstance.BoundNameIsTruncated` | framework/ipc/ipc_server.cpp:67-71 | the bound name is the path, or its first 107 characters |
| `SingleInstance.StopFreesTheLock` | framework/ipc/ipc_server.cpp:210-234 | a running server can always stop, which frees the lock and leaves nothing at the path |
| `SingleInstance.Server.Start` | framework/ipc/ipc_server.cpp:23-121 | success exactly if every call is let through and lock and name are free; a failure leaves server and lock as they were |
| `SingleInstance.Server.BindAndListen` | framework/ipc/ipc_server.cpp:48-109 | between lock and commit: success exactly if the calls and the name allow it; after a failure nothing is at the path and no other file has changed |
| `SingleInstance.Server.Stop` | framework/ipc/ipc_server.cpp:210-234 | gives up its own file and lock, and nothing on a server that is not running |
| `SharedDirectory.StepKeepsInv` | framework/ipc/ipc_server.cpp:23-121 | with servers of many paths, every step keeps a path's lock file the one of that name and its socket file the running server's own, as long as no path is the name of that lock file |
| `SharedDirectory.ExclusiveUnlessTheLockFileIsAPath` | framework/ipc/ipc_server.cpp:34-51 | over any set of paths, a path has one server past the lock at a time in every run if and only if the name of its lock file is not among the paths |
| `SharedDirectory.TheFileIsItsOwn` | framework/ipc/ipc_server.cpp:23-121 | and then the socket file at a path that fits sun_path is that of the server running on it |
| `SharedDirectory.TwoInstances` | framework/ipc/ipc_server.cpp:34-51 | for every path a run in which two servers hold it, a third having unlinked the lock file |
| `SharedDirectory.StepsAreExact` | framework/ipc/ipc_server.cpp:23-121 | every system call of every run over many paths: names, locks and where it leaves the server |
| `EventRegistry.SubscribeKeepsRegistry` | framework/event/event_bus.h:278-312 | the cached total stays the sum of the list lengths and at most 128, lists stay strictly increasing, ids in one list only |
| `EventRegistry.SubscribeRegisters` | framework/event/event_bus.h:278-312 | a successful Subscribe registers one new id and no other |
| `EventRegistry.UnsubscribeKeepsRegistry` | framework/event/event_bus.h:237-254 | removal keeps the same facts and lowers the total exactly if the id was registered |
| `EventRegistry.UnsubscribeRemovesOnlyThat` | framework/event/event_bus.h:237-254 | afterwards exactly the other ids are registered |
| `EventRegistry.MoveKeepsBus` | framework/event/event_bus.h:194-210 | moving a handle keeps registered ids and valid handles in one-to-one correspondence |
| `EventRegistry.CancelKeepsBus` | framework/event/event_bus.h:217-226 | so does cancelling |
| `EventRegistry.SubscribeKeepsBus` | framework/event/event_bus.h:278-312 | so does subscribing |
| `EventRegistry.ActKeepsBus` | framework/event/event_bus.h:183-254 | so does every action on handles, destruction and self-assignment included |
| `EventRegistry.SubscribeIsExact` | framework/event/event_bus.h:278-312 | subscribing succeeds exactly with a callback and fewer than 128 subscribers, and appends the new id to its type's list only |
| `EventRegistry.UnsubscribeIsExact` | framework/event/event_bus.h:237-254 | removal takes the id out of the one list that has it, the rest in order, and lowers the total exactly then |
| `EventRegistry.ActIsExact` | framework/event/event_bus.h:183-226 | what every action on handles does to the handles and the registry: a move hands over, assigning, cancelling and destroying end a subscription |
| `EventRuns.RegistryAgreesWithHandles` | framework/event/event_bus.h:183-312 | in every run total = sum of list lengths = number of valid handles, at most 128; each registered id has exactly one owner |
| `EventRuns.DispatchIsASnapshot` | framework/event/event_bus.h:314-368 | in every run a non-nested Publish calls, once each and in order, exactly the subscribers at its snapshot; a nested one calls nobody |
| `EventRuns.FlagMeansDispatching` | framework/event/event_bus.h:314-368 | a thread's flag is set exactly while it dispatches and clear again on return |
| `EventRuns.PublishesAreAnsweredExactly` | framework/event/event_bus.h:314-342 | every Publish of every run: rejected exactly if its thread is dispatching, over at once exactly if rejected or without a list, and otherwise dispatching its type's list |
| `EventRuns.CallsAreMadeExactly` | framework/event/event_bus.h:342-366 | every call of every dispatch is of the next of its snapshot, one at a time, and Publish returns after the last |
| `EventRuns.HandlesAreExact` | framework/event/event_bus.h:183-312 | the steps on handles in every run are those actions and nothing else |
| `EventRuns.EveryDispatchCanFinish` | framework/event/event_bus.h:340-366 | from every state of every run a dispatch can be brought to its end by its own thread, with all of its snapshot called |
| `EventRuns.EventBus.constructor` | framework/event/event_bus.h:232-235 | an empty registry whose first id is 1 |
| `EventRuns.EventBus.SubscribeTo` | framework/event/event_bus.h:278-312 | an id exactly if there is a callback and fewer than 128 subscribers; it goes to the end of its type's list, and no other list changes |
| `EventRuns.EventBus.RemoveSubscriber` | framework/event/event_bus.h:237-254 | the nested search with early return takes the id out of the one list that has it, the others kept in order, and lowers the total exactly then |
| `EventRuns.EventBus.EraseAt` | framework/event/event_bus.h:243-250 | erasing the entry found and lowering the total equals removal of its id from the whole registry |
| `EventRuns.EventBus.Publish` | framework/event/event_bus.h:314-368 | whatever the callbacks subscribe, cancel, publish or throw, those called are the subscribers on entry; the flag is clear on return |
| `ThreadManager.RunKeepsInv` | framework/thread/thread_manager.cpp:53-177 | every state of every run satisfies the life-cycle invariant: the thread at hand is the last epoch's, every other has been released once |
| `ThreadManager.RunningMeansJoinable` | framework/thread/thread_manager.cpp:53-177 | running holds exactly if there is a thread to join; JOIN_FAILED is unreachable; Start never overwrites a live thread |
| `ThreadManager.ReleasedAtMostOnce` | framework/thread/thread_manager.cpp:139-177 | each worker is joined or detached at most once |
| `ThreadManager.JoinedAfterTheFunctionReturned` | framework/thread/thread_manager.cpp:110-155 | if all earlier workers had posted when an epoch began, its OS join is reached only after its own function has returned, whatever else the run does |
| `ThreadManager.StopRequestIsKept` | framework/thread/thread_manager.cpp:53-108 | a stop request is cleared under a worker of such an epoch only once it has posted or been detached |
| `ThreadManager.StopRequestLasts` | framework/thread/thread_manager.cpp:98-108 | in runs without Detach, once a Stop has succeeded the request stays set until the worker it was made of has posted |
| `ThreadManager.StartsAndStopsAreExact` | framework/thread/thread_manager.cpp:53-108 | every Start and Stop step of every run: what changes, and when nothing does |
| `ThreadManager.JoinsAndWorkersAreExact` | framework/thread/thread_manager.cpp:110-177 | every step of Join, Detach and the workers likewise |
| `ThreadManager.NoDetachNoOverlap` | framework/thread/thread_manager.cpp:53-177 | in runs without Detach every epoch begins with all earlier workers posted |
| `ThreadManager.WithoutDetach` | framework/thread/thread_manager.cpp:53-155 | so there no join precedes the return of its function, and no worker sees its stop request reset |
| `ThreadManager.OverlapBreaksJoin` | framework/thread/thread_manager.cpp:139-177 | from every Start over an unposted worker a continuation joins a function still working |
| `ThreadManager.JoinIsSafeExactlyIfAllPosted` | framework/thread/thread_manager.cpp:53-177 | such a continuation exists if and only if some earlier worker had not posted at the Start |
| `ThreadJoins.WaitingJoinReturnsUnlessSilent` | framework/thread/thread_manager.cpp:110-155 | in every run a waiting Join can return without another Start if and only if completion is at hand or some worker has yet to post |
| `ThreadJoins.StrandedExactlyByAFailedStart` | framework/thread/thread_manager.cpp:53-121 | that fails for a Join accepted earlier if and only if meanwhile a Start got no thread with all workers posted, and none has succeeded since |
| `ThreadJoins.AJoinMayBeStranded` | framework/thread/thread_manager.cpp:53-155 | a run without Detach in which a Join is left waiting |
| `ThreadJoins.JoinsItsOwnEpochUnlessRestarted` | framework/thread/thread_manager.cpp:110-155 | a Join joins the epoch it was called for if and only if no Start succeeded in between, and a later one otherwise |
| `ThreadManager.ThreadManager.Start` | framework/thread/thread_manager.cpp:53-96 | each answer exactly under its condition; a new thread only where there was none; without one the request and the completion are cleared all the same |
| `ThreadManager.ThreadManager.Stop` | framework/thread/thread_manager.cpp:98-108 | SUCCESS exactly if running, and then the request is set and nothing else changes; otherwise nothing changes |
| `ThreadManager.ThreadManager.Complete` | framework/thread/thread_manager.cpp:139-155 | hands the epoch's thread to exactly one joiner; later ones get NOT_RUNNING |
| `ThreadManager.ThreadManager.Detach` | framework/thread/thread_manager.cpp:169-177 | gives the thread up if there is one |
| `Watchdog.CheckAllHealth` | framework/watchdog/watchdog.cpp:293-330 | true exactly if there are checkers and all are healthy; stops at the first that is not or throws |
| `Watchdog.TurnIsExact` | framework/watchdog/watchdog.cpp:273-290 | a turn only sleeps before its deadline; at it, it kicks exactly if all are healthy and sets the next deadline half the timeout, and at least a second, ahead |
| `Watchdog.FirstDeadline` | framework/watchdog/watchdog.cpp:265-271 | the first deadline is half the timeout, and at least a second, after the loop starts |
| `Watchdog.MonitorLoop` | framework/watchdog/watchdog.cpp:261-291 | for any sequence of turns the loop produces the kicks and deadlines that `TurnIsExact` describes |
| `Watchdog.TimerNeverRunsOut` | framework/watchdog/watchdog.cpp:261-291 | for every timeout of at least 2 s with the stated slack and healthy rounds, successive resets are less than the timeout apart |
| `Watchdog.OneSecondHasNoMargin` | framework/watchdog/watchdog.cpp:265-271 | with a timeout of 1 s the first kick is never less than the timeout after the open |
| `Watchdog.MarginExactlyFromTwoSeconds` | framework/watchdog/watchdog.cpp:261-291 | a loop that loses no time and is always healthy keeps all resets less than the timeout apart if and only if the timeout is at least 2 s |
| `Watchdog.EveryKickIsEarned` | framework/watchdog/watchdog.cpp:273-290 | each kick was made by a turn past its deadline whose checkers were all healthy |
| `Watchdog.NoKickWithoutHealth` | framework/watchdog/watchdog.cpp:273-290 | turns that never find everybody healthy never reset the timer |
| `Watchdog.Watchdog.RegisterChecker` | framework/watchdog/watchdog.cpp:173-194 | accepted exactly when stopped, named, given a function and not a duplicate |
| `Config.TrimStripsOnlySpace` | services/config/config.cpp:12-20 | trimming removes white space at the ends and nothing else |
| `Config.TrimmedIsKept` | services/config/config.cpp:12-20 | a trimmed string is a fixed point |
| `Config.SectionIsNearestHeader` | services/config/config.cpp:71-99 | the section in force is that of the nearest preceding valid header |
| `Config.KeysAreDotted` | services/config/config.cpp:120-122 | the full key is the key before any header, and section, dot and key after one |
| `Config.SectionedKeyIsLoaded` | services/config/config.cpp:71-133 | a header and one assignment load as exactly that dotted key |
| `Config.SplitIsExact` | services/config/config.cpp:59-61 | the lines of a file are its text cut at the newlines |
| `Config.HeadersAreRead` | services/config/config.cpp:71-99 | a line is read as the header of a section if and only if it is its name in brackets, with white space around, the name not empty and bracket-free |
| `Config.AssignmentsAreRead` | services/config/config.cpp:61-118 | a line is read as the assignment of a value to a key if and only if it is key=value with white space around the two and the key is well formed |
| `Config.MeaningIsUnique` | services/config/config.cpp:42-136 | at most one map of entries is the meaning of a file |
| `Config.ExtendedMeans` | services/config/config.cpp:59-133 | reading one more line takes the meaning of a prefix to the meaning of the longer one |
| `Config.Config.Load` | services/config/config.cpp:42-136 | on success the entries are the file's meaning: per full key value and line of the last well-formed assignment; on failure they are unchanged |
| `Config.LoadUndoesPrint` | services/config/config.cpp:42-136 | the meaning of a printed map with printable keys and values is that map, with line numbers |
| `Config.PrintThenLoad` | services/config/config.cpp:42-136 | printing such a map and calling Load on the file gives the map back |

## Left out

- Real sockets, files, threads, ioctls and signals: their results are parameters of the steps.
- Widths of 64-bit ids, clocks and counters: unbounded here; only the 32-bit frame length and the int given to poll are modelled at their width.
- Memory ordering and data races on the raw descriptor, and reuse of descriptor numbers after close.
- Fairness, liveness and time-out precision: WriteAll and ReadAll look at the deadline only on EAGAIN, so a script of kernel answers may end with the call still running.
- IpcServer Accept, Disconnect and its Send and Recv wrappers; IpcClient; NetworkClient; the body of NetworkServer::Start: linear sequences or forwarding.
- Config Get and Require lookups, ParseInt, ParseBool and ToLower: library parsing and map lookups.
- Watchdog Start, Stop and Join, and the device classes: the monitor loop and the registration are modelled, opening the device is a parameter.
- Queue Size, Capacity and IsShutdown, SubscriberCount, ConnectionCount and other plain readers.
- Logger, SignalHandler, StopToken internals, Helgrind annotations, main and FirmwareApp.
- ThreadManager self-join from the worker, and NormalizeName.
- A null data pointer is a flag `hasData`; a callback or worker that may be empty is a flag `hasCallback`, `hasChecker` or `hasWorker`.
- EventRuns.EventBus.Publish: follows one thread; the interleaving of many threads is in the runs layer.
- NetworkConnection.Connection: the class performs each operation as one step; the race between the atomic steps of several threads is in ConnectionRuns.
