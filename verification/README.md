# A verified model of the coroutine runtime's protocols

This project models the lock-free core of a C++ coroutine runtime and proves
what it promises. Every shared word of the runtime is accessed with
sequentially consistent atomics, so each protocol is a machine whose moves are
single atomic accesses by any one of any number of threads, in any order. The
theorems speak of `Execute(initial state, moves)` for every sequence of moves.

The layers, each resting on the ones before:

1. The intrusive list (`FifoList*`). Enqueues take effect at the tail exchange,
   dequeues at the exchange that empties the head; any number of threads
   linearize to a first-in first-out queue. The machines above use that queue.
2. Its clients: the mutex (`AsyncMutex*`), the count-down event
   (`CountDownEvent*`) and the barrier (`AsyncBarrier*`). Each mixes one atomic
   word with a wait list; the invariants say who will repair a bad combination.
3. The coroutine: the table behind `setStatus` and the loop around it
   (`CoroutineStatus`, `CoroutineStory`), the life of a frame with its handles,
   completion task, suspensions and cancels (`Lifecycle*`), owners with their
   completion counts (`Ownership*`), and who resumes a coroutine that awaits a
   Task (`Continuation`).
4. The pool: the automatic reset event a worker sleeps on (`AutoResetEvent`),
   and sleeping and waking with any number of workers (`ThreadPool*`).

For each machine, `X.dfy` holds the state, the transition function `Next` and
the invariant, `XProof.dfy` shows that every move keeps it, and `XTheorems.dfy`
states the promises over runs, where the other threads move at any time.
`XAlone.dfy` states what each operation achieves: starting from any state,
whatever the other threads are in the middle of, a thread that moves alone comes
to the end of its call, and the state it leaves is given in full. `After` in
`Undisturbed` is that repetition of one thread's accesses. `CoroutineStory`
tells the life of a coroutine by its events, without the table of `setStatus`,
and `ThreadPoolWork` follows each coroutine from its schedule to its resumption.
Specification state that the code does not have is kept apart, in a `View`,
`Memory` or `History` beside the machine. Three fields inside the machines are
of that kind too: `inside` of the list, `phases` of the mutex and `custody` of
the event say which node or coroutine is where. Accesses update them, and only
`Enabled` reads them, to say what callers must not do. `FifoListRemove` runs
`remove` on the list machine. The `XObject.dfy` files give the same operations
as classes that change their fields in place, run by one thread at a time, with
the loops of the source. `Tally` has the sums and multiset unions over threads
that the invariants use.

Assumptions, all about callers: a node or coroutine is not enqueued while it is
queued; `cancel` and `setOwner` are called by somebody who holds a handle, and
one `cancel` runs at a time; a new owner is the coroutine its thread runs; a
coroutine does not lock a mutex it owns; a barrier is used by exactly as many
participants as its capacity; the completion counts have room for two charges
for every coroutine and two for every thread below their maximum of 2^31 - 1
(`GuardConservesExactly` says what a count at its maximum would do); a run that
reaches `std::abort` or a failed assertion ends there.

Properties that do not hold of the code as written, each with the exact
condition under which they do:

- A dequeue is not lock-free: with nobody else moving it does not return while an
  enqueue behind the node at the head has exchanged the tail and not yet written
  the link, or while nobody has published the head. It returns if and only if the
  list is empty, or the head has its link, or the head is the last node
  (`DequeueReturnsExactly`); then it takes the first node or finds none
  (`DequeueTakes`, `DequeueMisses`).
- `remove` bounds its loop by twice the count it reads, and the count lags behind
  the queue. While an enqueue is past its tail exchange and not yet counted, a
  node that is in the queue can be missed (`LaggingCountMisses`). With nobody
  interfering, a node is found if and only if it stands before the bound
  (`RemoveFindsExactly`), and the answer is right whenever the count read is at
  least the length of the queue, as it is when no enqueue is in that position
  (`RemoveAnswers`).
- `setStatus` can end the program in a correct use: exactly when a cancel asks
  for the pause and the coroutine has been completed and suspended for good
  since the cancel looked (`OnlyLatePauseAborts`, with a run in
  `LatePauseAborts`).
- The assertion of a zero count at the end of a SyncTask's final awaiter fails
  exactly when another thread, inside `setOwner`, holds a guard on its count
  (`AssertionsExact`, with a run in `ZeroAssertionCanFail`).
- The assertion of a null owner in a SyncTask's completion task fails exactly
  when the last exchange on its owner was that of a `setOwner` which names one
  (`AssertionsExact`). A task for which no call ever names an owner never fails
  it (`UnownedNeverFails`); one whose owner is in place when the calls on it have
  ended always does (`OwnedAlwaysFails`, with a run in `OwnerAssertionCanFail`).

## Model

| member | source | states |
|---|---|---|
| FifoListProof.Preserved | concurrent_fifo_list.hpp:24-82 | every access of every thread keeps the list invariant, whose heart is that exactly one holds the head: a non-null head, a dequeuer mid-removal, an enqueuer about to publish, or nobody because the tail is null |
| FifoListTheorems.StepRefines | concurrent_fifo_list.hpp:24-82 | each access does to the abstract queue what its operation does to a sequential queue: append at the tail exchange, take the front at the head exchange, a null answer only with nothing unclaimed |
| FifoListTheorems.StepReplies | concurrent_fifo_list.hpp:24-82 | each operation takes effect once, between its call and its return, and returns what its effect gave |
| FifoListTheorems.Linearizable | concurrent_fifo_list.hpp:24-82 | for any number of threads the effects replay on a sequential queue and each thread has returned exactly its own effects, but for the one it is in |
| FifoListTheorems.FirstInFirstOut | concurrent_fifo_list.hpp:42-70 | in every run the claimed nodes are a prefix of the tail-exchange order, and the queue is the rest |
| FifoListTheorems.AssertionsHold | concurrent_fifo_list.hpp:44-78 | no assertion of dequeue or enqueue fails in any run |
| FifoListTheorems.CountTracksLength | concurrent_fifo_list.hpp:62-92 | the counter is the queue length, less enqueues not yet counted, plus claims not yet uncounted, modulo 2^64 |
| FifoListTheorems.QuiescentList | concurrent_fifo_list.hpp:24-92 | with no operation in flight the links from the head spell the abstract queue and the counter is exact |
| FifoListTheorems.NodesConserved | concurrent_fifo_list.hpp:24-82 | a node inside the list is queued or in one thread's hands, once |
| FifoListTheorems.CallsAnswered | concurrent_fifo_list.hpp:24-82 | in every run each call of each thread is answered once, in order, by an answer fit for what it asked, but for the call the thread is in |
| FifoListAlone.DequeueReturnsExactly | concurrent_fifo_list.hpp:24-64 | a dequeue that has not taken effect returns alone if and only if the list is empty or its head can be taken: it has its link, or is the last node |
| FifoListAlone.DequeueTakes | concurrent_fifo_list.hpp:33-63 | it then answers the front of the queue, whose link it clears, and leaves the rest |
| FifoListAlone.DequeueMisses | concurrent_fifo_list.hpp:26-32 | on an empty list it answers within two accesses that there is nothing |
| FifoListAlone.EnqueueAlone | concurrent_fifo_list.hpp:66-82 | an undisturbed enqueue returns after four accesses with its node at the end of the queue, linked and counted |
| FifoListAlone.NobodyInTheWay | concurrent_fifo_list.hpp:66-82 | with no node claimed and no enqueue short of its link or its publication, every dequeue can return alone |
| FifoListTheorems.Helper | concurrent_fifo_list.hpp:33-80 | while somebody may spin, there is a thread that does not wait and helps: the claimant, the one that writes its link, or the one that publishes the head |
| FifoListTheorems.HelperAdvances | concurrent_fifo_list.hpp:33-80 | the next access of a thread that helps brings the release nearer |
| FifoListTheorems.NeverFarther | concurrent_fifo_list.hpp:33-80 | no move of any thread takes a blocked list farther from its release |
| FifoListTheorems.HelperStays | concurrent_fifo_list.hpp:33-80 | a thread that helps goes on helping until it, or another that helps, moves |
| FifoListTheorems.FairSchedulesRelease | concurrent_fifo_list.hpp:33-58 | under any schedule in which every thread makes a step from time to time, a blocked list is released before the seventh such round is over |
| FifoListTheorems.SpinnersReleased | concurrent_fifo_list.hpp:33-58 | from any state there are at most seven accesses, by threads that are not waiting, that end every spin loop |
| FifoListTheorems.WaitersSeeBlocked | concurrent_fifo_list.hpp:52-58 | a dequeuer that waits for a link does so on a list that somebody will unblock |
| FifoListObject.ConcurrentFifoList.Dequeue | concurrent_fifo_list.hpp:24-64 | takes the first node out of the linked nodes and clears its link, or answers null on an empty list |
| FifoListObject.ConcurrentFifoList.Enqueue | concurrent_fifo_list.hpp:66-82 | links the node behind the last one |
| FifoListObject.ConcurrentFifoList.Remove | concurrent_fifo_list.hpp:94-106 | the loop of dequeues and enqueues is the rotation RemoveFrom with the doubled, wrapped count |
| FifoListObject.RemoveFinds | concurrent_fifo_list.hpp:94-106 | a node found at index k leaves the nodes after it followed by the ones before it |
| FifoListObject.RemoveAbsent | concurrent_fifo_list.hpp:94-106 | two full rotations restore the order of a list without the node |
| FifoListObject.RemoveCorrect | concurrent_fifo_list.hpp:94-106 | below 2^63 nodes: true exactly when present; the rest keeps its cyclic order; an absent node changes nothing |
| FifoListObject.RemoveVerdict | concurrent_fifo_list.hpp:96-97 | at any length: removed if and only if its index is below the wrapped bound |
| FifoListRemove.RemoveRotates | concurrent_fifo_list.hpp:94-106 | among threads stopped anywhere, a remove during which no other operation takes effect does to the queue what the rotation does, with the bound from the count it read |
| FifoListRemove.RemoveAlone | concurrent_fifo_list.hpp:94-106 | a remove that moves alone with the others outside returns, with the rotation and its answer |
| FifoListRemove.RemoveFindsExactly | concurrent_fifo_list.hpp:94-106 | such a remove finds a queued target if and only if it stands before the bound |
| FifoListRemove.RemoveAnswers | concurrent_fifo_list.hpp:94-106 | below 2^63 nodes and threads, such a remove is right when the count it read is at least the length of the queue, and the count is when no enqueue is between its tail exchange and its counting |
| FifoListRemove.LaggingCountMisses | concurrent_fifo_list.hpp:70-97 | a run in which a queued node is missed, with no other operation taking effect |
| AsyncMutexProof.Preserved | event/async_mutex.cpp:23-128 | every access of tryLock, lock, unlock, cancel, remove and the awaiter keeps the mutex invariant |
| AsyncMutexTheorems.NoStrandedWaiter | event/async_mutex.cpp:23-128 | with nobody inside lock, unlock, remove or cancel, no owner implies no waiters |
| AsyncMutexTheorems.MutualExclusion | event/async_mutex.hpp:99-143 | whoever's await_resume returned normally is the owner until its guard goes; there is at most one |
| AsyncMutexTheorems.OwnerChangesItself | event/async_mutex.cpp:58-93 | an owner is replaced only by its own unlock, by nobody or by a coroutine that was waiting |
| AsyncMutexTheorems.OwnerWillUnlock | event/async_mutex.hpp:71-143 | an owner is being scheduled, about to resume, or holding or dropping its guard, also when its resumption throws |
| AsyncMutexTheorems.ScheduledRightly | event/async_mutex.cpp:34-113 | a waiter is scheduled as the owner it then is, or as cancelled |
| AsyncMutexTheorems.WaitersConserved | event/async_mutex.cpp:34-128 | each call of lock is answered by one schedule; until then the coroutine is in the wait list or one hand, once |
| AsyncMutexTheorems.PhasesFollow | event/async_mutex.hpp:99-143 | in every run each co_await comes to await_resume, as owner, as cancelled or by way of the wait list, and each guard, also that of a throw, to one unlock |
| AsyncMutexAlone.AwaitAlone | event/async_mutex.hpp:99-143 | an undisturbed co_await comes out of a free mutex with the guard, stands at the end of the wait list of an owned one, and throws when it or the mutex is cancelled |
| AsyncMutexAlone.AwaitSuspendedAlone | event/async_mutex.cpp:34-56 | with the advice to suspend at once it takes a free mutex and is scheduled, or joins the end of the wait list |
| AsyncMutexAlone.ResumeAlone | event/async_mutex.hpp:135-143 | an undisturbed await_resume has the guard, or throws when the coroutine or the mutex is cancelled |
| AsyncMutexAlone.UnlockAlone | event/async_mutex.cpp:58-93 | an undisturbed unlock makes the first waiter the owner and schedules it, or frees the mutex; of a cancelled mutex it marks and schedules every waiter; a stranger changes nothing of it |
| AsyncMutexAlone.CancelAlone | event/async_mutex.cpp:105-113 | an undisturbed cancel marks and schedules every waiter, in order |
| AsyncMutexAlone.RemoveAlone | event/async_mutex.cpp:120-128 | an undisturbed remove leaves the list as the rotation does, gives a mutex without owner to the next waiter, and the coroutine is scheduled if it was found |
| AsyncMutexAlone.ReturnsAlone | event/async_mutex.cpp:23-128 | wherever a thread is inside the mutex, it returns from there if it moves alone |
| AsyncMutexObject.AsyncMutex.TryLock | event/async_mutex.cpp:23-32 | succeeds exactly on a free mutex, however often the exchange fails spuriously |
| AsyncMutexObject.AsyncMutex.Lock | event/async_mutex.cpp:34-56 | takes a free mutex and schedules, or joins the end of the wait list; either way the mutex is owned |
| AsyncMutexObject.AsyncMutex.Unlock | event/async_mutex.cpp:58-93 | the whole new state for a stranger, a cancelled mutex, no waiter, and a waiter |
| AsyncMutexObject.AsyncMutex.Cancel | event/async_mutex.cpp:105-113 | every waiter is marked and scheduled in order |
| AsyncMutexObject.AsyncMutex.Remove | event/async_mutex.cpp:120-128 | rotates as the list does and repairs a mutex that it finds without owner |
| AsyncMutexObject.RemoveTakesOne | event/async_mutex.cpp:120-128 | exactly the one waiter leaves, and exactly when it was there |
| CountDownEventProof.Preserved | event/async_countdown_event.cpp:42-214 | every access of countDown, countUp, resumeWaiting, enqueue, remove and the awaiter's cancel keeps the event invariant |
| CountDownEventTheorems.NoLostWakeUp | event/async_countdown_event.cpp:42-214 | with nobody inside, a zero count leaves nobody waiting, and whoever was enqueued and not scheduled is in the queue, once |
| CountDownEventTheorems.CountExact | event/async_countdown_event.cpp:42-74 | the count stays in its bounds and is what the successful exchanges made it |
| CountDownEventTheorems.CallsPaid | event/async_countdown_event.cpp:42-74 | in every run each countDown a thread has returned from lowered the count once or read zero, and each countUp raised it once or read the maximum |
| CountDownEventTheorems.WaitersConserved | event/async_countdown_event.cpp:76-106 | each enqueue is refused or answered by at most one schedule; until then its coroutine is in one place |
| CountDownEventTheorems.SchedulesAtZero | event/async_countdown_event.cpp:80-88 | in every run each schedule by resumeWaiting goes back to a zero read by the same thread, with the coroutine in its hand from then on |
| CountDownEventTheorems.HoldsUntilScheduled | event/async_countdown_event.cpp:80-88 | between that read and the schedule nothing takes the coroutine away |
| CountDownEventAlone.CountDownAlone | event/async_countdown_event.cpp:42-89 | an undisturbed countDown ends at one less, or changes nothing at zero; from one it schedules every waiter in order |
| CountDownEventAlone.CountUpAlone | event/async_countdown_event.cpp:61-74 | an undisturbed countUp ends at one more, or changes nothing at the maximum |
| CountDownEventAlone.EnqueueAlone | event/async_countdown_event.cpp:91-106 | an undisturbed enqueue puts its coroutine at the end, or refuses it at zero |
| CountDownEventAlone.RemoveAlone | event/async_countdown_event.cpp:205-214 | an undisturbed remove leaves the queue as the rotation does, and the waiter is scheduled if it was found; nothing happens at zero |
| CountDownEventAlone.ReturnsAlone | event/async_countdown_event.cpp:42-214 | wherever a thread is inside the event, it returns from there if it moves alone |
| CountDownEventObject.AsyncCountDownEvent.CountDown | event/async_countdown_event.cpp:42-59 | down by one but never below zero; reaching zero schedules every waiter in order |
| CountDownEventObject.AsyncCountDownEvent.CountUp | event/async_countdown_event.cpp:61-74 | up by one but never above the maximum; tells whether it came from zero |
| CountDownEventObject.AsyncCountDownEvent.ResumeWaiting | event/async_countdown_event.cpp:76-89 | at zero everybody goes in order; otherwise the first waiter moves to the end |
| CountDownEventObject.AsyncCountDownEvent.Enqueue | event/async_countdown_event.cpp:91-106 | refuses exactly at zero |
| CountDownEventObject.AsyncCountDownEvent.Remove | event/async_countdown_event.cpp:205-214 | rotates as the list does unless the count is zero |
| AsyncBarrierProof.Preserved | event/async_barrier.cpp:15-66 | every access of every participant keeps the barrier invariant over unbounded rounds |
| AsyncBarrierProof.ListLength | event/async_barrier.cpp:49-57 | when the last has arrived, the list holds exactly the participants that the release will dequeue, and the others all wait in this round |
| AsyncBarrierTheorems.PhaseSafety | event/async_barrier.cpp:15-66 | nobody leaves round r before all have arrived in it; rounds differ by at most one; no assertion fails and no null is dequeued |
| AsyncBarrierTheorems.ReleaseExact | event/async_barrier.cpp:56-65 | a release schedules waiters of its own round only, and leaves none of them, while next-round arrivals are appended |
| AsyncBarrierTheorems.ResumedOncePerRound | event/async_barrier.hpp:44-73 | each round of each participant is ended once, by one schedule or by its own release |
| AsyncBarrierTheorems.NeverAllWaiting | event/async_barrier.cpp:34-46 | the participants never all wait |
| AsyncBarrierAlone.EarlyAlone | event/async_barrier.cpp:15-47 | an undisturbed arrival that is not the last stands at the end of the list, is counted, and waits |
| AsyncBarrierAlone.LastAlone | event/async_barrier.cpp:34-66 | the undisturbed last arrival, looking first or not, schedules every other participant in the order of the list and returns, with the count at zero and the list empty |
| AsyncBarrierAlone.EndsAlone | event/async_barrier.cpp:15-66 | wherever a participant is in an await, it comes to wait, or returns, if it moves alone |
| AsyncBarrierObject.AsyncBarrier.ArriveAndWait | event/async_barrier.cpp:15-47 | the last to arrive schedules the others in order and does not suspend; the others suspend |
| AsyncBarrierObject.AsyncBarrier.ArriveAndRelease | event/async_barrier.cpp:49-66 | releases a full round, all but the awaiter itself, in order, or does nothing |
| AsyncBarrierObject.AsyncBarrier.Cancel | event/async_barrier.cpp:73-84 | every waiter is marked and scheduled, once |
| AsyncBarrierObject.AsyncBarrier.Reset | event/async_barrier.cpp:91-95 | the barrier is usable again exactly when nobody is left waiting |
| CoroutineStatus.LoopIsAtomic | coroutine.cpp:78-331 | whatever others do between its accesses, setStatus acts at one of them as its table says of the status found there |
| CoroutineStatus.LoopAlone | coroutine.cpp:78-331 | undisturbed, setStatus finishes at its first access or, when it stores something, at its second |
| CoroutineStory.TableTells | coroutine.cpp:78-331 | every request that may be made, as the coroutine stands, is taken, and leaves the word that tells where the coroutine then is, whether its handles are gone, its completion published, a pause on |
| CoroutineStory.RefusedExactly | coroutine.cpp:82-331 | for every word and request: setStatus ends the program exactly when the request fits nothing that the word may tell of |
| CoroutineStory.WordTellsStory | coroutine.cpp:71-331 | in every proper run of requests, and of claims by an awaiting coroutine, nothing ends the program and the word tells the story |
| CoroutineStory.RestsExactly | coroutine.cpp:121-172 | in every such run the word is YieldedSuspended exactly while a generator rests between two values with a handle held, and AbandonedYieldSuspended exactly when the last handle went while it rested there |
| CoroutineStory.ResumeNeedsCancel | coroutine.cpp:270-280 | a generator dropped at rest, or not yet stopped for its value, is resumed only with the cancelled flag; otherwise the program ends |
| CoroutineObject.Coroutine.SetStatus | coroutine.cpp:78-331 | returns the status it met and stores what the table says, stores nothing, or aborts |
| CoroutineObject.Coroutine.Cancel | coroutine.cpp:346-377 | pauses only a suspended coroutine with an awaiter, asks each blocked awaiter once, in order, and leaves the status suspended |
| CoroutineObject.Coroutine.CancelAwaiters | coroutine.cpp:363-371 | empties the list and tells whether an awaiter is still blocked |
| CoroutineObject.Coroutine.DestroyOrAbandon | task/base_task.hpp:142-198 | only the last handle matters: it destroys a finished frame, or a never awaited or yielded one without children after giving its charge back; it resumes a yielded one with children; it abandons any other |
| LifecycleProof.Preserved | task/base_task.hpp:142-181 | every access of the coroutine, its completion task and its handles keeps the lifecycle invariant, and only a late pause aborts |
| LifecycleTheorems.DestroyedByTheLastEvent | task/async_task_promise.hpp:43-65 | a destruction is made or decided on if and only if the last handle has let go, the coroutine has suspended for good and its completion is published, or the last handle has let go of a Task that nobody awaited |
| LifecycleTheorems.DestroyedExactlyOnce | task/base_promise.hpp:182-190 | the frame is destroyed at most once; after that nobody has an access left to make; and if nobody has one left, it has been destroyed |
| LifecycleTheorems.StatusExact | coroutine.cpp:78-331 | the status word tells exactly which of final suspension, completion and release of the last handle have happened |
| LifecycleTheorems.OnlyLatePauseAborts | coroutine.cpp:292-298 | a step aborts or fails an assertion if and only if it is a pause request that meets a completed and finally suspended coroutine |
| LifecycleTheorems.LatePauseAborts | coroutine.cpp:352-358 | a run in which that happens |
| LifecycleTheorems.PauseHandshake | awaiter.cpp:62-88 | between the two requests of a cancel the coroutine stays inside onResume or short of it, awaiters it took are alive, and the list never holds two; a paused coroutine has a cancel to release it |
| LifecycleTheorems.CancelLeavesUnpaused | coroutine.cpp:373-376 | cancel returns with the coroutine neither paused nor asked to pause |
| LifecycleAlone.CancelAlone | coroutine.cpp:346-377 | an undisturbed cancel sets the flag; if it was not set and the coroutine is suspended, every awaiter in the list is asked, the list is empty and the status is what it was |
| LifecycleAlone.DropAlone | task/base_task.hpp:142-198 | an undisturbed drop gives up one reference; the last destroys a finished or never awaited frame and abandons any other, after a cancel if advised |
| LifecycleAlone.EndsAlone | task/base_task.hpp:142-198 | wherever a handle is inside a cancel or a drop, it comes to the end of it if it moves alone |
| LifecycleBodyAlone.ResumeAlone | awaiter.cpp:62-88 | a suspended coroutine that is resumed and moves alone is running, out of the list of awaiters, unless a cancel wants it to pause |
| LifecycleBodyAlone.PausesAlone | awaiter.cpp:76-81 | while a cancel is in its pause, the coroutine waits, paused, and goes no further |
| LifecycleBodyAlone.SettlesAlone | awaiter.cpp:29-110 | wherever a coroutine is, it comes by itself to user code, to a suspension, to its end, or to the pause of a cancel |
| LifecycleBodyAlone.SuspendAlone | awaiter.cpp:29-60 | a coroutine that awaits something not ready is suspended, its awaiter in the list |
| LifecycleBodyAlone.ReadyAlone | awaiter.cpp:90-110 | a coroutine that awaits something ready goes on, its awaiter out of the list again |
| LifecycleBodyAlone.FinishAlone | task/async_task_promise.hpp:43-65 | without children a coroutine that returns publishes its completion and is suspended for good, or destroys itself if no handle is left; with children it leaves the completion to its completion task |
| LifecycleBodyAlone.CompleteAlone | task/base_promise.hpp:182-190 | the completion task publishes the completed state, and destroys the frame when it comes last |
| LifecycleProof.AbandonFits | task/base_task.hpp:173-181 | the last handle destroys the frame exactly when it comes last of the three events, or when nobody ever awaited it |
| LifecycleProof.LastReference | task/base_promise.hpp:165-175 | a reference count of one means that every other handle is gone |
| OwnershipProof.Preserved | coroutine.cpp:416-451 | every step of setOwner, of the final awaiters and of the completion task keeps the ownership invariant |
| OwnershipTheorems.CountsConserved | coroutine.cpp:416-451 | a count is the token, the guards, the owned coroutines, the charges not yet published and those withdrawn and not yet counted down; zero exactly when there is none of these |
| OwnershipTheorems.GuardConservesExactly | event/async_countdown_event.cpp:61-74 | a guard keeps the counts conserved if and only if countUp does not find the count at its maximum |
| OwnershipTheorems.CallsPaid | coroutine.cpp:416-442 | in every run each setOwner a thread has returned from has put its owner in place once, or found its target completed |
| OwnershipAlone.SetOwnerAlone | coroutine.cpp:416-442 | an undisturbed setOwner moves one charge from the old owner to the new one and leaves a completed coroutine alone |
| OwnershipAlone.FinishAlone | task/async_task_promise.hpp:43-52 | without children a coroutine that finishes gives its charge back to its owner and is done, and the waiter of a SyncTask is signalled; with children it gives up its own token and its completion task waits |
| OwnershipAlone.TaskAlone | task/base_promise.hpp:182-190 | a completion task whose count is zero gives the charge back, and signals the waiter of a SyncTask without owner |
| OwnershipAlone.ReturnsAlone | coroutine.cpp:416-451 | wherever a thread is inside setOwner, it returns from there if it moves alone, and no assertion fails |
| OwnershipTheorems.AssertionsExact | coroutine.cpp:427-448 | the assertions hold in every run, except two of a SyncTask: one fails if and only if somebody else holds a guard on it, the other if and only if the last exchange on its owner was that of a setOwner naming one |
| OwnershipTheorems.UnownedNeverFails | task/sync_task_promise.hpp:108-110 | a SyncTask for which no call names an owner never fails the assertion of a null owner |
| OwnershipTheorems.OwnedAlwaysFails | task/sync_task_promise.hpp:108-110 | a SyncTask whose owner is in place when the calls on it have ended fails it whenever it comes to it |
| OwnershipTheorems.OwnerAssertionCanFail | task/sync_task_promise.hpp:55-62 | a run in which a SyncTask with an owner and a child does |
| OwnershipTheorems.ZeroAssertionCanFail | task/sync_task_promise.hpp:47-53 | a run in which the first of those fails |
| OwnershipTheorems.OwnerReleased | task/base_promise.hpp:182-190 | a coroutine that is done and left alone has no owner, no children and a zero count, whatever raced with its end |
| OwnershipTheorems.LeavesWhenClosed | coroutine.cpp:444-451 | except when moved or cleared, a coroutine leaves its owner only after it has finished and has no children |
| OwnershipTheorems.RootSignalsLast | task/sync_task_promise.hpp:45-62 | when a SyncTask has signalled its waiter, everything attached below it, at any depth, has finished and has no children |
| OwnershipObject.Coroutine.SetOwner | coroutine.cpp:416-442 | one charge moves from the old owner to the new one, the same owner keeps it, and a completed coroutine is left alone |
| OwnershipObject.Coroutine.SignalOwner | coroutine.cpp:444-451 | the owner gets its charge back once |
| OwnershipObject.Coroutine.Finish | task/async_task_promise.hpp:43-52 | without children the owner gets its charge back; with children it does not yet |
| OwnershipTheorems.ChargedOwnerWaits | coroutine.cpp:444-451 | whatever still charges a coroutine finds it before its completion, so an owner that is signalled is in no position to be destroyed |
| Continuation.Preserved | task/task_awaiter.hpp:38-105 | every access of the awaiting coroutine, its final awaiter and any number of cancels keeps the one right to resume in one place |
| Continuation.ResumedExactlyOnce | task/task_awaiter.hpp:71-84 | the awaiting coroutine is resumed at most once, by the final awaiter or a cancel, and exactly once when the awaited Task has finished and no cancel is about to |
| Continuation.NeverForgotten | task/task_promise.hpp:186-189 | a suspended awaiting coroutine is in the continuation of a task still to exchange it, or somebody is about to resume it |
| Continuation.ClearingTakesNothing | task/task_awaiter.hpp:100-105 | the store with which await_resume clears the continuation never takes the coroutine from somebody |
| ContinuationAlone.AwaitAlone | task/task_awaiter.hpp:38-69 | an undisturbed co_await leaves the coroutine in the continuation, and the awaited Task free to run |
| ContinuationAlone.FinishAlone | task/task_promise.hpp:186-189 | a Task that finishes resumes the coroutine it finds in its continuation, and only that |
| ContinuationAlone.CancelAlone | task/task_awaiter.hpp:71-84 | an undisturbed cancel resumes the coroutine that it finds blocked and in the continuation, and otherwise does nothing |
| AutoResetEvent.Preserved | event/sync_auto_reset_event.cpp:19-98 | every access of the waiter and of every setter keeps the event invariant |
| AutoResetEvent.FlagStep | event/sync_auto_reset_event.cpp:19-63 | the event is a flag: up only at an exchange, down only at the store that ends a wait |
| AutoResetEvent.EachSettingConsumedOnce | event/sync_auto_reset_event.cpp:46-63 | every wait that returns has consumed one setting, and no setting is consumed twice |
| AutoResetEvent.NoLostSet | event/sync_auto_reset_event.cpp:19-63 | while the event is set and the waiter blocked, a setter is between its exchange and its notification; the assertions of wait hold |
| AutoResetEventAlone.SetAlone | event/sync_auto_reset_event.cpp:19-27 | an undisturbed set leaves the event set and notifies a waiter that has announced itself, once the mutex is free |
| AutoResetEventAlone.TrySetAlone | event/sync_auto_reset_event.cpp:88-98 | with the mutex free an undisturbed trySet sets the event and notifies; otherwise it does nothing |
| AutoResetEventAlone.WaitTakesAlone | event/sync_auto_reset_event.cpp:46-53 | an undisturbed wait on a set event returns and leaves it unset |
| AutoResetEventAlone.WaitBlocksAlone | event/sync_auto_reset_event.cpp:46-60 | an undisturbed wait on an event that is not set announces itself and blocks |
| AutoResetEventAlone.WakeAlone | event/sync_auto_reset_event.cpp:60-63 | a notified waiter takes the setting and returns, or blocks again without one |
| ThreadPoolProof.Preserved | thread_pool.cpp:93-335 | every access of workers and callers keeps the pool invariant, no assertion fails, and only an enqueue can strand work |
| ThreadPoolProof.GoesOn | thread_state.cpp:20-33 | a caller outside the pool that finds every worker committed to sleep goes on to the first one and sets its event |
| ThreadPoolTheorems.NoStrandedWork | thread_pool.cpp:114-170 | with work queued and no caller between its enqueue and the end of wakeOneThread, some worker will look at the queue again or has its event set |
| ThreadPoolTheorems.SomebodyWillWake | thread_pool.cpp:276-309 | while work is stranded there is a caller such that, under any schedule, the work is stranded no longer once it has made its next four accesses |
| ThreadPoolTheorems.OnlyEnqueueStrands | thread_pool.cpp:224-236 | only an enqueue can strand work, and its caller is then about to wake a worker |
| ThreadPoolTheorems.AssertionsHold | thread_pool.cpp:139-143 | both counters are exact and within the number of workers, pending requests too, and no assertion fails |
| ThreadPoolTheorems.CallersReturnExcused | thread_pool.cpp:276-335 | in every run a call of wakeOneThread or processPendingWakeUps returns only when it has set an event, found nobody who may sleep, tried everybody, left a request or found enough of them, or found none to process |
| ThreadPoolTheorems.WorkersReturnExcused | thread_pool.cpp:276-335 | the same of the calls that workers make |
| ThreadPoolWork.WorkConserved | thread_pool.cpp:93-257 | in every run the coroutines scheduled are, as multisets, those in the global queue, in the workers' queues, in a worker's hand and those resumed; and those resumed are the ones being run and the ones come back from |
| ThreadPoolWork.LookExactly | thread_pool.cpp:67-75 | a look finds the front of the global queue; with that empty, and work that may be local, the front of the queue of the worker it tries; otherwise nothing; all else stays |
| ThreadPoolWork.OwnLookExactly | thread_pool.cpp:77-91 | a worker finds the front of its own queue when it looks there first, or nothing elsewhere |
| ThreadPoolWork.OwnWorkIsSeen | thread_pool.cpp:77-112 | a worker with work in its own queue is running a coroutine, about to, or about to look there |
| ThreadPoolWorkerAlone.HandIsRun | thread_pool.cpp:107-155 | a worker with a coroutine in hand comes to be inside that coroutine by its own next accesses, from any reachable state |
| ThreadPoolWorkerAlone.RunsWork | thread_pool.cpp:103-112 | a worker that finds a coroutine makes one request into an attempt to wake and is then inside that coroutine |
| ThreadPoolWorkerAlone.RunsLateWork | thread_pool.cpp:116-155 | one that finds it in a look before sleeping takes back its announcement, or processes one request, and is then inside that coroutine |
| ThreadPoolWorkerAlone.SleepsAlone | thread_pool.cpp:114-146 | a worker that finds no work and no request looks 34 times, announces itself, looks 33 times again and waits for its event, in both counts |
| ThreadPoolWorkerAlone.PassesRequestOn | thread_pool.cpp:132-155 | one that finds a request instead turns it into an attempt to wake somebody and looks for work again |
| ThreadPoolWorkerAlone.WakesAlone | thread_pool.cpp:139-145 | a worker whose event is set takes the setting, leaves both counts and looks for work again; the last sleeper drops the requests |
| ThreadPoolWorkerAlone.SchedulesAlone | thread_pool.cpp:224-236 | a coroutine that schedules another on its own pool queues it where the pool keeps its work and wakes a worker or leaves a request |
| ThreadPoolAlone.ScheduleAlone | thread_pool.cpp:224-319 | a thread outside queues its coroutine and sets the event of the first worker it can wake, or leaves a request while there are fewer than sleepers |
| ThreadPoolAlone.ProcessAlone | thread_pool.cpp:321-335 | one request, if there is one, becomes one attempt to wake somebody |
| ThreadPoolAlone.Returns | thread_pool.cpp:276-335 | wherever a call of wakeOneThread or processPendingWakeUps is, it returns if its thread moves alone |
| ThreadPoolObject.Workers.WakeFirst | thread_pool.cpp:276-290 | sets the event of the first worker it can wake and of nobody else |
| ThreadPoolObject.Workers.WakeOneThread | thread_pool.cpp:292-319 | wakes the first it can, or leaves a request while there are fewer than sleepers |
| ThreadPoolObject.Workers.ProcessPendingWakeUps | thread_pool.cpp:321-335 | one request becomes one attempt to wake somebody |
| ThreadPoolObject.Workers.SetSleeping | thread_pool.cpp:159-170 | the count follows the flags, and the last to wake up drops the requests |

## Left out

- C++ coroutine mechanics, symmetric transfer, exceptions as such, and the storage of values and results.
- Generators and `co_yield`: their status over any run of requests and the dropping of their last handle are modelled; their values and the switch back to their consumer are not.
- Shutdown of the pool, thread start and join. A look for work is one step, which takes from the global queue or from the queue of any one worker.
- Destructors of events, mutexes and barriers, AsyncScope, and the tail of `await_suspend` after it has enqueued its awaiter.
- A thread that moves alone in the `Alone` theorems meets no spurious failure of a weak exchange; that such failures lose nothing is part of the theorems over runs.
- A `remove` during which other operations take effect has no answer of its own to promise; that nothing is lost then is proved in the mutex and count-down event machines.
- A Task awaited by two coroutines, which the source ends with an abort, and the second await of a finished Task, which does not suspend.
- `setStatus` is one step of the lifecycle machine, justified by LoopIsAtomic; countUp and countDown are one step of the ownership machine, and a wake-up event is a flag in the pool machine, justified by the event machines.
- The advice to suspend is a free choice; awaiting with the advice to suspend at once and scheduling right after is not told apart from not suspending.
- `waitFor` and its timeout; `enqueueAlways`; what a nested SyncTask does after the assertion about its owner has failed.
- A barrier that is cancelled or reset in the middle of a round by another thread, or used by more than its capacity: only in the one-thread object.
- The two loads under the first assertions of `processPendingWakeUps` are one step; both bounds hold in every state.
- Branches that only another thread can make reachable are absent from the one-thread objects and present in the machines.
- The bound on chained executions, fairness, and strict first-in first-out order of the mutex, which the code does not promise.
