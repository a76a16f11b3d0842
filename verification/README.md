# A model of the queue, poll, worker thread and utilities of tools-on-linux

The repository is a small C++ toolkit: a bounded, optionally sorted, blocking queue; a poll
wrapper that can be woken; a worker thread; a condition variable with relative timeouts; and
byte and rounding helpers. This project models them in Dafny and proves what they promise.

| file | what it models |
|---|---|
| `Ordering.dfy` | the comparator contract, the insertion walk, stable sorting |
| `QueueSpec.dfy` | what one locked section of the queue does, as functions |
| `QueueHeap.dfy` | the linked list, method by method, proved against `QueueSpec` |
| `QueueMonitor.dfy` | any number of threads on one mutex and two condition variables; consumers |
| `QueueCalls.dfy` | what every call does for the thread that makes it, over every interleaving |
| `QueueProducers.dfy` | lost wakeups for producers, and when exactly they happen |
| `QueueDeadlock.dfy` | when all threads can be asleep at once |
| `QueueHistory.dfy` | conservation and the sorted contents, over every interleaving |
| `QueueShutdown.dfy` | what holds after `setAllowedNewData(false)` has returned |
| `PollToken.dfy`, `PollControl.dfy` | the counted wakeup: as steps, and as the methods |
| `PollFlush.dfy` | the handshake of `wait` and `setFlushing` on sequentially consistent atomics |
| `PollAnswers.dfy` | what `wait` answers, and when `setFlushing` raises the wakeup, and when not |
| `PollFds.dfy` | the descriptor table |
| `Worker.dfy` | the worker loop, its hooks, and the threads that wait for it |
| `Deadline.dfy`, `Rounding.dfy`, `Codec.dfy` | deadline arithmetic, rounding macros, byte codecs |

How the pieces fit. `QueueHeap.Queue` is a class over nodes. A waiting push or pop is cut where
it sleeps: `PushEnter` and `PopEnter` are the sections from the call on, `PushLoop` and `PopLoop`
the sections after a wake-up. Each method's contract equates its whole result and new state with
the section function of the same name in `QueueSpec`. The threads of `QueueMonitor` take their
steps by those same functions, so a locked section of the class is one step of the machine. Under
the mutex a section touches a condition variable once, at its end, so treating it as one step
loses no interleaving. The two broadcasts of `setAllowedNewData`, and the read of the flag before
them, happen without the mutex and are steps of their own. Condition variables follow
POSIX.1-2017: waiting releases the mutex and sleeps in one step, a signal wakes at least one
sleeper if there is one, and sleepers may wake for no reason.

A `void *` is a number, and the comparator is a function of two of them, so keys do not change
while queued. The list's shape, conservation and every wakeup property hold for any comparator;
sortedness is proved for every comparator that keeps the contract (`TotalPreorder`). Inputs from
outside the code are parameters: whether `calloc` or `realloc` succeeds, what a system call on the
control socket comes back with, the clock, and which sleepers a signal wakes.

Where the code and its comments differ, the model follows the code:

- a full queue and an empty queue give negative codes, not positive ones (Queue.h:67, Queue.h:86);
- waiting ends when `setAllowedNewData(false)` is called, not `true` (Queue.h:73, Queue.h:92);
- a NULL comparator gives an unsorted queue, not an error (Queue.h:48);
- `waitRelative` takes milliseconds (Condition.h:95).

Seven promises turned out to need a condition. For each there is a concrete run or input for
which the promise fails, and the exact condition under which it holds:

- no producer stays asleep beside free room with nobody on the way to it: all runs of a program
  keep that if and only if the program does no `flush`, has no allocation failure in a woken
  producer, and does not reopen a closed queue. Step by step it rests on a count, the free places
  against the woken producers: the count holds in a state if and only if no continuation without
  the three strands a producer, and throughout a run if and only if each step of the run is
  guarded, that is, one of the three happens only when no producer sleeps or enough are awake;
- no deadlock, that is, consumers and producers of an open queue all asleep at once: under the
  same condition on programs, again if and only if;
- `setFlushing(true)` wakes whoever is inside `poll` if and only if the poll is controllable and
  its control writes do not fail, whatever other threads call `setFlushing(true)` besides;
- `requestExitAndWait` and `join` guarantee that the loop is over if and only if the worker had set
  `mRunning` when they were called;
- `requestExit` and `requestExitAndWait` let at most one more `threadLoop` begin if and only if the
  worker had set `mRunning` when they were called: an early request is taken away by `run` itself
  (Thread.cpp:72) or by an early `requestExitAndWait`, which clears `mExitPending` as it returns
  (Thread.cpp:168-175), and the worker then loops on without bound;
- a longer relative time gives no earlier deadline if and only if the shorter one's deadline lies
  before the last second a `long` can hold, or its nanoseconds are no later;
- `ROUND_UP_N` is the least multiple not below its argument if and only if its sum does not
  overflow the type, signed or unsigned.

## Model

| member | source | states |
|---|---|---|
| `Ordering.WalkFindsLowerBound` | Queue.cpp:330-338 | a walk that stands behind strictly earlier elements stops right behind the last strictly earlier one |
| `Ordering.InsertIndexIsLowerBound` | Queue.cpp:320-349 | the head test and the walk put the node after exactly the elements strictly before it and ahead of all equal ones, in both directions; no other place is the lower bound |
| `Ordering.InsertKeepsSorted` | Queue.cpp:320-349 | a sorted insertion into a sorted list leaves it sorted, under any total preorder |
| `Ordering.InsertKeepsStableSort` | Queue.cpp:320-349 | inserting into the stable sort of some pushes gives the stable sort with the new push put first |
| `Ordering.PopKeepsStableSort` | Queue.cpp:381-390 | removing the head of a stable sort leaves the stable sort of the other pushes |
| `Ordering.StableSortUnique` | Queue.h:43-49 | a sequence of pushes has one stable sort, so the statement pins the contents down |
| `Ordering.StableSortPermutes` | Queue.h:43-49 | a stable sort is a permutation of its input |
| `QueueSpec.PushOutcome` | Queue.cpp:284-356 | a push succeeds exactly when open, with room and memory, and then signals a consumer; each failure code has exactly its cause and changes nothing; it sleeps exactly when full, open and asked to wait |
| `QueueSpec.PopOutcome` | Queue.cpp:358-407 | a pop succeeds exactly when there is an element, hands out the head and signals a producer; otherwise it hands out NULL and changes nothing, and each failure code has exactly its cause; it sleeps exactly when empty, open and asked to wait |
| `QueueSpec.ResumeIsReentry` | Queue.cpp:291-304 | the test before the wait loop is in step with the loop: a woken push or pop does what a fresh one would |
| `QueueSpec.PopManyDrops` | Queue.cpp:376-390 | n successive pops remove the first n elements and stop at empty |
| `QueueSpec.PeekPredictsPop` | Queue.cpp:409-426 | peek(k) is what the (k+1)-th of successive pops returns and fails for the same k; a negative position peeks at the head |
| `QueueSpec.DrainClosedIsComplete` | Queue.cpp:361-373 | on a closed queue successive popAndWait calls return every element in order before Q_ERR_NONEWDATA |
| `QueueHeap.Queue.constructor` | Queue.cpp:6-9 | an empty open unsorted queue with the default capability, and a valid list |
| `QueueHeap.Queue.Bounded` | Queue.cpp:11-17 | 0 means the default capability, any other value is the capability |
| `QueueHeap.Queue.Sorted` | Queue.cpp:19-27 | a comparator gives a sorted queue in the chosen direction, NULL an unsorted one |
| `QueueHeap.Queue.BoundedSorted` | Queue.cpp:29-40 | both |
| `QueueHeap.Queue.LinkLast` | Queue.cpp:313-319 | appends, keeps the chain valid and the tail pointer at its end, for an empty list too |
| `QueueHeap.Queue.FindPlace` | Queue.cpp:330-338 | the two-pointer loop over the nodes stops at the pair the walk names |
| `QueueHeap.Queue.LinkAfter` | Queue.cpp:339-343 | splices the node in, keeps the chain acyclic, and moves the tail pointer when the walk fell off the end |
| `QueueHeap.Queue.LinkFirst` | Queue.cpp:344-348 | puts the node before the head |
| `QueueHeap.Queue.LinkSorted` | Queue.cpp:320-349 | the list with the new element at the place the walk chooses |
| `QueueHeap.Queue.PushEnter` | Queue.cpp:284-356 | a push up to its sleep or return: valid list, and exactly the specified contents, code and signal |
| `QueueHeap.Queue.PushLoop` | Queue.cpp:297-356 | the same from a wake-up on |
| `QueueHeap.Queue.PopEnter` | Queue.cpp:358-407 | a pop up to its sleep or return: valid list, and exactly the specified contents, element, code and signal; Q_ERR_INVALID_ELEMENT never comes |
| `QueueHeap.Queue.PopLoop` | Queue.cpp:366-407 | the same from a wake-up on |
| `QueueHeap.Queue.PopTake` | Queue.cpp:375-406 | unlinks the head, and clears the tail pointer with the last node |
| `QueueHeap.Queue.Peek` | Queue.cpp:409-426 | the element at max(pos, 0), or Q_ERR_INVALID_ELEMENT and NULL when there is none |
| `QueueHeap.Queue.Flush` | Queue.cpp:266-282 | empties the list and tells the callback every element once, in queue order |
| `QueueHeap.Queue.GetCnt` | Queue.cpp:142-154 | the count exactly when it fits in int32, else the same modulo 2^32; 0 exactly when empty |
| `QueueHeap.Queue.IsEmpty` | Queue.cpp:157-171 | true exactly when there are no elements |
| `QueueHeap.Queue.SetAllowed` | Queue.cpp:174-182 | the locked part: the flag changes, the contents do not |
| `QueueMonitor.PushServesConsumers` | Queue.cpp:353 | a push keeps enough woken consumers for the elements |
| `QueueMonitor.PopServesConsumers` | Queue.cpp:361-390 | so does a pop, barging or resumed |
| `QueueMonitor.NoLostConsumerWakeup` | Queue.cpp:353-373 | in every state of every run, with barging, spurious wakeups, flush, close and reopen: if a consumer sleeps, the elements are at most the woken consumers; a non-empty queue never has all waiting consumers asleep |
| `QueueCalls.SleepersKeepTheirCall` | Queue.cpp:291-304 | in every run a thread that sleeps or has been woken is inside the waiting call it began last, with that call's element |
| `QueueCalls.PushesAnswer` | Queue.cpp:284-356 | in every run each step of a push, first or after a wait, links the element of the call exactly when open, with room and memory, wakes a consumer then, and sleeps exactly when the call waits and the queue is full and open; a resumed push returns what a fresh one would |
| `QueueCalls.PopsAnswer` | Queue.cpp:358-407 | likewise each step of a pop takes the head exactly when there is one, wakes a producer then, and sleeps exactly when the call waits and the queue is empty and open |
| `QueueCalls.FlagIsLastAllowed` | Queue.cpp:174-182 | the queue is open exactly when setAllowedNewData stored true last, or never was called |
| `QueueCalls.OthersStay` | Queue.cpp:353-404 | a step moves another thread only by waking it: consumers by a push or the first broadcast, producers by a pop or the second |
| `QueueCalls.EverybodyCanGoOn` | Queue.cpp:284-407 | nothing but sleeping holds a thread up: barging, resuming and waking for no reason are always possible |
| `QueueProducers.NoLostProducerWakeup` | Queue.cpp:293-304 | the same for producers and free places while open, in every run up to the first step that is not guarded |
| `QueueProducers.StepServesProducersIff` | Queue.cpp:174-309 | a step of any kind keeps producers served exactly when it is guarded: no flush, failed allocation of a woken producer or reopening while producers sleep and too few are awake |
| `QueueProducers.RunServesProducersIff` | Queue.cpp:174-309 | a run keeps producers served in all its states exactly when all its steps are guarded |
| `QueueProducers.ServedIffNeverStranded` | Queue.cpp:293-309 | the count of free places and woken producers holds in a state exactly when no continuation without flush, failed allocation of a woken producer, or reopening leaves a producer asleep beside free room with nobody on the way to it |
| `QueueProducers.ProducersServedIff` | Queue.cpp:266-309 | no run of a program strands a producer beside free room exactly if flush, a woken producer without memory, and reopening do not happen at all |
| `QueueProducers.FlushStrandsProducer` | Queue.cpp:266-282 | a run in which flush leaves a producer asleep beside an empty open queue |
| `QueueProducers.FailedPushStrandsProducer` | Queue.cpp:306-309 | a run in which a failed allocation does |
| `QueueProducers.ReopenStrandsProducer` | Queue.cpp:174-191 | a run in which close and reopen do, because the flag is read again without the mutex |
| `QueueDeadlock.BothKindsAsleep` | Queue.cpp:291-373 | in guarded runs of an open queue, when consumers and producers sleep at once, at least as many threads are awake as the queue has places; so never all are asleep |
| `QueueDeadlock.DeadlockFreeIff` | Queue.cpp:266-373 | no run of a program puts consumers and producers of an open queue to sleep with nobody woken, exactly if flush, a woken producer without memory, and reopening do not happen at all |
| `QueueHistory.FifoConservation` | Queue.cpp:313-319 | over every concurrent run of an unsorted queue the accepted pushes are the removed elements followed by the contents |
| `QueueHistory.Conservation` | Queue.cpp:266-407 | over every run of any queue, sorted or not, nothing is lost, duplicated or made up |
| `QueueHistory.SortedRun` | Queue.cpp:313-349 | over every run of a sorted queue the contents are the one stable sort of the surviving pushes taken latest first |
| `QueueHistory.FlushKeepsHistory` | Queue.cpp:266-282 | a flush removes the elements in queue order, as pops would |
| `QueueShutdown.ClosingStep` | Queue.cpp:174-191 | each step of the closing call and of all others keeps what the call has achieved so far |
| `QueueShutdown.Shutdown` | Queue.cpp:174-191 | after setAllowedNewData(false) has returned, unless reopened, nobody sleeps on either condition variable ever, pushes fail without effect, and pops drain before they report no new data |
| `QueueShutdown.ClosedContentsDrain` | Queue.cpp:287-303 | from the closing on the contents only shrink, from the front |
| `PollToken.TokenAccounting` | Poll.cpp:251-315 | in every run of raises, releases and release-alls with retried and failing system calls: with the mutex free, one byte exactly if something is pending; a reader always has a byte |
| `PollToken.PendingIsOutstanding` | Poll.cpp:251-315 | since any successful release-all, or the start, with none in between, the counter is the number of raises that succeeded less the releases that succeeded, counted from the calls alone |
| `PollControl.Control.WakeEvent` | Poll.cpp:227-237 | retries until the byte is written or an error comes; true exactly when the write that is not interrupted goes through, and exactly then a byte is added |
| `PollControl.Control.ReleaseEvent` | Poll.cpp:239-250 | the same for reading and taking a byte, with a byte there to read |
| `PollControl.Control.RaiseWakeup` | Poll.cpp:251-269 | is a run of the token machine between free states; true, and counted, exactly when something was pending or the write goes through |
| `PollControl.Control.ReleaseWakeup` | Poll.cpp:271-295 | likewise; true, and counted, exactly when more than one is pending, or one is and the read goes through |
| `PollControl.Control.ReleaseAllWakeup` | Poll.cpp:297-315 | likewise; true, and the counter cleared, exactly when something is pending and the read goes through |
| `PollFlush.WaitingIsCount` | Poll.cpp:140-175 | mWaiting is the number of threads between the increment and their decrement, in every interleaving of any threads |
| `PollFlush.FlushHandshake` | Poll.cpp:178-193 | with a controllable poll and successful writes, any number of waiters and of threads in setFlushing: once any one setFlushing(true) has returned and until the flag is cleared, whoever is inside poll finds the byte readable, and nobody goes in |
| `PollFlush.QuietHandshake` | Poll.cpp:178-193 | so whenever the flag is set and no thread is inside setFlushing |
| `PollFlush.LeavesBusy` | Poll.cpp:158-175 | a thread inside poll while the flag is and stays set can return only -1 with EBUSY |
| `PollAnswers.WaitAnswers` | Poll.cpp:136-176 | in every interleaving wait returns EPERM exactly if mWaiting counted somebody when it was loaded, else EBUSY exactly if the flag was set at the test before or after poll(), else what poll() returned; whoever is inside poll() found nobody waiting and the flag clear |
| `PollAnswers.FlushAnswers` | Poll.cpp:178-193 | in every interleaving each setFlushing tests the flag after storing it, and goes on to raise the wakeup exactly if it finds the flag set and the poll controllable, and then somebody waiting |
| `PollAnswers.NoCauseNoWakeup` | Poll.cpp:187-192 | in a run in which nobody sets the flag, or nobody waits, or the poll is not controllable, the control socket is never touched |
| `PollAnswers.MutexIsExclusive` | Poll.cpp:251-269 | at most one thread is inside raiseWakeup, and exactly then the mutex is taken |
| `PollAnswers.EverybodyCanGoOn` | Poll.cpp:136-193 | every thread can go on, or waits for the mutex that another one has, which can |
| `PollFlush.HandshakeIff` | Poll.cpp:187-192 | the handshake holds over all runs exactly when the poll is controllable and writes do not fail |
| `PollFlush.UncontrolledPollerSleepsOn` | Poll.cpp:187 | a run in which a poll that is not controllable leaves a thread without a byte |
| `PollFlush.FailedWritePollerSleepsOn` | Poll.cpp:191 | a run in which a failed control write does |
| `PollFds.Fds.FindFd` | Poll.cpp:216-225 | finds the entry for the descriptor, or there is none |
| `PollFds.Fds.AddFd` | Poll.cpp:63-87 | the map with the descriptor added once, with revents 0, and eight more places exactly when it was full; fails exactly when growth is needed and memory is not there, and then the object is unusable |
| `PollFds.Fds.SetFdReadable` | Poll.cpp:103-117 | changes the descriptor's mask in the map and nothing else, or fails with ERROR_BAD_VALUE exactly when there is no such descriptor |
| `PollFds.Fds.SetFdWritable` | Poll.cpp:119-133 | likewise |
| `PollFds.TableAfterCalls` | Poll.cpp:63-133 | after any sequence of calls the mask says what the calls said last; POLLPRI stays once set; the error bits are always there |
| `PollFds.TableUpdated` | Poll.cpp:103-133 | storing a mask in one entry changes the map at that descriptor only |
| `Worker.HookTrace` | Thread.cpp:100-147 | the hooks are readyToRun, threadLoop any number of times of which only the last can return false, then at most one readyToExit, and that before the worker ends |
| `Worker.NobodySleepsOn` | Thread.cpp:127-141 | after the worker's broadcast nobody sleeps; the worker itself never waits for itself |
| `Worker.ExitWaitIsSafe` | Thread.cpp:156-197 | requestExitAndWait and join called once mRunning is set return only when no threadLoop is in progress and none will start |
| `Worker.EarlyWaitMissesWorker` | Thread.cpp:156-197 | called before mRunning is set, or before run, requestExitAndWait and join return at once, and there is a run in which the worker goes on to its loop |
| `Worker.WaitIsSafeIff` | Thread.cpp:156-197 | for either wait, mRunning set is the exact condition for the loop to be over when it returns |
| `Worker.AtMostOneMoreLoop` | Thread.cpp:150-178 | after requestExit, and while requestExitAndWait waits, at most one more threadLoop begins, and none unless the worker was past its check, as long as no requestExitAndWait is early |
| `Worker.RequestStandsIff` | Thread.cpp:150-178 | for requestExit and requestExitAndWait, over all continuations, the further threadLoop calls stay within n exactly when mRunning was set at the call and the worker's place allows at most n; so at most one begins exactly when mRunning was set |
| `Worker.EarlyRequestIsLost` | Thread.cpp:62-178 | for every n, a run in which what was asked for before mRunning is set is taken away, by run or by an early requestExitAndWait, and n threadLoop calls follow |
| `Worker.StopsForAReason` | Thread.cpp:100-197 | as long as nobody asks for an exit and no threadLoop returns false the worker does not leave its loop, however many threads join it |
| `Worker.JoinOnlyWaits` | Thread.cpp:180-197 | join changes nothing but where its caller is |
| `Worker.TurnedAwayIff` | Thread.cpp:156-186 | a wait returns WOULD_BLOCK exactly to the worker until it has decided to exit; called from readyToExit it returns at once |
| `Worker.WaitReturnsIff` | Thread.cpp:156-197 | a wait sleeps exactly while mRunning is set; the call that is turned away leaves no trace |
| `Worker.PendingAfter` | Thread.cpp:62-178 | mExitPending is set by those who ask and by the worker that leaves, and cleared by run and by a requestExitAndWait that returns, only |
| `Worker.SleepersKeepTheirCall` | Thread.cpp:168-194 | in every run a thread that sleeps or has been woken is in the wait it began last |
| `Worker.CreatedByRun` | Thread.cpp:62-98 | there is a worker, and hooks are called, exactly once run has created the thread |
| `Worker.EverybodyCanGoOn` | Thread.cpp:100-197 | the worker can always go on until it is done, and nothing but sleeping holds a caller up |
| `Deadline.AddSeconds` | Condition.h:108-120 | the carry and both saturations |
| `Deadline.WaitRelative` | Condition.h:99-120 | nanoseconds of the exact sum, seconds cut off at LONG_MAX only, no intermediate overflow, for a long of 32 or 64 bits |
| `Deadline.WaitRelativeUs` | Condition.h:130-151 | the same for microseconds |
| `Deadline.DeadlineIsExactIff` | Condition.h:113-120 | the deadline is normalised, and is now plus the relative time exactly when the seconds fit; otherwise earlier by whole seconds |
| `Deadline.DeadlinesKeepDistance` | Condition.h:99-151 | deadlines that are not cut off lie as far apart as their relative times |
| `Deadline.DeadlinesInOrderIff` | Condition.h:113-120 | a longer relative time gives no earlier deadline exactly when the shorter one's exact seconds are below LONG_MAX or its nanoseconds are no later |
| `Deadline.CutOffDeadlinesSwap` | Condition.h:113-120 | two relative times, the longer of which gives the earlier deadline on a 32-bit long |
| `Deadline.MillisAndMicrosAgree` | Condition.h:99-151 | both functions give the same deadline for the same time |
| `Rounding.RoundDownIsFloor` | Utils.h:123 | the greatest multiple not above, for every width and power of two |
| `Rounding.RoundUpIsCeilingIff` | Utils.h:62 | the least multiple not below, exactly when the sum does not overflow; otherwise 0 |
| `Rounding.RoundUpSignedIff` | Utils.h:62 | in a signed type, the least multiple not below a non-negative number exactly when the sum does not overflow; a sum that wraps around gives a negative result |
| `Rounding.AndComplement` | Utils.h:123 | a word splits into its masked part and the part masked by the complement |
| `Codec.PutU32` | Utils.cpp:24-32 | writes four bytes that read back as the value, returns 4, and leaves every other byte alone |
| `Codec.U32RoundTrip` | Utils.cpp:15-32 | get and put are inverse over all values and all byte strings |
| `Codec.U32IsBigEndian` | Utils.cpp:15-22 | what is read is the number the bytes spell, most significant first |
| `Codec.PutS64` | Utils.cpp:50-62 | writes eight bytes that read back as the value, returns 8, and leaves every other byte alone |
| `Codec.S64RoundTrip` | Utils.cpp:34-62 | inverse over all words, negative ones included; the sign is the first byte's top bit |
| `Codec.S64IsBigEndian` | Utils.cpp:34-48 | what is read is the two's complement word the bytes spell |

## Left out

- NoLostProducerWakeup: covers runs of guarded steps, because the property is false of all others; RunServesProducersIff proves that.
- RoundUpSignedIff: takes signed sums to wrap around; in C++ their overflow is undefined.
- ExitWaitIsSafe: covers one `run` of the worker; calling `run` again on the same object is not modelled.
- FlushHandshake: says nothing of the time after the flag has been cleared again, by whichever thread.
- Filtered pop (`cmp` not NULL in `_popElement`): no caller uses it.
- Failing `pthread_mutex_lock` and `unlock`, and the lock error codes: the mutex is taken to work.
- The memory of freed nodes: a removed node leaves the chain, but `free` itself is not modelled.
- The position counter of `peek` is unbounded: it would overflow only beyond 2^31 - 1 elements.
- `mWaiting` and `mControlPending` are unbounded integers: overflow needs 2^31 threads or raises.
- The destructor `_release` and its destroy loop; `mStatus`, which the waits only pass on.
- `Poll::removeFd`, `isReadable`, `isWritable`, timeouts, `poll` itself and the socket pair.
- Adding descriptors while another thread is inside `poll`.
- Memory orders weaker than sequential consistency.
- Negative relative times and times whose nanoseconds overflow 64 bits: the C arithmetic is undefined there.
- `TIME_ARGS`, the fixed-size rounding macros (instances of the general ones), `Logger.cpp`, `Times.cpp`, `QueueSimple.cpp`, `main.cpp`: only easy claims.
