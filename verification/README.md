# Verified model of the SRS runtime, configuration language and workers

This project models four parts of SRS in Dafny and proves properties of them.

1. **The State Threads runtime** (`trunk/3rdparty/st-srs`): a user-level scheduler with a run
   queue, an I/O queue, a zombie queue and wait queues, a timeout heap, mutexes, condition
   variables, joins, stack reuse, and the epoll, select and poll event systems.
2. **The configuration language** (`trunk/src/app/srs_app_config.cpp`): tokenizer, parser,
   printer, the rewriting of old vhosts, and the reload differ.
3. **Vectored I/O** that goes on after short counts (`trunk/3rdparty/st-srs/io.c`).
4. **The asynchronous call worker** (`trunk/src/app/srs_app_async_call.cpp`).

`dafny verify dfyconfig.toml` checks everything.

## How the runtime is modelled

* **`Sched`** is the scheduler as a state machine. A blocking call is two steps, up to the context
  switch and from there to the return; what the kernel decides (which descriptors fire, which
  `epoll_ctl` calls it refuses, the clock, whether the process has forked) is an argument of the
  step. `Step` is one step of the running thread or of the idle thread, `Enabled` says when it can
  be taken, and `Run` is a run of any length.
* **`SchedRuns.Inv`** is the invariant of every state of every run of steps that can be taken: each
  thread is exactly where its state and flags say (`SchedInv.Places`), the idle thread runs only
  when nobody else can, wait queues, mutex owners, stacks and the active count are in order
  (`SchedOthers.Others`), and the descriptor table, the kernel and the I/O queue agree
  (`SchedIo.Io`). `SchedMutex`, `SchedCond`, `SchedPoll` and `SchedJoin` draw the consequences, over
  single steps and whole runs. None of this depends on how often a thread is joined.
* **`SchedOrder`** is about joins. In every run at most one thread waits for the end of another
  (`OneJoiner`). That a joiner is told of the end (`Orderly`) holds in runs that join no thread
  twice, and for a single join whatever other threads join; `SchedStrand` follows a second join.
* **`SchedDeadline`** follows a timeout from the call that asks for it to the clock check that takes
  it, **`SchedInterrupt`** an interrupt until it is reported, **`SchedFair`** a thread on the run queue
  until it runs, **`SchedFrame`** the answer to a poll from the event to the result;
  **`SchedAnswers`** has what the calls that do not wait answer and leave behind.
* **`Runtime`** is the same scheduler as a program: thread objects whose fields change in place,
  queues in one object, and the loops of the source. The methods for a call, or for the part of a
  call after a switch, start and end with the invariant and take the abstract state where the step
  of the state machine takes it. The thread objects, and the sleep queue that links them, are in
  **`ThreadTable`**.
* **`TimeoutHeap`** is the sleep queue as the linked structure that it is: a binary tree of the
  thread objects, addressed by the binary digits of the index and relinked node by node. A ghost
  sequence lists the threads by index.
* **`Epoll`** has the counts and registrations as functions and **`EpollSystem`** as the object with
  its loops. The *ledger* of a lemma is the list of poll entries that should be counted.
  **`SelectSystem`** and **`PollSystem`** are the other two event systems.
* **`CircularList`** shows that the list macros keep a ring, and that a walk which unlinks the
  element it is looking at still visits every element once: the other modules can treat queues as
  sequences.

The other parts:

* **`VectorIo`** has the loops of `io.c` over a script of kernel results, and **`VectorRetry`** what
  such a script comes to: how much is moved, when a call fails, and that interrupted rounds do not count.
* **`ConfigText`** is the tokenizer and the parser as functions, **`ConfigReader`** as the program.
  **`ConfigLayout`** says how a directive may be laid out with spaces, comments and quotes,
  **`ConfigSource`** how a file may, **`ConfigRoundTrip`** what survives writing.
* **`ConfigTransform`** is the rewriting of old vhosts as a function, **`ConfigTransformer`** as the
  program. **`ConfigNormal`** is about normal form, **`ConfigKeeps`** about the directives that stay,
  **`ConfigGroups`** about the groups that are filled, **`ConfigRefer`** about the old refer settings.
* **`ConfigReload`** is the differ of a reload, **`AsyncWorker`** the worker of asynchronous calls.

A cause (`NotYet`, `BySignal`, `ByTimeout`, `ByInterrupt`) is a history variable of a wait: the
program does not store it, the theorems relate it to flags and results.

## Assumptions

* `last_clock + timeout` does not wrap, and byte counts fit their types. "No timeout" is `None`.
* A thread id is not used again: the memory of a dead thread is not recycled as a new thread object.
* Every `st_poll` call has its own array of entries. Allocation succeeds.
* The kernel refuses no legal modification or removal of a registration and no registration after a
  fork; any call of `pollset_add` outside a fork may be refused. `epoll_wait` reports registered
  descriptors, each once, with some event.
* A write returns no more bytes than it was offered.

## Results worth knowing

* `SchedStrand.JoinIsToldExactly`: a join that waits is told when its target exits if and only if
  the target has not been joined before. The source does not check this: a second joiner finds an
  empty wait queue and a thread that is no zombie, and waits for ever, whatever the other threads
  do, unless it is interrupted (`SchedStrand.SecondJoinWaitsForever`). It does no harm to anybody
  else: the invariant holds in such runs, too. Four steps from start-up lead to such a
  join (`SchedStrand.SecondJoinHappens`).
* `ConfigRoundTrip.RoundTripsExactly`: a tree survives writing and reading exactly if all its words
  are plain. The printer writes words as they are, although the tokenizer knows quotes: `a "b c";`
  is read and does not survive being written (`ConfigRoundTrip.QuotedWordIsLost`).
* `ConfigNormal.WalkReachesNormalForm` and `SecondWalkChangesNothing`: the rewriting of a vhost
  reaches normal form exactly if no `http_remux` holds more than one `hstrs`, because only the first
  of them is removed (`ConfigNormal.TwoHstrsNeedTwoRuns`).
* `ConfigRefer.ReferIsKeptExactly`: an old `refer a;` becomes `all a;` if and only if it stands before
  every `refer_play` and `refer_publish`. Behind one of them it is found by name when that one looks for
  its block, is taken for the block itself, and what it said is lost
  (`ConfigRefer.ReferBehindPlayIsLost`).
* The line noted for a directive is that of the second character of its first word, because the
  tokenizer looks when a word has already begun (`ConfigLayout.FirstLine`).
* `SchedDeadline.ReadyBeatsClock`: a poll whose descriptor fires in the round in which its time is up
  is ready, not timed out.
* `ConfigReload.TranscodeChanged`: a reload of transcoders sees a change exactly if the maps from
  ids to trees differ, or the new vhost has a transcoder that differs from an earlier one of the
  same id. The source accepts repeated ids of transcoders, so the same vhost can be taken for a
  changed one (`ConfigReload.ShadowedLooksChanged`).
* The select event system's `maxfd` is recomputed only in dispatch; it stays a bound all the same
  (`SelectSystem.System.MaxfdBounds`).
* `_st_stack_free` appends before the tail of the free list rather than after it
  (`CircularList.List.AppendBeforeTail`); the model does the same.

## Model

| member | source | states |
|---|---|---|
| SchedRuns.EveryRun | trunk/3rdparty/st-srs/sched.c:65-133 | from start-up, after any run of steps that can be taken, second joins included, at every context switch: every thread is on exactly the queues its state and flags say, and the whole invariant holds |
| SchedRuns.StepKeeps | trunk/3rdparty/st-srs/sched.c:219-322 | one step of any thread, or of the idle thread, keeps the invariant |
| SchedRuns.InitInv | trunk/3rdparty/st-srs/sched.c:139-195 | start-up establishes the invariant |
| SchedKeeps.StepPlaces | trunk/3rdparty/st-srs/sched.c:65-133 | every step leaves each thread where its state says, with the idle thread running only on an empty run queue |
| SchedKeeps.IoqAllWaiting | trunk/3rdparty/st-srs/sched.c:116-133 | when the idle thread runs, every request on the I/O queue belongs to a thread in IO_WAIT, although timed-out and interrupted threads stay linked until they resume |
| SchedSteps.StepOthers | trunk/3rdparty/st-srs/sync.c:179-353 | every step keeps wait queues, mutex owners, the targets of joins, stacks and the active count in order |
| SchedOrder.ExitFindsNobody | trunk/3rdparty/st-srs/sched.c:255-262 | as long as no thread has been joined twice, a joined thread that goes on with its exit finds the wait queue of its condition empty |
| SchedSteps.PickStackFresh | trunk/3rdparty/st-srs/stk.c:59-104 | the stack handed out is off the free list, the list stays free of duplicates, and a new stack gets a new id |
| SchedJoin.NewStackIsOwn | trunk/3rdparty/st-srs/stk.c:59-104 | the stack of a new thread is on the free list no longer and differs from the stack of every live thread |
| SchedPoll.PollReturns | trunk/3rdparty/st-srs/sched.c:93-113 | a poll returns EINTR if interrupted, else 0 exactly on timeout and else the positive number of ready entries; afterwards it is on no queue and its flags are clear |
| SchedPoll.ReadyCountIs | trunk/3rdparty/st-srs/sched.c:98-104 | the ready count is the number of entries that have something to report |
| SchedPoll.PollGivesBack | trunk/3rdparty/st-srs/sched.c:93-104 | at the end of a poll every count of every descriptor in the table falls by what the request asks for, exactly if the dispatch has not given it back before |
| SchedPoll.DispatchTells | trunk/3rdparty/st-srs/event.c:1238-1276 | every waiting entry is told exactly the events it asked for that fired, all of them on an error, and the error itself |
| SchedPoll.DispatchHits | trunk/3rdparty/st-srs/event.c:1248-1291 | the threads woken are exactly those with something to report, in queue order, each once |
| SchedPoll.IdleWakesOnce | trunk/3rdparty/st-srs/sched.c:219-232 | a round of dispatch and clock check puts no thread on the run queue twice, and only threads that were waiting |
| SchedIo.DispatchIo | trunk/3rdparty/st-srs/event.c:1238-1305 | counts, registrations and their number agree with the I/O queue after a dispatch, whatever fired |
| SchedIo.ForkChangesNothing | trunk/3rdparty/st-srs/event.c:1215-1233 | the rebuild after a fork gives back the same counts and registrations |
| SchedIo.PollIo | trunk/3rdparty/st-srs/sched.c:79-91 | queueing a request keeps the counts and the I/O queue in agreement, also when it is refused |
| SchedMutex.LockReturns | trunk/3rdparty/st-srs/sync.c:314-325 | a lock call that waited returns 0 exactly if the caller owns the mutex and EINTR exactly if it does not |
| SchedMutex.LockAtOnce | trunk/3rdparty/st-srs/sync.c:289-312 | a lock call that does not wait takes a free mutex or takes nothing; one that waits goes to the end of the queue of an owned mutex |
| SchedMutex.FreeMeansNoWaiters | trunk/3rdparty/st-srs/sync.c:328-353 | a mutex without owner has no thread in LOCK_WAIT on its queue |
| SchedMutex.UnlockGoesToTheFirst | trunk/3rdparty/st-srs/sync.c:338-350 | unlocking hands the mutex to the earliest waiter still in LOCK_WAIT and frees it only if there is none |
| SchedMutex.NoOvertaking | trunk/3rdparty/st-srs/sync.c:289-367 | over any run in which a thread keeps waiting, only the owner at the start and threads that queued before it ever own the mutex |
| SchedCond.CondReturns | trunk/3rdparty/st-srs/sync.c:199-213 | a wait returns 0 exactly if signalled and not interrupted, ETIME exactly if timed out and not interrupted, EINTR exactly if interrupted; TIMEDOUT is set exactly for timeout |
| SchedCond.SignalWakesTheFirst | trunk/3rdparty/st-srs/sync.c:223-243 | a signal wakes the first thread still in COND_WAIT and changes nothing else; it is not spent on one already woken |
| SchedCond.BroadcastWakesAll | trunk/3rdparty/st-srs/sync.c:223-243 | a broadcast wakes every thread still in COND_WAIT, in queue order, and nobody else |
| SchedCond.OneWakePerWait | trunk/3rdparty/st-srs/sync.c:179-243 | from its start until the thread resumes, a condition wait or a poll makes the thread able to run at most once, whatever signals, events, timeouts and interrupts arrive, and exactly once if it resumes |
| SchedCond.CauseHappened | trunk/3rdparty/st-srs/sched.c:477-527 | a wait or poll that has ended in a run was ended by a step of that run that belongs to its cause: a signal to its queue or an exit, something reported on one of its own entries, a clock check that took it, or an interrupt of it |
| SchedCalls.StepCalls | trunk/3rdparty/st-srs/sched.c:477-527 | what any step may do to a thread that does not take it: leave its call alone, or end its wait or poll for the cause that belongs to the step |
| SchedJoin.JoinReturns | trunk/3rdparty/st-srs/sched.c:305-321 | a successful join finds a zombie, returns its exit value and takes it off the zombie queue |
| SchedJoin.JoinGivesExitValue | trunk/3rdparty/st-srs/sched.c:242-322 | whoever joins a thread, however long after its exit, gets the value it passed to exit |
| SchedJoin.ReleasedOnce | trunk/3rdparty/st-srs/sched.c:313-321 | over any run an exited thread leaves the zombie queue exactly once if it is joined and never if it is not |
| SchedJoin.OnlyJoinsRelease | trunk/3rdparty/st-srs/sched.c:285-322 | nothing but a successful join takes a thread off the zombie queue |
| SchedOrder.EveryRunOneJoiner | trunk/3rdparty/st-srs/sched.c:299-303 | in every run, however often threads are joined, at most one thread is on the termination condition of another |
| SchedOrder.JoinWaitsOnce | trunk/3rdparty/st-srs/sched.c:305-321 | a join that has waited returns the first time it is woken: with the exit value, or EINTR exactly if it was interrupted; its loop never goes round again |
| SchedOrder.StepJoin | trunk/3rdparty/st-srs/sched.c:285-322 | every step leaves a joiner alone on its condition, and one that has come in time in time: its target not joined, not exited while the joiner waits, a zombie once it is signalled |
| SchedOrder.EveryProperRun | trunk/3rdparty/st-srs/sched.c:285-322 | in every run that joins no thread twice, all joins have come in time |
| SchedOrder.JoinKeepsExactly | trunk/3rdparty/st-srs/sched.c:285-308 | a join keeps all joins in time if and only if its target has not been joined before or the caller is interrupted at once |
| SchedStrand.JoinIsToldExactly | trunk/3rdparty/st-srs/sched.c:285-321 | over every run that goes on from the join, whomever other threads join, the joiner is no longer waiting once its target has exited, if and only if the target has not been joined before or the join does not wait at all (interrupted, or refused because somebody waits already) |
| SchedStrand.SecondJoinWaitsForever | trunk/3rdparty/st-srs/sched.c:299-308 | after a second join that is neither interrupted nor refused, the joiner is in its wait, neither running nor on the run queue, at the end of every run without an interrupt of it |
| SchedStrand.StepStranded | trunk/3rdparty/st-srs/sched.c:242-282 | no step but an interrupt of the joiner itself reaches it once it waits for a thread that has exited |
| SchedStrand.SecondJoinHappens | trunk/3rdparty/st-srs/sched.c:285-322 | a run of four steps from start-up after which the main thread can join the same thread again |
| SchedOrder.SecondJoinStrands | trunk/3rdparty/st-srs/sched.c:299-308 | the step of a second join leaves the caller alone on the queue of a thread that is past telling anybody |
| SchedJoin.GoneForGood | trunk/3rdparty/st-srs/sched.c:265-282 | a thread that has finished is on no queue and never current again |
| SchedJoin.FreeStackUnused | trunk/3rdparty/st-srs/stk.c:110-118 | the owner of a stack on the free list is on no queue and not running |
| SchedDeadline.PollStarts | trunk/3rdparty/st-srs/sched.c:73-91 | a poll reports an earlier interrupt and does nothing else; or is refused; or waits, with its request at the end of the I/O queue and, exactly if it was given a timeout, on the sleep queue, due at the clock plus that timeout, while the head of the run queue or the idle thread runs |
| SchedDeadline.WaitStarts | trunk/3rdparty/st-srs/sync.c:184-197 | the same for a condition wait, which joins the end of its queue |
| SchedDeadline.SleepStarts | trunk/3rdparty/st-srs/sync.c:119-131 | the same for a sleep, which is SUSPENDED and on no sleep queue if it was given no timeout |
| SchedDeadline.LockStarts | trunk/3rdparty/st-srs/sync.c:293-314 | a lock call takes a free mutex, tells its owner of the deadlock, or waits at the end of the queue without a deadline |
| SchedDeadline.SleepReturns | trunk/3rdparty/st-srs/sync.c:133-139 | a sleep that has ended reports an interrupt, and takes it back, exactly if there was one |
| SchedDeadline.IdleTakesDue | trunk/3rdparty/st-srs/sched.c:491-505 | a clock check leaves nobody asleep whose deadline has come and takes nobody else |
| SchedDeadline.ReadyBeatsClock | trunk/3rdparty/st-srs/sched.c:223-232 | a round of the idle thread ends a poll as ready exactly if something fired for it, as timed out exactly if nothing did and its time is up, and leaves all others waiting |
| SchedDeadline.StepDeadline | trunk/3rdparty/st-srs/sched.c:477-507 | any step leaves a thread with its deadline or makes it able to run; no round at the deadline or later passes it over, none before times it out |
| SchedDeadline.OnTime | trunk/3rdparty/st-srs/sched.c:477-507 | the same over every run in which the thread does not resume |
| SchedDeadline.TimedCallEnds | trunk/3rdparty/st-srs/sched.c:65-91 | a poll, a wait or a sleep that was given a timeout and has blocked is not timed out before the clock at its start plus the timeout, and at the latest in the first round at that time or later it can run |
| SchedInterrupt.InterruptNoted | trunk/3rdparty/st-srs/sched.c:510-527 | an interrupt does nothing to a zombie; it sets the flag of any other thread, which is all it does to one that is running or runnable, and makes one that waits able to run |
| SchedInterrupt.NextCallReports | trunk/3rdparty/st-srs/sync.c:119-123 | the next poll, wait, sleep or lock of an interrupted thread fails with EINTR without blocking, clears the flag, and does nothing else |
| SchedInterrupt.StepKeepsFlag | trunk/3rdparty/st-srs/sched.c:510-527 | no step of anybody clears the flag but one by which its thread reports EINTR |
| SchedInterrupt.InterruptNeverLost | trunk/3rdparty/st-srs/sched.c:510-527 | in every run that goes on from an interrupt of a thread that has not exited, the thread has it noted still, or has reported it, or has exited |
| SchedInterrupt.OnlyInterrupts | trunk/3rdparty/st-srs/sched.c:510-527 | nothing but an interrupt of the thread sets its flag |
| SchedInterrupt.EintrMeansInterrupted | trunk/3rdparty/st-srs/sched.c:73-113 | a call fails with EINTR only if its thread has been interrupted |
| SchedFrame.StepFrame | trunk/3rdparty/st-srs/sched.c:65-322 | no step touches what it has nothing to do with: only creations and exits the stacks and the active count, only exits and joins the zombies, only lock calls the owners, only waits the wait queues, only polls and the idle thread the requests, only the idle thread the clock |
| SchedFrame.AnswerStays | trunk/3rdparty/st-srs/sched.c:92-104 | over every run, the entries of a poll that has been answered stay as they are until its thread resumes |
| SchedFrame.PollIsAnswered | trunk/3rdparty/st-srs/sched.c:65-113 | a poll for which something fires in a round returns, however much later it runs and unless it is interrupted as well, the number of its entries for which something fired, with what fired in each |
| SchedFair.StepTurn | trunk/3rdparty/st-srs/sched.c:116-133 | a step that switches runs the head of the run queue, and every step adds to the rest of it at the end only |
| SchedFair.RunsInTurn | trunk/3rdparty/st-srs/sched.c:116-133 | a thread with i threads before it on the run queue has run once the run has switched i + 1 times, whatever else becomes able to run |
| SchedAnswers.TryLockAnswers | trunk/3rdparty/st-srs/sync.c:356-367 | a trylock succeeds exactly on a free mutex, makes the caller its owner, and fails with EBUSY otherwise, changing nothing |
| SchedAnswers.UnlockAnswers | trunk/3rdparty/st-srs/sync.c:328-353 | unlocking succeeds exactly for the owner and concerns no other mutex |
| SchedAnswers.CreateAnswers | trunk/3rdparty/st-srs/sched.c:539-647 | a new thread is at the end of the run queue, joinable as asked for, on a stack that is big enough; no other thread changes |
| SchedAnswers.JoinAnswers | trunk/3rdparty/st-srs/sched.c:285-322 | a join fails for a thread that is not joinable, for the caller, and for one that somebody waits for; takes a zombie at once; reports an interrupt; or waits alone and without a deadline |
| SchedAnswers.ExitAnswers | trunk/3rdparty/st-srs/sched.c:242-282 | a joinable thread that exits becomes the last zombie and keeps its stack; any other gives its stack, and no other, to the free list and is gone |
| SchedAnswers.ExitEndAnswers | trunk/3rdparty/st-srs/sched.c:260-282 | a thread that goes on with its exit after the join gives its stack back and is gone |
| SchedAnswers.ReusedNext | trunk/3rdparty/st-srs/stk.c:65-118 | the stack given back last is the next handed out exactly if it is big enough and, of the others, at most the tail of the list is |
| SchedAnswers.PollAccepted | trunk/3rdparty/st-srs/sched.c:79-80 | a poll is accepted only if all its entries are acceptable, and then unless the kernel refuses one |
| TimeoutHeap.SleepQueue.HeapInsert | trunk/3rdparty/st-srs/sched.c:349-382 | carries a thread down to the place its index spells, displacing later ones; everything outside that place stays a linked, ordered heap of the same threads |
| TimeoutHeap.SleepQueue.HeapDelete | trunk/3rdparty/st-srs/sched.c:388-458 | removes exactly the given member; the rest is again a complete, linked, ordered heap with due times untouched, whether the moved element sinks or rises |
| TimeoutHeap.SleepQueue.SiftDown | trunk/3rdparty/st-srs/sched.c:423-455 | terminates and restores the order below a node that may be too late |
| TimeoutHeap.SleepQueue.SwapWithChild | trunk/3rdparty/st-srs/sched.c:434-451 | exchanging a node with a child by relinking both keeps all links and indices |
| TimeoutHeap.SleepQueue.Add | trunk/3rdparty/st-srs/sched.c:461-467 | adds exactly the given thread, due at the clock plus the timeout |
| TimeoutHeap.SleepQueue.Delete | trunk/3rdparty/st-srs/sched.c:470-474 | removes exactly the given thread and clears its flag |
| TimeoutHeap.IndexSpellsPath | trunk/3rdparty/st-srs/sched.c:357-377 | the binary digits of a thread's index after the leading one are its path from the root |
| TimeoutHeap.RootIsEarliest | trunk/3rdparty/st-srs/sched.c:491-495 | no thread is due before the root |
| TimeoutHeap.SwapOrder | trunk/3rdparty/st-srs/sched.c:423-455 | exchanging a late node with its earlier child moves the only possible disorder down to the child |
| TimeoutHeap.CountBits | trunk/3rdparty/st-srs/sched.c:357-360 | the counted bits are those of the index |
| TimeoutHeap.EarliestIsRoot | trunk/3rdparty/st-srs/sched.c:491-495 | the thread at the root of the heap is due no later than any member |
| ThreadTable.Table.Sleep | trunk/3rdparty/st-srs/sched.c:461-467 | the thread joins the heap with its due time and carries the flag; no other record or due time changes |
| ThreadTable.Table.Rouse | trunk/3rdparty/st-srs/sched.c:470-474 | the thread leaves the heap and loses the flag; no other record or due time changes |
| ThreadTable.Table.First | trunk/3rdparty/st-srs/sched.c:491-495 | the root of the heap is the thread that is due first, and there is none exactly if nobody sleeps |
| Epoll.AddIsAtomic | trunk/3rdparty/st-srs/event.c:1141-1195 | an addition counts all its entries or, refused at any entry, leaves counts, registrations and their number in agreement with what was there before |
| Epoll.RefusedAddLeavesNoTrace | trunk/3rdparty/st-srs/event.c:1185-1192 | after a refusal every count, registration and the number of registrations are what they were |
| Epoll.UnrollKeeps | trunk/3rdparty/st-srs/event.c:1185-1192 | undoing the entries up to and including the refused one restores agreement, also with repeated descriptors |
| Epoll.DelKeeps | trunk/3rdparty/st-srs/event.c:1102-1139 | a deletion takes exactly its entries out of the counts, inside a dispatch and outside |
| Epoll.DelUndoesAdd | trunk/3rdparty/st-srs/event.c:1102-1195 | a deletion undoes an addition |
| Epoll.LedgerDetermines | trunk/3rdparty/st-srs/event.c:1102-1195 | the entries on the I/O queue determine counts and registrations |
| Epoll.FireKeeps | trunk/3rdparty/st-srs/event.c:1238-1246 | noting what fired disturbs nothing but the descriptors that fired |
| Epoll.SettleKeeps | trunk/3rdparty/st-srs/event.c:1293-1304 | the end of the dispatch restores full agreement |
| Epoll.ToldAsFired | trunk/3rdparty/st-srs/event.c:1239-1276 | what a waiting entry is told is what fired on its descriptor |
| EpollSystem.System.PollsetAdd | trunk/3rdparty/st-srs/event.c:1141-1195 | the loops with checks, registration and unroll compute the specified addition |
| EpollSystem.System.PollsetDel | trunk/3rdparty/st-srs/event.c:1102-1139 | the loop computes the specified deletion |
| EpollSystem.System.FdDataExpand | trunk/3rdparty/st-srs/event.c:1067-1085 | the table grows by doubling until the descriptor fits, and new entries are zero |
| EpollSystem.System.FdClose | trunk/3rdparty/st-srs/event.c:1316-1324 | a descriptor may be closed exactly if no waiting entry asks for anything on it |
| EpollSystem.System.Tell | trunk/3rdparty/st-srs/event.c:1248-1276 | computes what the entries of a request are told and whether that is anything |
| EpollSystem.System.NoteFired | trunk/3rdparty/st-srs/event.c:1238-1246 | the first loop of the dispatch |
| EpollSystem.System.Settle | trunk/3rdparty/st-srs/event.c:1293-1304 | the last loop of the dispatch |
| SelectSystem.System.MaxfdBounds | trunk/3rdparty/st-srs/event.c:296-398 | every descriptor in a set is at most maxfd |
| SelectSystem.System.PollsetAdd | trunk/3rdparty/st-srs/event.c:172-204 | refuses without a trace or counts all entries; a descriptor is in a set exactly if its count is positive |
| SelectSystem.System.PollsetDel | trunk/3rdparty/st-srs/event.c:206-225 | takes exactly its entries out of counts and sets |
| SelectSystem.System.Dispatch | trunk/3rdparty/st-srs/event.c:333-398 | ready requests leave the queue with what they are told, the others stay in order, and counts, sets and the recomputed maxfd agree with the queue again |
| SelectSystem.System.FindBadFd | trunk/3rdparty/st-srs/event.c:227-294 | the same for requests with a bad descriptor |
| SelectSystem.ToldExactly | trunk/3rdparty/st-srs/event.c:338-371 | an entry is told of exactly those events that it asks for and its descriptor is ready for |
| SelectSystem.WokenExactly | trunk/3rdparty/st-srs/event.c:333-398 | a dispatch wakes exactly the requests for which something they ask for is ready |
| SelectSystem.BlamedExactly | trunk/3rdparty/st-srs/event.c:227-294 | an entry is told of an error exactly if its descriptor is bad |
| SelectSystem.System.ReadyWakesSomebody | trunk/3rdparty/st-srs/event.c:296-398 | whatever select is asked about and finds ready wakes somebody |
| PollSystem.Aligned | trunk/3rdparty/st-srs/event.c:539-561 | handing out the answers slice by slice is answering the gathered array |
| PollSystem.HandedOutExactly | trunk/3rdparty/st-srs/event.c:539-561 | a request leaves with the answers to its own entries exactly if there are any, and stays as it was exactly if there are none |
| PollSystem.System.Gather | trunk/3rdparty/st-srs/event.c:516-524 | the array holds the entries of all requests in queue order and they fit |
| PollSystem.System.Dispatch | trunk/3rdparty/st-srs/event.c:496-563 | each request that something was answered for leaves the queue with exactly its own answers, the others are untouched, and the counter stays the number of entries on the queue |
| PollSystem.System.Enqueue | trunk/3rdparty/st-srs/event.c:472-487 | the counter stays the number of entries on the queue |
| CircularList.List.InsertBefore | trunk/3rdparty/st-srs/common.h:87-95 | the ring with the element put in at that place |
| CircularList.List.Append | trunk/3rdparty/st-srs/common.h:111 | the element becomes the last |
| CircularList.List.AppendBeforeTail | trunk/3rdparty/st-srs/stk.c:110-118 | the element becomes the last but one |
| CircularList.List.Remove | trunk/3rdparty/st-srs/common.h:121-125 | the ring without the element, whose own links stay |
| CircularList.List.Sweep | trunk/3rdparty/st-srs/event.c:1248-1291 | a walk that unlinks elements while it passes them visits each once and in order |
| CircularList.PutInDistinct | trunk/3rdparty/st-srs/common.h:87-125 | a ring with one more element is free of duplicates exactly if the element was not in it |
| Runtime.VirtualProcessor.constructor | trunk/3rdparty/st-srs/sched.c:139-195 | starts in the initial state, with the invariant |
| Runtime.VirtualProcessor.Schedule | trunk/3rdparty/st-srs/sched.c:116-133 | takes the head of the run queue, or the idle thread |
| Runtime.VirtualProcessor.Poll | trunk/3rdparty/st-srs/sched.c:65-91 | the part of the call before the switch: reports an interrupt, an illegal entry or a refusal of the kernel, or queues the request and blocks; keeps the invariant |
| Runtime.VirtualProcessor.PollEnd | trunk/3rdparty/st-srs/sched.c:93-113 | the part of the call after the switch: unlinks the request and gives its counts back, or counts the ready entries; keeps the invariant |
| Runtime.VirtualProcessor.ThreadCreate | trunk/3rdparty/st-srs/sched.c:539-647 | a new runnable thread on a stack from the free list or a new one; keeps the invariant |
| Runtime.VirtualProcessor.StackNew | trunk/3rdparty/st-srs/stk.c:59-104 | the first free stack that is big enough, or a new one |
| Runtime.VirtualProcessor.StackFree | trunk/3rdparty/st-srs/stk.c:110-118 | the stack is put on the free list before its tail |
| Runtime.VirtualProcessor.ThreadExit | trunk/3rdparty/st-srs/sched.c:242-258 | the part of the exit before the switch; keeps the invariant |
| Runtime.VirtualProcessor.ThreadExitEnd | trunk/3rdparty/st-srs/sched.c:260-282 | the part of the exit after the join; keeps the invariant |
| Runtime.VirtualProcessor.ThreadJoin | trunk/3rdparty/st-srs/sched.c:285-322 | the part of the join up to its first wait; keeps the invariant, whoever is joined |
| Runtime.VirtualProcessor.ThreadJoinEnd | trunk/3rdparty/st-srs/sched.c:305-322 | the loop of the join after a wait; keeps the invariant |
| Runtime.VirtualProcessor.ThreadInterrupt | trunk/3rdparty/st-srs/sched.c:510-527 | flags the thread and wakes it if it waits; keeps the invariant |
| Runtime.VirtualProcessor.Usleep | trunk/3rdparty/st-srs/sync.c:115-131 | the part of the sleep before the switch; keeps the invariant |
| Runtime.VirtualProcessor.UsleepEnd | trunk/3rdparty/st-srs/sync.c:132-139 | the part of the sleep after the switch; keeps the invariant |
| Runtime.VirtualProcessor.CondTimedwait | trunk/3rdparty/st-srs/sync.c:179-197 | the part of the wait before the switch; keeps the invariant |
| Runtime.VirtualProcessor.CondTimedwaitEnd | trunk/3rdparty/st-srs/sync.c:199-214 | the part of the wait after the switch; keeps the invariant |
| Runtime.VirtualProcessor.SignalQueue | trunk/3rdparty/st-srs/sync.c:223-243 | the loop over the wait queue wakes the first thread still in COND_WAIT, or all of them |
| Runtime.VirtualProcessor.CondSignal | trunk/3rdparty/st-srs/sync.c:246-255 | signalling a condition variable is a step of the machine and keeps the invariant |
| Runtime.VirtualProcessor.MutexLock | trunk/3rdparty/st-srs/sync.c:289-314 | the part of the lock call before the switch; keeps the invariant |
| Runtime.VirtualProcessor.MutexLockEnd | trunk/3rdparty/st-srs/sync.c:316-325 | the part of the lock call after the switch; keeps the invariant |
| Runtime.VirtualProcessor.HandOn | trunk/3rdparty/st-srs/sync.c:338-352 | the loop that looks for the next owner |
| Runtime.VirtualProcessor.MutexUnlock | trunk/3rdparty/st-srs/sync.c:328-353 | only the owner can unlock, and hands the mutex on; keeps the invariant |
| Runtime.VirtualProcessor.MutexTrylock | trunk/3rdparty/st-srs/sync.c:356-367 | takes a free mutex only; keeps the invariant |
| Runtime.VirtualProcessor.Dispatch | trunk/3rdparty/st-srs/event.c:1238-1305 | the three loops of the dispatch |
| Runtime.VirtualProcessor.Reopen | trunk/3rdparty/st-srs/event.c:1215-1233 | the rebuild of the interest set |
| Runtime.VirtualProcessor.CheckClock | trunk/3rdparty/st-srs/sched.c:477-507 | terminates, takes exactly the expired threads off the heap and onto the run queue, in order of due time, marks timed-out waits, and leaves a heap in which everything is due later |
| Runtime.VirtualProcessor.ExpireThread | trunk/3rdparty/st-srs/sched.c:497-505 | one expired thread leaves the heap, is marked if it waited on a condition, and can run |
| Runtime.VirtualProcessor.IdleRound | trunk/3rdparty/st-srs/sched.c:219-232 | a round of the idle thread is a step of the machine that can be taken, and keeps the invariant |
| Runtime.CountReady | trunk/3rdparty/st-srs/sched.c:98-104 | counts the entries with something to report |
| SchedSteps.PickStackIs | trunk/3rdparty/st-srs/stk.c:65-104 | the stack picked is the first on the free list that is big enough, taken off the list, or a new one |
| VectorIo.WritevResid | trunk/3rdparty/st-srs/io.c:633-668 | for every script of kernel results: it stops at the first round that completes the vectors, or that fails, and returns which; the cells written are those the rounds take, and they and what the vectors still describe are the original cells |
| VectorIo.ReadvResid | trunk/3rdparty/st-srs/io.c:487-524 | the same for reading, where a round that moves nothing is the end of the input and completes the call |
| VectorIo.Advance | trunk/3rdparty/st-srs/io.c:648-660 | stepping over n cells empties whole vectors and shortens one, never running past the last |
| VectorIo.AfterCells | trunk/3rdparty/st-srs/io.c:633-668 | after any rounds, the vectors that are left describe all but the cells these rounds have moved |
| VectorIo.Write | trunk/3rdparty/st-srs/io.c:535-555 | the result is the length if the rounds write every byte before one of them fails, and -1 otherwise |
| VectorIo.ReadFully | trunk/3rdparty/st-srs/io.c:455-532 | the result is the number of bytes that the rounds deliver, short only at the end of the input, or -1 if a round fails before |
| VectorIo.Writev | trunk/3rdparty/st-srs/io.c:558-630 | it stops at the first round that completes the call or fails and returns the total or -1 accordingly; what is sent is what those rounds take from the front of the vectors' bytes; the caller's vectors are untouched and the copies fit |
| VectorIo.OneToGo | trunk/3rdparty/st-srs/io.c:576-579 | when one vector is left, the rest of the call ends as the call on that vector does |
| VectorIo.Continue | trunk/3rdparty/st-srs/io.c:592-617 | the temporary vectors describe exactly what is left and fit the array made at the first short count |
| VectorIo.Find | trunk/3rdparty/st-srs/io.c:593-596 | the first unwritten byte is in this vector at this offset |
| VectorIo.LaterVector | trunk/3rdparty/st-srs/io.c:598-617 | later copies start at the same vector or a later one |
| VectorRetry.TakenIsReported | trunk/3rdparty/st-srs/io.c:633-668 | what a call has moved is what its system calls have reported, up to what there is to move |
| VectorRetry.FailsExactly | trunk/3rdparty/st-srs/io.c:642-665 | a call that is not complete fails exactly if one of its rounds was an error, or was not interrupted and its wait failed |
| VectorRetry.TotalFailsExactly | trunk/3rdparty/st-srs/io.c:581-622 | the same for a vectored write of several vectors |
| VectorRetry.InterruptsDontCount | trunk/3rdparty/st-srs/io.c:496-498 | with all interrupted rounds taken out of the script, a call ends at the same round, with the same outcome, the same bytes moved and the same vectors left |
| VectorRetry.TotalInterruptsDontCount | trunk/3rdparty/st-srs/io.c:581-584 | the same for a vectored write of several vectors |
| ConfigReader.ReadToken | trunk/src/app/srs_app_config.cpp:987-1125 | the five flags and the word pointer compute the token automaton, and each call consumes input or reports the end of file |
| ConfigReader.ReadChar | trunk/src/app/srs_app_config.cpp:1001-1122 | one round of the loop moves the five flags and the word pointer as one step of the automaton moves its mode and its word |
| ConfigReader.Word | trunk/src/app/srs_app_config.cpp:1103-1111 | a word ends at its first NUL |
| ConfigReader.Parse | trunk/src/app/srs_app_config.cpp:923-984 | terminates on every input and reads the tree that the grammar says |
| ConfigReader.Persistence | trunk/src/app/srs_app_config.cpp:799-888 | writes the text of a tree |
| ConfigLayout.CommentSkipped | trunk/src/app/srs_app_config.cpp:1015-1022 | between words, a comment is skipped up to the end of its line, whatever it contains |
| ConfigLayout.CommentIgnored | trunk/src/app/srs_app_config.cpp:1061-1063 | a comment before directives is read like an empty line |
| ConfigLayout.BarewordRead | trunk/src/app/srs_app_config.cpp:1074-1121 | a bare word is read as it is |
| ConfigLayout.QuotationRead | trunk/src/app/srs_app_config.cpp:1064-1111 | a quoted word is pushed as what is between the quotes, up to a NUL, unless that is empty |
| ConfigLayout.PiecesRead | trunk/src/app/srs_app_config.cpp:1001-1122 | spaces, comments, bare and quoted words in any order that keeps words apart are read as the words |
| ConfigLayout.DirectiveRead | trunk/src/app/srs_app_config.cpp:987-1125 | a directive is read as its words and its end, on the line of its first word, whatever it is laid out with |
| ConfigLayout.Malformed | trunk/src/app/srs_app_config.cpp:1036-1058 | anything but a space or an end right behind a quoted word, a quote that is not closed, and a closing brace inside a directive are errors |
| ConfigLayout.LastRemarkRead | trunk/src/app/srs_app_config.cpp:1002-1011 | a comment that the end of the file cuts off is the end of the file, or an error inside a directive |
| ConfigSource.SourcesRead | trunk/src/app/srs_app_config.cpp:923-984 | directives and blocks laid out in any such way are read as the tree they show, and what follows as if it stood alone |
| ConfigSource.FileRead | trunk/src/app/srs_app_config.cpp:923-984 | a file is read as its tree |
| ConfigSource.FileErrors | trunk/src/app/srs_app_config.cpp:940-962 | a brace too many, a brace too few, a directive that is cut off and an end without a directive are errors, wherever they stand |
| ConfigRoundTrip.RoundTripsExactly | trunk/src/app/srs_app_config.cpp:799-1125 | a tree is reproduced from its text, up to line numbers, if and only if all its words are plain |
| ConfigRoundTrip.PlainRoundTrips | trunk/src/app/srs_app_config.cpp:799-1125 | plain trees are reproduced |
| ConfigRoundTrip.QuotedWordIsLost | trunk/src/app/srs_app_config.cpp:1084-1095 | a quoted word that is not plain is read, and does not survive being written and read again |
| ConfigRoundTrip.QuotedExample | trunk/src/app/srs_app_config.cpp:1084-1095 | such a text |
| ConfigRoundTrip.ParseQuotes | trunk/src/app/srs_app_config.cpp:1084-1112 | reading never makes quote characters, and if it loses none, every word it read was plain |
| ConfigRoundTrip.PrintQuotes | trunk/src/app/srs_app_config.cpp:799-888 | writing keeps all quote characters |
| ConfigRoundTrip.LexQuotes | trunk/src/app/srs_app_config.cpp:1001-1122 | the same for one token |
| ConfigRoundTrip.LexLeaf | trunk/src/app/srs_app_config.cpp:1078-1121 | plain words up to a semicolon are read as they are |
| ConfigRoundTrip.LexBlock | trunk/src/app/srs_app_config.cpp:1051-1055 | plain words up to a brace are read as they are |
| ConfigRoundTrip.ParseLinesDontMatter | trunk/src/app/srs_app_config.cpp:923-984 | the line a text starts on changes nothing but line numbers |
| ConfigTransformer.Node.TransformVhost | trunk/src/app/srs_app_config.cpp:325-502 | the loop that erases from and appends to the list it walks terminates and computes the rewriting |
| ConfigTransformer.Node.GetOrCreate | trunk/src/app/srs_app_config.cpp:718-729 | finds the first directive of a name, or appends one |
| ConfigTransformer.Node.Get | trunk/src/app/srs_app_config.cpp:692-703 | finds the first directive of a name |
| ConfigTransformer.Node.RemoveFirst | trunk/src/app/srs_app_config.cpp:776-782 | removes the first directive of a name |
| ConfigTransformer.TransformRoot | trunk/src/app/srs_app_config.cpp:304-506 | rewrites every directive of the root |
| ConfigTransformer.RewriteReachesNormalForm | trunk/src/app/srs_app_config.cpp:304-506 | nothing legacy is left, and a second run changes nothing, if and only if no http_remux of a vhost has more than one hstrs |
| ConfigTransformer.SettingsKeepTheirMeaning | trunk/src/app/srs_app_config.cpp:410-499 | for play and cluster settings and the two publish timeouts, the first new-style place holds the arguments of the last old directive, or its old value if there was none |
| ConfigNormal.WalkKeeps | trunk/src/app/srs_app_config.cpp:325-502 | outside the four groups, the directives that are not erased are kept in order and only rewritten in place |
| ConfigNormal.WalkMoves | trunk/src/app/srs_app_config.cpp:382-499 | where moved settings end up, also those of mr |
| ConfigNormal.WalkSettles | trunk/src/app/srs_app_config.cpp:325-502 | no erasable or renameable directive is left |
| ConfigNormal.StaysExactlyIfNormal | trunk/src/app/srs_app_config.cpp:325-502 | a vhost is left as it is if and only if nothing in it is legacy |
| ConfigNormal.WalkReachesNormalForm | trunk/src/app/srs_app_config.cpp:343-350 | a vhost reaches normal form if and only if no http_remux has more than one hstrs |
| ConfigNormal.SecondWalkChangesNothing | trunk/src/app/srs_app_config.cpp:325-502 | a second run changes nothing under the same condition |
| ConfigNormal.TwoHstrsNeedTwoRuns | trunk/src/app/srs_app_config.cpp:343-350 | two hstrs in one http_remux: the first run removes one, the second run the other |
| ConfigTransform.FoldErases | trunk/src/app/srs_app_config.cpp:357-498 | erasing and appending makes fewer directives to erase, so the walk ends, and the list gets no longer than it was, so the appending needs no new room |
| ConfigTransform.FoldChanges | trunk/src/app/srs_app_config.cpp:357-498 | folding an old directive changes one group, or adds it, and nothing else |
| ConfigKeeps.VhostKeeps | trunk/src/app/srs_app_config.cpp:325-502 | outside the groups, a rewritten vhost has exactly the directives that stay, in order: a forward with a target is enabled and has it as its destination, http is http_static, an http_remux has lost its first hstrs, all others are unchanged |
| ConfigKeeps.RootKeeps | trunk/src/app/srs_app_config.cpp:304-321 | in the whole tree only vhosts change, and the name of http_stream |
| ConfigKeeps.MrKeepsItsMeaning | trunk/src/app/srs_app_config.cpp:392-416 | mr and mr_latency of publish hold what the last old mr that says so says |
| ConfigGroups.WalkGroups | trunk/src/app/srs_app_config.cpp:392-499 | a vhost keeps its publish, play and cluster groups, with all settings at their places; only the first of each name is filled, or one is made without arguments |
| ConfigGroups.ReferBlocksKept | trunk/src/app/srs_app_config.cpp:357-384 | the same for its refer blocks; the first can be what was an old refer, exactly if that follows another old setting and comes before every block |
| ConfigGroups.RefersAreOn | trunk/src/app/srs_app_config.cpp:361-362 | the first enabled of the refer block is what the block said before, or on as soon as there is an old setting |
| ConfigRefer.WalkReferring | trunk/src/app/srs_app_config.cpp:325-384 | what becomes of the refer directives does not depend on the other directives |
| ConfigRefer.RefersKeepTheirMeaning | trunk/src/app/srs_app_config.cpp:357-384 | for every vhost, what all, play and publish of the refer block say in the end: the last old setting that counts, or what the block said |
| ConfigRefer.ReferIsKeptExactly | trunk/src/app/srs_app_config.cpp:357-384 | an old refer, the only directive of its name, becomes all if and only if it stands before every refer_play and refer_publish |
| ConfigRefer.ReferBehindPlayIsLost | trunk/src/app/srs_app_config.cpp:357-384 | a vhost whose refer is lost |
| ConfigReload.Equals | trunk/src/app/srs_app_config.cpp:142-195 | two directives are equal if and only if their trees are the same up to line numbers |
| ConfigReload.NoticesMean | trunk/src/app/srs_app_config.cpp:1778-1865 | removed, added and updated are exactly the ids that went off, came on, and changed; what was on, less removed, plus added, is what is on |
| ConfigReload.OnExactly | trunk/src/app/srs_app_config.cpp:5744-5758 | an ingester is on exactly if the first enabled of the first ingester with its id says on |
| ConfigReload.AnnouncedAtMostOnce | trunk/src/app/srs_app_config.cpp:1778-1865 | each id is announced at most once |
| ConfigReload.ReloadIngest | trunk/src/app/srs_app_config.cpp:1778-1865 | all notices reach all subscribers in order, or the reload stops at the first that refuses |
| ConfigReload.CheckIngestIds | trunk/src/app/srs_app_config.cpp:3810-3830 | accepts exactly vhosts with unique ingest ids |
| ConfigReload.TranscodeChanged | trunk/src/app/srs_app_config.cpp:1719-1762 | a change is seen exactly if the maps from ids to trees differ or a transcoder of the new vhost differs from an earlier one of its id; with unique ids, exactly if the maps differ |
| ConfigReload.ShadowedLooksChanged | trunk/src/app/srs_app_config.cpp:1747-1762 | a vhost with a repeated id that is taken for changed when reloaded as it is |
| ConfigReload.ReloadTranscode | trunk/src/app/srs_app_config.cpp:1695-1776 | the subscribers are told exactly then |
| AsyncWorker.ExactlyOnePlace | trunk/src/app/srs_app_async_call.cpp:61-143 | under every interleaving each submitted task is pending, in one batch, or executed, and in only one of these |
| AsyncWorker.CalledAtMostOnce | trunk/src/app/srs_app_async_call.cpp:116-143 | no task is called twice |
| AsyncWorker.WaitingMeansDone | trunk/src/app/srs_app_async_call.cpp:97-114 | the worker in the wait means nothing is pending |
| AsyncWorker.ExecutedInOrder | trunk/src/app/srs_app_async_call.cpp:97-143 | with only the cycle flushing, executed, in hand and pending together are the submissions in order |
| AsyncWorker.SubmittedIs | trunk/src/app/srs_app_async_call.cpp:61-69 | what counts as submitted is what has been submitted, in order |
| AsyncWorker.TurnTakes | trunk/src/app/srs_app_async_call.cpp:101-110 | a turn of the worker that finds tasks pending takes all of them |
| AsyncWorker.WorkerGetsThrough | trunk/src/app/srs_app_async_call.cpp:97-143 | from every state, a worker that has not been told to stop executes by its own steps what it has in hand and all that is pending, in this order, and then waits |
| AsyncWorker.StopExecutes | trunk/src/app/srs_app_async_call.cpp:90-95 | whoever stops the worker executes all that is pending before |
| AsyncWorker.TerminatedEnds | trunk/src/app/srs_app_async_call.cpp:97-114 | a worker that is told to stop ends by its own steps, after what it has in hand and, if it was woken from its wait, what is pending |
| AsyncWorker.LeavesWait | trunk/src/app/srs_app_async_call.cpp:61-95 | a submission, the signal of a stop and an interrupt take the worker out of its wait, and nothing else does |
| AsyncWorker.StepKeeps | trunk/src/app/srs_app_async_call.cpp:61-143 | every step keeps the worker's invariant |
| AsyncWorker.Worker.Submit | trunk/src/app/srs_app_async_call.cpp:61-69 | queues the task and signals |
| AsyncWorker.Worker.StartFlush | trunk/src/app/srs_app_async_call.cpp:116-131 | takes all that is pending |
| AsyncWorker.Worker.Cycle | trunk/src/app/srs_app_async_call.cpp:97-114 | one turn of the loop |
| AsyncWorker.Worker.EnterCall | trunk/src/app/srs_app_async_call.cpp:133-137 | the next task of the batch is called |
| AsyncWorker.Worker.LeaveCall | trunk/src/app/srs_app_async_call.cpp:133-142 | a task is executed, and the batch goes on |

## Left out

* The kqueue event system, the EEXIST tolerance of epoll registration, growth of the event list, and
  allocation failure.
* `setjmp` and `longjmp`, stack memory and page rounding, Valgrind, the debug thread iterator and
  switch callbacks: a context switch is one atomic step.
* How long a dispatch waits in the kernel: the clock after it is an argument of the step.
* Thread-specific data, `st_accept`, `st_connect`, the UDP calls, `st_open`, the time cache.
* `st_cond_destroy` and `st_mutex_destroy` by users; only the destruction of a termination condition
  appears, as a lemma.
* In `Runtime` the queues are sequences; the linked rings are in `CircularList`.
* The select and poll event systems stand on their own: `Sched` and `Runtime` run on epoll, and a
  dispatch of the other two hands out the requests that it wakes.
* In `Runtime` the thread of a poll request and its array of entries are one value per thread.
* The object tree of a configuration is a value: the model does not capture aliasing between
  directives. `conf_line` of directives that the rewriting creates is 0, where the source leaves it
  unset.
* The variant of directive comparison that ignores a name, the JSON dumps, the getters, the checks
  of a whole file, option parsing and file access. The writer of the printer cannot fail.
* VectorIo.ReadvResid: the memory cells that are filled, and their order, are modelled; the bytes
  themselves are not.
* In `AsyncWorker` the lock around taking the pending tasks is not modelled: no coroutine switches
  while it is held, so it is never contended. Destruction of the worker with tasks still pending is
  not modelled.
