# Verified models of the concurrent and stateful kernels of the C++ course

Dafny models of the small kernels in `robotics/learn/cpp-advanced` that each claim something hard,
with proofs of the claims. Concurrent programs are state machines that take one atomic access per
step; sequential ones are classes, loops and functions in the form of the source.

- **Ring buffer.** `SpscProtocol` runs producer and consumer as program counters with FIFO store
  buffers, copying items a word at a time; `SpscRing` is the code itself on arrays and 64-bit indices; `Telemetry` adds the drop,
  shutdown and drain protocol of the two telemetry programs. The protocol holds for any ring size,
  so also for the `% (Cap + 1)` variant of the unit-test suite.
- **Lock-free stack.** `TreiberStack` has any number of threads, an allocator that may reuse any
  freed address, and loads through freed nodes that may return anything. A tag range of 65536 is
  the tagged stack, of 1 the untagged one. `TaggedPtr` is the packing, `AbaProblem` the runs that
  break the stack outside the proved conditions.
- **SeqLock.** `SeqLock` has many writers behind the spinlock and readers that copy element by
  element, for any payload width and any even counter range; the shared-memory program is its
  single-writer instance. `SeqLockWrap` shows that the bound on overtaking writes is exact.
- **Coroutines.** `TaskMachine` is the machine of frames, continuations and one active handle,
  proved to compute what direct recursion computes. `Scheduler` and `PriorityScheduler` are the
  two queue-driven schedulers.
- **CRC-32** (section 8 of RFC 1952). `Crc32` is the table-driven code against the bit-at-a-time
  register, `CrcPolynomial` the register against polynomial division, `CrcProtected` what is
  detected.
- **Sequential kernels.** `FixedPool`, `Rpn`, `ModelChecker`, `TreeSum`, `HealthMonitor`,
  `ThreadedMonitor` and `CyclicExecutive`.

`Bits` holds the arithmetic of masks and wrap-around, `Common` and `Lateness` what several models
share. `dafny verify dfyconfig.toml` checks everything.

Clocks, schedulers, allocators and lateness are inputs or nondeterministic steps. Integers are
unbounded except where the code relies on wrap-around: ring indices, tags and sequence counters
are taken modulo their range, CRC registers and packed words are bit-vectors. Doubles are `real`.

Where the code and its own text differ, the models follow the code:

- The tagged fix of the puzzle reads its pointer back without sign extension, which is right for
  the lower half of the address space only (`TaggedPtr.RawRoundTrip`).
- The real-time summary prints the configured number of cycles as "Cycles run"; the conserved
  number is the cycles that actually ran, and the two differ for an interrupted run
  (`Telemetry.SummaryIsConserved`, `Telemetry.InterruptedRun`).
- A comment of the seqlock says that only one writer may exist; the code puts many behind the
  spinlock, and so does the model.
- `timespec_add_ns` and `timespec_diff_ns` are inverses except when the sum would have to borrow
  from the seconds.

## Model

| member | source | states |
|---|---|---|
| SpscProtocol.PoppedIsPrefix | robotics/learn/cpp-advanced/02-error-handling-memory-model/exercises/ex07_spsc_queue.cpp:72-143 | In every interleaving of the atomic steps of producer and consumer, each with a FIFO store buffer and items stored and loaded a word at a time, the calls on record are those the run made with exactly the items and counts they were given, what is pushed is what the push calls took from the front of those items, the popped items are a prefix of it with all their words, the counts of the pop calls add up to what was popped, at most N - 1 items are in flight, and a pop in progress has read the next items and the first words of the one after: no loss, duplication, reordering or half-written value. |
| SpscProtocol.NoOverwriteOfUnreadSlot | robotics/learn/cpp-advanced/02-error-handling-memory-model/exercises/ex07_spsc_queue.cpp:81-85 | No word reaches a slot in memory while that slot holds an item that is published and not yet released by the consumer. |
| SpscProtocol.RefusalsAreHonest | robotics/learn/cpp-advanced/02-error-handling-memory-model/exercises/ex07_spsc_queue.cpp:76-98 | In every reachable state the call under way holds what the caller passed to it; a push is refused if and only if the ring was full at the load of the other side's index, a pop if and only if it was empty; a batch takes the largest possible count, and takes it from the front of what the caller offered. |
| SpscProtocol.CallsAreThoseMade | robotics/learn/cpp-advanced/02-error-handling-memory-model/exercises/ex07_spsc_queue.cpp:72-143 | The recorded push and pop calls, followed by the ones under way, are exactly the calls of the run with their arguments, in order. |
| SpscProtocol.PushCheckExact | robotics/learn/cpp-advanced/02-error-handling-memory-model/exercises/ex07_spsc_queue.cpp:95-96 | The full test and the masked subtraction of the free space are exact against the head in memory, whatever both indices have wrapped to. |
| SpscProtocol.PopCheckExact | robotics/learn/cpp-advanced/02-error-handling-memory-model/exercises/ex07_spsc_queue.cpp:129-133 | The empty test and the masked size subtraction are exact against the tail in memory. |
| SpscProtocol.StepKeepsInv | robotics/learn/cpp-advanced/02-error-handling-memory-model/exercises/ex07_spsc_queue.cpp:72-143 | Each atomic step, word by word, and each arrival of a delayed store in memory, keeps the ring invariant; this covers single and batch operations, any ring size of at least two and any item width. |
| SpscProtocol.PopWordReads | robotics/learn/cpp-advanced/02-error-handling-memory-model/exercises/ex07_spsc_queue.cpp:119 | A word load returns the next word of the next unpopped item, never of another or of a partly written one. |
| SpscProtocol.MemoryGuardsHold | robotics/learn/cpp-advanced/02-error-handling-memory-model/exercises/ex07_spsc_queue.cpp:72-143 | In every reachable state each thread and each store buffer can take its next step, so no slot, word or offer is indexed out of bounds. |
| Bits.PowerOfTwoTest | robotics/learn/cpp-advanced/02-error-handling-memory-model/exercises/ex07_spsc_queue.cpp:49-50 | The bit test of the static assertion accepts exactly the powers of two. |
| Bits.MaskedIndex | robotics/learn/cpp-advanced/02-error-handling-memory-model/exercises/ex07_spsc_queue.cpp:95 | For a power-of-two N, wrapping a possibly negative index expression to 64 bits and masking it is the same as the exact remainder modulo N. |
| SpscRing.SizeSteps | robotics/learn/cpp-advanced/02-error-handling-memory-model/exercises/ex07_spsc_queue.cpp:95 | The three index tests agree with one size: full at N - 1, empty at 0, free space N - 1 - size, and each push or pop changes it by one, across wrap-around. |
| SpscRing.PushOneAppends | robotics/learn/cpp-advanced/02-error-handling-memory-model/exercises/ex07_spsc_queue.cpp:72-87 | A single push appends one item at the end if there is room and otherwise changes nothing. |
| SpscRing.PopOneRemoves | robotics/learn/cpp-advanced/02-error-handling-memory-model/exercises/ex07_spsc_queue.cpp:111-125 | A single pop removes the front item, if there is one. |
| SpscRing.PushManyAppends | robotics/learn/cpp-advanced/02-error-handling-memory-model/exercises/ex07_spsc_queue.cpp:90-107 | Repeated single pushes append exactly min(count, free space) items, in order. |
| SpscRing.PopManyRemoves | robotics/learn/cpp-advanced/02-error-handling-memory-model/exercises/ex07_spsc_queue.cpp:128-143 | Repeated single pops remove exactly min(count, size) items from the front, in order. |
| SpscRing.PushManyLayout | robotics/learn/cpp-advanced/02-error-handling-memory-model/exercises/ex07_spsc_queue.cpp:100-105 | What a run of single pushes leaves in the slots and the tail index, as one block of writes modulo N. |
| SpscRing.PopManyLayout | robotics/learn/cpp-advanced/02-error-handling-memory-model/exercises/ex07_spsc_queue.cpp:137-141 | What a run of single pops returns and leaves in the head index. |
| SpscRing.SpscQueue.TryPush | robotics/learn/cpp-advanced/02-error-handling-memory-model/exercises/ex07_spsc_queue.cpp:72-87 | The imperative push is the single push of the specification, slots and indices included. |
| SpscRing.SpscQueue.TryPushBatch | robotics/learn/cpp-advanced/02-error-handling-memory-model/exercises/ex07_spsc_queue.cpp:90-107 | The batch loop leaves exactly the slots and indices that as many single pushes leave. |
| SpscRing.SpscQueue.TryPop | robotics/learn/cpp-advanced/02-error-handling-memory-model/exercises/ex07_spsc_queue.cpp:111-125 | The imperative pop is the single pop of the specification. |
| SpscRing.SpscQueue.TryPopBatch | robotics/learn/cpp-advanced/02-error-handling-memory-model/exercises/ex07_spsc_queue.cpp:128-143 | The batch pop returns and leaves exactly what as many single pops do, and touches nothing else of the caller's array. |
| SpscRing.SpscQueue.constructor | robotics/learn/cpp-advanced/02-error-handling-memory-model/exercises/ex07_spsc_queue.cpp:49-64 | A new queue is empty, for every capacity the static assertions admit. |
| Telemetry.Conservation | robotics/learn/cpp-advanced/06-ipc-serialization/exercises/ex05_telemetry_pipeline.cpp:99-177 | When the logger has finished, in every interleaving with delayed stores, the file is the accepted ones of the records that the producer made in the run, whole and in that order, the logger's counter written is their number, written + dropped = produced, and cycles = overruns + dropped + written, the overruns being those of the run. |
| Telemetry.LoggerNeverStuck | robotics/learn/cpp-advanced/06-ipc-serialization/exercises/ex05_telemetry_pipeline.cpp:149-165 | In every reachable state the logger has finished or has a step to take. |
| Telemetry.SummaryIsConserved | robotics/learn/cpp-advanced/03-rt-linux-programming/exercises/ex05_rt_cyclic_with_telemetry.cpp:354-367 | The configured cycle count that the summary prints equals overruns + dropped + written if and only if the loop ran that many cycles. |
| Telemetry.InterruptedRun | robotics/learn/cpp-advanced/03-rt-linux-programming/exercises/ex05_rt_cyclic_with_telemetry.cpp:304 | A run interrupted before its first cycle finishes with zero cycles, so the printed count can differ. |
| Telemetry.DoneMeansAllVisible | robotics/learn/cpp-advanced/06-ipc-serialization/exercises/ex05_telemetry_pipeline.cpp:120-128 | Once the done flag is seen in memory every accepted record is visible, so the final drain misses nothing. |
| Telemetry.StepKeepsInv | robotics/learn/cpp-advanced/03-rt-linux-programming/exercises/ex05_rt_cyclic_with_telemetry.cpp:304-355 | Every step of both threads, overruns and drops included, keeps the accounting and the drain protocol consistent. |
| Telemetry.VerifyOutput | robotics/learn/cpp-advanced/06-ipc-serialization/exercises/ex05_telemetry_pipeline.cpp:181-229 | For records that start with any timestamps, whatever their other words, the read-back accepts the file if and only if it opens, is a whole number of records, has the expected record count, and no timestamp is smaller than an earlier one. |
| Telemetry.VerifiesWords | robotics/learn/cpp-advanced/06-ipc-serialization/exercises/ex05_telemetry_pipeline.cpp:210-229 | The same on the words of the file; a single step back between neighbours is enough to reject it. |
| Telemetry.FileAlwaysVerifies | robotics/learn/cpp-advanced/06-ipc-serialization/exercises/ex05_telemetry_pipeline.cpp:181-230 | If the records made in a run start with timestamps that never decrease, the file of every complete run starts its records with the timestamps of the accepted ones, in order, and its read-back with the logger's own count succeeds, whatever was dropped. |
| TaggedPtr.PackRoundTrip | robotics/learn/cpp-advanced/02-error-handling-memory-model/exercises/ex06_compare_exchange.cpp:224-245 | Packing and unpacking returns every 16-bit tag, and returns the pointer if and only if it is canonical. |
| TaggedPtr.RawRoundTrip | robotics/learn/cpp-advanced/02-error-handling-memory-model/puzzles/puzzle05_aba_problem.cpp:160-172 | The accessor without sign extension returns the pointer if and only if its upper 16 bits are clear. |
| TaggedPtr.UnpackRoundTrip | robotics/learn/cpp-advanced/02-error-handling-memory-model/exercises/ex06_compare_exchange.cpp:233-247 | Every 64-bit word is the packing of its own pointer and tag. |
| TaggedPtr.EqualWords | robotics/learn/cpp-advanced/02-error-handling-memory-model/exercises/ex06_compare_exchange.cpp:247-267 | Comparing head words compares pointer and tag. |
| TaggedPtr.NextTag | robotics/learn/cpp-advanced/02-error-handling-memory-model/exercises/ex06_compare_exchange.cpp:288-304 | The tag every CAS installs is the next one, and 0 after the last. |
| TreiberStack.TaggedStackSafe | robotics/learn/cpp-advanced/02-error-handling-memory-model/exercises/ex06_compare_exchange.cpp:280-317 | For any number of threads, any address reuse and any garbage read through a freed node, if fewer than 2^16 successful CASes fall between the head load of a pop and its winning CAS, then the stack is linearizable in every reachable state: every call that has returned, pops that return empty included, is one entry of the log made between its first step and its return and holding its argument and its result, no two calls share one, every entry is such a call's or a pop's under way, a call that returned before another began comes first, and the log is a legal LIFO history whose outcome is the list in memory. Every argument is under way, on the list or popped, with multiplicity; each pop's value is returned at most once and by one thread; a node off the list that a pop still has to read or delete is live; and at rest the arguments are the returned values and the list, with nothing else allocated. |
| TreiberStack.StepKeepsTracked | robotics/learn/cpp-advanced/02-error-handling-memory-model/exercises/ex06_compare_exchange.cpp:280-317 | Each step keeps every returned call with exactly one effect inside its interval and with its own result, and every call under way with no effect before its first step. |
| TreiberStack.TrackedIsLinearizable | robotics/learn/cpp-advanced/02-error-handling-memory-model/exercises/ex06_compare_exchange.cpp:280-317 | From that it follows that the order of effects respects the real-time order of calls. |
| TreiberStack.MemoryGuardsHold | robotics/learn/cpp-advanced/02-error-handling-memory-model/exercises/ex06_compare_exchange.cpp:280-317 | Under the same bound, in every reachable state a thread about to link its node, to publish it, to read the data of the node it took off the list or to delete that finds the node allocated: the only load that can meet a freed node is that of the successor in a pop. |
| TreiberStack.BoundedIsFresh | robotics/learn/cpp-advanced/02-error-handling-memory-model/exercises/ex06_compare_exchange.cpp:306-308 | A pop whose CAS finds its expected word has seen no successful CAS since its head load if and only if fewer than a full tag range of them happened. |
| TreiberStack.PopWinsExactly | robotics/learn/cpp-advanced/02-error-handling-memory-model/exercises/ex06_compare_exchange.cpp:300-309 | A successful pop installs the true successor of the top node and takes the true top value. |
| TreiberStack.DeletesLiveNode | robotics/learn/cpp-advanced/02-error-handling-memory-model/exercises/ex06_compare_exchange.cpp:310 | A deleted node is still allocated and is not on the list. |
| TreiberStack.StepKeepsInv | robotics/learn/cpp-advanced/02-error-handling-memory-model/exercises/ex06_compare_exchange.cpp:280-317 | Every atomic step of push and pop, spurious CAS failures included, keeps the list, ownership and history invariants. |
| TreiberStack.LegalHistoryConserves | robotics/learn/cpp-advanced/02-error-handling-memory-model/exercises/ex06_compare_exchange.cpp:280-317 | In a legal history the values pushed are those popped and those remaining, with multiplicity. |
| TreiberStack.StepKeepsBalance | robotics/learn/cpp-advanced/02-error-handling-memory-model/exercises/ex06_compare_exchange.cpp:280-317 | Every step of every run keeps the arguments of all push calls equal, with multiplicity, to those under way and those in the history. |
| TreiberStack.InvConserves | robotics/learn/cpp-advanced/02-error-handling-memory-model/exercises/ex06_compare_exchange.cpp:161-168 | In a reachable state at rest the arguments pushed are, with multiplicity, the values returned and those on the list: the balance the stress test checks. |
| TreiberStack.PhasedStackSafe | robotics/learn/cpp-advanced/02-error-handling-memory-model/exercises/ex06_compare_exchange.cpp:121-170 | For any tag range, and so without tags: when all pushes are joined before any pop starts, the same safety, balance and linearizability hold of the whole run, and after every step of the pop phase whatever is off the list is never head again and a CAS that expects it fails. |
| TreiberStack.PhaseStep | robotics/learn/cpp-advanced/02-error-handling-memory-model/exercises/ex06_compare_exchange.cpp:68-93 | In the pop-only phase each step keeps that, and a successful CAS is always fresh. |
| AbaProblem.UntaggedStackBreaks | robotics/learn/cpp-advanced/02-error-handling-memory-model/exercises/ex06_compare_exchange.cpp:173-202 | Without tags two threads reach a state whose head points at a freed node, in the interleaving the source describes, with the allocator reusing an address. |
| AbaProblem.TagBoundIsTight | robotics/learn/cpp-advanced/02-error-handling-memory-model/exercises/ex06_compare_exchange.cpp:302-308 | For every even number m of tags from 4 on, exactly m successful CASes overtaking a pop reach the same failure, so the bound of the safety theorem cannot be weakened. |
| AbaProblem.SleepingPop | robotics/learn/cpp-advanced/02-error-handling-memory-model/puzzles/puzzle05_aba_problem.cpp:75-105 | The sleeping pop holds a head word and a successor that another thread has meanwhile removed and freed. |
| SeqLock.AcceptedReadIsWhole | robotics/learn/cpp-advanced/02-error-handling-memory-model/exercises/ex05_acquire_release.cpp:109-136 | A read that passes the final test returns exactly the payload that one write of the run was called with or the initial one, the newest both at its start and its end, with any number of writers, any payload width, delayed stores, and fewer than half the counter range of writes during the read. |
| SeqLock.AcceptedIffUndisturbed | robotics/learn/cpp-advanced/02-error-handling-memory-model/exercises/ex05_acquire_release.cpp:118-133 | Under the same bound the final test passes if and only if the read began at an even counter and no counter store has reached memory since: no torn read is accepted and no undisturbed one is turned away. |
| SeqLock.HistoryIsTheRun | robotics/learn/cpp-advanced/02-error-handling-memory-model/exercises/ex05_acquire_release.cpp:96-106 | The history is the initial payload followed by the arguments of the writes of the run in the order in which they took the lock, the last one still missing while its write is under way; a read under way remembers what had reached memory when it began. |
| SeqLock.WritersExclude | robotics/learn/cpp-advanced/02-error-handling-memory-model/exercises/ex05_acquire_release.cpp:27-49 | At most one writer is between taking the spinlock and the arrival of its last store. |
| SeqLock.QuietMemoryIsLastWrite | robotics/learn/cpp-advanced/02-error-handling-memory-model/exercises/ex05_acquire_release.cpp:90-107 | With no write under way memory holds the whole argument of the last write of the run, or the initial payload, and the counter is twice the number of writes modulo its range. |
| SeqLock.StepKeepsInv | robotics/learn/cpp-advanced/06-ipc-serialization/exercises/ex01_shared_memory.cpp:80-93 | Each step of lock, counter and element stores and of the reader's copy keeps the memory a whole payload when the counter is even and a mix of two when it is odd. |
| SeqLock.MemoryGuardsHold | robotics/learn/cpp-advanced/06-ipc-serialization/exercises/ex01_shared_memory.cpp:80-93 | In every reachable state a write, a delayed store and a read under way can take their next step, so no element is accessed out of bounds. |
| SeqLock.FlushApplies | robotics/learn/cpp-advanced/02-error-handling-memory-model/exercises/ex05_acquire_release.cpp:96-106 | Each store that reaches memory is the next one of the write that holds the lock. |
| SeqLock.RemParity | robotics/learn/cpp-advanced/02-error-handling-memory-model/exercises/ex05_acquire_release.cpp:118-119 | A wrapped counter of even range keeps its parity, so the odd test means a write in progress also after wrap-around. |
| SeqLockWrap.TornReadAtTheBound | robotics/learn/cpp-advanced/02-error-handling-memory-model/exercises/ex05_acquire_release.cpp:109-136 | The bound is exact: overtaken by half the counter range of writes, a read passes the test with a pair of values nobody wrote. |
| TaskMachine.SyncGet | robotics/learn/cpp-advanced/11-cpp20-coroutines/exercises/ex02_async_task.cpp:147-155 | sync_get terminates for every finite program of tasks that await, return, throw and catch, and gives the value or exception of direct evaluation. |
| TaskMachine.SyncGetRuns | robotics/learn/cpp-advanced/11-cpp20-coroutines/exercises/ex02_async_task.cpp:53-115 | The frame and continuation machine halts with only the root frame alive, finished, resumed once more than it awaited, and holding what direct evaluation gives. |
| TaskMachine.RunCode | robotics/learn/cpp-advanced/11-cpp20-coroutines/exercises/ex02_async_task.cpp:53-115 | Each statement runs in finitely many machine steps to the outcome of direct execution; other frames are untouched, every frame created is destroyed, and the frame was resumed once per await. |
| TaskMachine.RunAwait | robotics/learn/cpp-advanced/11-cpp20-coroutines/exercises/ex02_async_task.cpp:90-115 | An await creates the child, transfers to it, is resumed by its final suspension exactly once, fetches the value or rethrows, and destroys it. |
| TaskMachine.RunTry | robotics/learn/cpp-advanced/11-cpp20-coroutines/exercises/ex02_async_task.cpp:320-331 | A handler runs if and only if its body throws, also across awaits, with the exception bound. |
| TaskMachine.OneActiveFrame | robotics/learn/cpp-advanced/11-cpp20-coroutines/exercises/ex02_async_task.cpp:61-69 | In every state of every run one handle is active, every other live frame waits for the next of the chain and has been resumed once per earlier await, and a finished frame is never resumed. |
| TaskMachine.StepKeepsSound | robotics/learn/cpp-advanced/11-cpp20-coroutines/exercises/ex02_async_task.cpp:101-113 | Each single step keeps that. |
| TaskMachine.ChainRuns | robotics/learn/cpp-advanced/11-cpp20-coroutines/exercises/ex04_symmetric_transfer.cpp:150-240 | create_chain computes 42 + depth for every depth (42 for a negative one) and leaves no frame but the root. |
| TaskMachine.CaughtAcrossAwait | robotics/learn/cpp-advanced/11-cpp20-coroutines/exercises/ex02_async_task.cpp:314-331 | A try block around an await gives the task's value or, if it throws, whatever the task is, the handler's. |
| TaskMachine.AssignedLocal | robotics/learn/cpp-advanced/11-cpp20-coroutines/exercises/ex02_async_task.cpp:299-304 | A local of a coroutine reads back the value last assigned to it and every other local is as before. |
| TaskMachine.MultiPipelineRuns | robotics/learn/cpp-advanced/11-cpp20-coroutines/exercises/ex02_async_task.cpp:298-307 | A coroutine that awaits any jobs in turn and adds their results to a local total ends, on the machine, with the root frame alone holding the sum, or the exception of the first job that throws. |
| TaskMachine.ThreeJobs | robotics/learn/cpp-advanced/11-cpp20-coroutines/exercises/ex02_async_task.cpp:298-307 | For the three jobs of multi_pipeline that is the sum of their three values, or the first exception. |
| Scheduler.Scheduler.Run | robotics/learn/cpp-advanced/11-cpp20-coroutines/exercises/ex03_coroutine_scheduler.cpp:127-148 | The queue-driven loop resumes handles in exactly the order of the round-by-round schedule, finishes every task, and counts the sum of n_i + 1 iterations. |
| Scheduler.Scheduler.Resume | robotics/learn/cpp-advanced/11-cpp20-coroutines/exercises/ex03_coroutine_scheduler.cpp:106-111 | A resumed task that yields goes to the back of the queue; one that completes is done. |
| Scheduler.Scheduler.Spawn | robotics/learn/cpp-advanced/11-cpp20-coroutines/exercises/ex03_coroutine_scheduler.cpp:119-123 | A spawned task gets a new handle at the back of the queue. |
| Scheduler.ResumedOncePerYield | robotics/learn/cpp-advanced/11-cpp20-coroutines/exercises/ex03_coroutine_scheduler.cpp:127-148 | A task with n yields is resumed exactly n + 1 times, whatever the others do. |
| Scheduler.ScheduleTotal | robotics/learn/cpp-advanced/11-cpp20-coroutines/exercises/ex03_coroutine_scheduler.cpp:146-147 | A complete schedule is as long as the sum of n_i + 1. |
| Scheduler.Fair | robotics/learn/cpp-advanced/11-cpp20-coroutines/exercises/ex03_coroutine_scheduler.cpp:131-141 | When a task is resumed for the (m+1)-th time every task with at least m yields has been resumed m or m + 1 times. |
| Scheduler.RoundMembers | robotics/learn/cpp-advanced/11-cpp20-coroutines/exercises/ex03_coroutine_scheduler.cpp:131-141 | Round r resumes exactly the tasks with at least r yields to make. |
| PriorityScheduler.PriorityScheduler.Run | robotics/learn/cpp-advanced/11-cpp20-coroutines/exercises/ex03_coroutine_scheduler.cpp:226-243 | Whatever the plans and the tie-breaking, each task is resumed at exactly the priorities of its own plan in order, and every resume is at least as urgent as the next one of every unfinished task; the whole run never serves an entry before a more urgent later one if and only if no task yields to a more urgent priority than it was resumed at. |
| PriorityScheduler.TopStep | robotics/learn/cpp-advanced/11-cpp20-coroutines/exercises/ex03_coroutine_scheduler.cpp:226-243 | Serving a most urgent queued entry keeps every resume so far at least as urgent as what each task then had next. |
| PriorityScheduler.ServedStep | robotics/learn/cpp-advanced/11-cpp20-coroutines/exercises/ex03_coroutine_scheduler.cpp:256-260 | Serving a most urgent entry whose task next yields no more urgently keeps everything served at least as urgent as everything queued. |
| PriorityScheduler.OrderedResumes | robotics/learn/cpp-advanced/11-cpp20-coroutines/exercises/ex03_coroutine_scheduler.cpp:226-243 | If urgent entries are always served first then each single task's resumes are ordered too. |
| PriorityScheduler.PriorityScheduler.Resume | robotics/learn/cpp-advanced/11-cpp20-coroutines/exercises/ex03_coroutine_scheduler.cpp:211-215 | A yield queues the handle at the priority it names. |
| PriorityScheduler.PriorityScheduler.Spawn | robotics/learn/cpp-advanced/11-cpp20-coroutines/exercises/ex03_coroutine_scheduler.cpp:220-224 | A spawned task gets a new handle queued at its priority. |
| Crc32.CRC32.Compute | robotics/learn/cpp-advanced/10-safety-lessons/exercises/sf03_fault_tolerance.cpp:122-129 | The table-driven loop gives the bit-at-a-time CRC of every byte string. |
| Crc32.Crc32WithTable | robotics/learn/cpp-advanced/01-move-semantics-value-categories/exercises/ex04_constexpr_crc32.cpp:55-62 | The constexpr and run-time loops, which cast the index to a byte and swap the operands, give the same CRC. |
| Crc32.BuildTable | robotics/learn/cpp-advanced/10-safety-lessons/exercises/sf03_fault_tolerance.cpp:109-117 | Entry i of the table is eight bit steps of i. |
| Crc32.TableEntry | robotics/learn/cpp-advanced/10-safety-lessons/exercises/sf03_fault_tolerance.cpp:111-115 | The inner loop makes eight bit steps. |
| Crc32.CRC32.constructor | robotics/learn/cpp-advanced/10-safety-lessons/exercises/sf03_fault_tolerance.cpp:120 | A new object has the whole table. |
| Crc32.BitStepLinear | robotics/learn/cpp-advanced/01-move-semantics-value-categories/exercises/ex04_constexpr_crc32.cpp:38-43 | The bit step is linear over exclusive or. |
| Crc32.ByteStepSplit | robotics/learn/cpp-advanced/10-safety-lessons/exercises/sf03_fault_tolerance.cpp:126 | Eight bit steps are a lookup of the low byte and a shift of the rest. |
| Crc32.KnownEntries | robotics/learn/cpp-advanced/01-move-semantics-value-categories/exercises/ex04_constexpr_crc32.cpp:50-53 | The table entries the source asserts at compile time. |
| Crc32.KnownCrc | robotics/learn/cpp-advanced/01-move-semantics-value-categories/exercises/ex04_constexpr_crc32.cpp:64-66 | The empty string and the standard test vector that the source asserts at compile time. |
| CrcPolynomial.DivisionIdentity | robotics/learn/cpp-advanced/01-move-semantics-value-categories/exercises/ex04_constexpr_crc32.cpp:26-27 | The schoolbook remainder satisfies dividend = quotient times generator + remainder over GF(2). |
| CrcPolynomial.RemainderUnique | robotics/learn/cpp-advanced/01-move-semantics-value-categories/exercises/ex04_constexpr_crc32.cpp:26-27 | No other quotient and remainder do. |
| CrcPolynomial.SerialDivides | robotics/learn/cpp-advanced/01-move-semantics-value-categories/exercises/ex04_constexpr_crc32.cpp:34-44 | Shifting message bits through the register is long division of the message by the generator. |
| CrcPolynomial.RegisterIsSerial | robotics/learn/cpp-advanced/10-safety-lessons/exercises/sf03_fault_tolerance.cpp:122-129 | The byte-wise register is the bit-serial one on the bits of the bytes, low bit first. |
| CrcPolynomial.CrcIsRemainder | robotics/learn/cpp-advanced/10-safety-lessons/exercises/sf03_fault_tolerance.cpp:122-129 | The CRC of any byte string is the complemented remainder, by x^32 + x^26 + ... + 1, of the message with its first 32 bits complemented and 32 zeros appended. |
| CrcProtected.UndetectedIffDivisible | robotics/learn/cpp-advanced/10-safety-lessons/exercises/sf03_fault_tolerance.cpp:148-150 | Two equally long strings have the same CRC if and only if the generator divides their difference. |
| CrcProtected.BurstDetected | robotics/learn/cpp-advanced/10-safety-lessons/exercises/sf03_fault_tolerance.cpp:148-160 | Changes confined to any 32 consecutive bits of a string of any length change the CRC. |
| CrcProtected.WindowDetected | robotics/learn/cpp-advanced/10-safety-lessons/exercises/sf03_fault_tolerance.cpp:148-160 | Changes confined to any four consecutive bytes change the CRC. |
| CrcProtected.SerialZero | robotics/learn/cpp-advanced/10-safety-lessons/exercises/sf03_fault_tolerance.cpp:122-129 | Up to 32 bits bring exactly one register value to zero. |
| CrcProtected.ZerosKeep | robotics/learn/cpp-advanced/10-safety-lessons/exercises/sf03_fault_tolerance.cpp:122-129 | A difference in the register survives any unchanged suffix. |
| CrcProtected.VerifiesIffCancelled | robotics/learn/cpp-advanced/10-safety-lessons/exercises/sf03_fault_tolerance.cpp:148-160 | After any corrupt_byte calls whose in-range offsets lie in one four-byte window, verification succeeds if and only if every byte was hit an even number of times. |
| CrcProtected.FlipsParity | robotics/learn/cpp-advanced/10-safety-lessons/exercises/sf03_fault_tolerance.cpp:155-160 | A byte ends up changed if and only if it was hit an odd number of times; offsets beyond the data do nothing. |
| CrcProtected.CRCProtected.Verify | robotics/learn/cpp-advanced/10-safety-lessons/exercises/sf03_fault_tolerance.cpp:148-150 | verify is false whenever the bytes differ from the original inside one window, and true when they do not differ. |
| CrcProtected.CRCProtected.constructor | robotics/learn/cpp-advanced/10-safety-lessons/exercises/sf03_fault_tolerance.cpp:144-146 | The stored checksum is that of the value given. |
| CrcProtected.CRCProtected.CorruptByte | robotics/learn/cpp-advanced/10-safety-lessons/exercises/sf03_fault_tolerance.cpp:155-160 | Flips two bits of the byte at an offset inside the data and ignores any other offset. |
| FixedPool.PoolStaysSound | robotics/learn/cpp-advanced/03-rt-linux-programming/exercises/ex04_pool_allocator.cpp:30-67 | After any run of allocations, client writes to held slots and returns of held slots, the list from free_head_ visits exactly the slots nobody holds, once each, ends at SENTINEL and is N - allocated_ long; allocation fails if and only if all N are held; and every held slot still has what its holder last wrote. |
| FixedPool.AllocateSound | robotics/learn/cpp-advanced/03-rt-linux-programming/exercises/ex04_pool_allocator.cpp:45-53 | allocate hands out the head of the list, a slot nobody holds, and returns null only when all are held. |
| FixedPool.DeallocateSound | robotics/learn/cpp-advanced/03-rt-linux-programming/exercises/ex04_pool_allocator.cpp:56-67 | Returning a held slot puts it at the front of the list. |
| FixedPool.DeallocateKeepsListIff | robotics/learn/cpp-advanced/03-rt-linux-programming/exercises/ex04_pool_allocator.cpp:56-67 | Returning a slot leaves a well-formed list if and only if the slot was held; a double free, which the source does not check, closes the list into a cycle. |
| FixedPool.WriteSound | robotics/learn/cpp-advanced/03-rt-linux-programming/exercises/ex04_pool_allocator.cpp:77-80 | Anything a client writes into a slot it holds leaves the list alone. |
| FixedPool.FreeListUnique | robotics/learn/cpp-advanced/03-rt-linux-programming/exercises/ex04_pool_allocator.cpp:82-83 | The links determine the free list. |
| FixedPool.FixedPool.Allocate | robotics/learn/cpp-advanced/03-rt-linux-programming/exercises/ex04_pool_allocator.cpp:45-53 | The method is the specified step on the embedded links. |
| FixedPool.FixedPool.Deallocate | robotics/learn/cpp-advanced/03-rt-linux-programming/exercises/ex04_pool_allocator.cpp:56-67 | A null pointer is ignored, a foreign one aborts, any other is the specified step. |
| FixedPool.FixedPool.Write | robotics/learn/cpp-advanced/03-rt-linux-programming/exercises/ex04_pool_allocator.cpp:77-80 | A client write replaces the first word of one slot. |
| FixedPool.FixedPool.constructor | robotics/learn/cpp-advanced/03-rt-linux-programming/exercises/ex04_pool_allocator.cpp:30-38 | The constructor links all N slots in order. |
| Rpn.EvaluatesExactlyTrees | robotics/learn/cpp-advanced/04-safety-critical-patterns/exercises/ex02_defensive_programming.cpp:240-269 | The evaluator returns v if and only if the tokens are the postfix form of a tree that needs at most 64 entries, divides by no near-zero and has the value v. |
| Rpn.TreeOutcome | robotics/learn/cpp-advanced/04-safety-critical-patterns/exercises/ex02_defensive_programming.cpp:240-269 | On the postfix form of any tree it returns the tree's value or, beyond the stack bound or with a near-zero divisor, aborts. |
| Rpn.ThrowsExactly | robotics/learn/cpp-advanced/04-safety-critical-patterns/exercises/ex02_defensive_programming.cpp:263 | An unreadable token throws if and only if everything before it is a sequence of whole operands that have values and fit the stack; otherwise a contract has aborted before. |
| Rpn.Inverses | robotics/learn/cpp-advanced/04-safety-critical-patterns/exercises/ex02_defensive_programming.cpp:254-258 | Subtraction undoes addition; division is defined exactly for divisors beyond 1e-12 from zero and undoes multiplication. |
| Rpn.FieldLaws | robotics/learn/cpp-advanced/04-safety-critical-patterns/exercises/ex02_defensive_programming.cpp:253-255 | Addition and multiplication are commutative and associative with units 0 and 1, and multiplication distributes. |
| Rpn.KnownExpressions | robotics/learn/cpp-advanced/04-safety-critical-patterns/exercises/ex02_defensive_programming.cpp:364-367 | The four expressions whose values the source asserts. |
| Rpn.OneTree | robotics/learn/cpp-advanced/04-safety-critical-patterns/exercises/ex02_defensive_programming.cpp:238-239 | A token list is the postfix form of at most one tree. |
| Rpn.ParseExact | robotics/learn/cpp-advanced/04-safety-critical-patterns/exercises/ex02_defensive_programming.cpp:247-265 | Reading tokens with a stack of trees succeeds with a tree if and only if they are its postfix form. |
| Rpn.EvalRpn | robotics/learn/cpp-advanced/04-safety-critical-patterns/exercises/ex02_defensive_programming.cpp:240-269 | The loop over tokens on the checked stack is the specified evaluation, with the same failures. |
| Rpn.InvariantStack.Push | robotics/learn/cpp-advanced/04-safety-critical-patterns/exercises/ex02_defensive_programming.cpp:204-210 | push appends, or aborts when 64 entries are in use. |
| Rpn.InvariantStack.Pop | robotics/learn/cpp-advanced/04-safety-critical-patterns/exercises/ex02_defensive_programming.cpp:212-218 | pop removes the last entry, or aborts when there is none. |
| ModelChecker.BoundedModelCheck | robotics/learn/cpp-advanced/10-safety-lessons/exercises/sf04_formal_lite.cpp:228-269 | The search terminates on every finite machine, cycles included; reachable is exactly the states some sequence of declared events leads to, unreachable the declared states outside it, and the count is events times reachable states that have a row. |
| ModelChecker.ClosedIsReachable | robotics/learn/cpp-advanced/10-safety-lessons/exercises/sf04_formal_lite.cpp:228-257 | A closed set of reachable states that holds the initial one is the set of reachable states. |
| ModelChecker.ReachableIsLeast | robotics/learn/cpp-advanced/10-safety-lessons/exercises/sf04_formal_lite.cpp:246-250 | The reachable states are the least set that holds the initial state and is closed under the transition table for declared events. |
| ModelChecker.Expand | robotics/learn/cpp-advanced/10-safety-lessons/exercises/sf04_formal_lite.cpp:246-256 | The inner loop visits every successor by a declared event, enqueues each new one once and counts every event. |
| ModelChecker.Unvisited | robotics/learn/cpp-advanced/10-safety-lessons/exercises/sf04_formal_lite.cpp:259-266 | The final loop collects the declared states that were not visited. |
| HealthMonitor.ModeIsHistory | robotics/learn/cpp-advanced/04-safety-critical-patterns/exercises/ex05_watchdog_health_project.cpp:178-230 | After any health and watchdog checks the mode is SafeMode if and only if the watchdog has expired or at some check two subsystems were late at it and at the one before; otherwise Degraded if and only if exactly one is so at the last check; otherwise Normal. |
| HealthMonitor.SafeModeLatches | robotics/learn/cpp-advanced/04-safety-critical-patterns/exercises/ex05_watchdog_health_project.cpp:178-182 | No later check leaves SafeMode. |
| HealthMonitor.CheckRemembers | robotics/learn/cpp-advanced/04-safety-critical-patterns/exercises/ex05_watchdog_health_project.cpp:186-211 | A check counts as failed exactly the subsystems late at it and at the one before. |
| HealthMonitor.Monitor.Check | robotics/learn/cpp-advanced/04-safety-critical-patterns/exercises/ex05_watchdog_health_project.cpp:178-230 | The loop over subsystems and the transition logic are the specified check. |
| HealthMonitor.Monitor.CheckOne | robotics/learn/cpp-advanced/04-safety-critical-patterns/exercises/ex05_watchdog_health_project.cpp:190-210 | One subsystem: its miss counter and health flag after the check, and whether it counts as failed; no other subsystem changes. |
| HealthMonitor.SoftwareWatchdog.Pet | robotics/learn/cpp-advanced/04-safety-critical-patterns/exercises/ex05_watchdog_health_project.cpp:141-144 | Petting restarts the timeout. |
| HealthMonitor.SoftwareWatchdog.Check | robotics/learn/cpp-advanced/04-safety-critical-patterns/exercises/ex05_watchdog_health_project.cpp:146-160 | An expired watchdog forces SafeMode, any other changes nothing. |
| ThreadedMonitor.StatusIsHistory | robotics/learn/cpp-advanced/04-safety-critical-patterns/exercises/ex04_watchdog.cpp:238-290 | After any number of checks every status is a function of lateness: Shutdown if and only if at some check two subsystems were late that had each been late twice running by then, else Failed if and only if late twice running at any time, else Warning if and only if late now. |
| ThreadedMonitor.UnhealthyIffAllShutdown | robotics/learn/cpp-advanced/04-safety-critical-patterns/exercises/ex04_watchdog.cpp:280-288 | The system is unhealthy if and only if there are subsystems and all of them are Shutdown. |
| ThreadedMonitor.FailedNeverRecovers | robotics/learn/cpp-advanced/04-safety-critical-patterns/exercises/ex04_watchdog.cpp:264-269 | A Failed subsystem is never Healthy or Warning again. |
| ThreadedMonitor.CountedIsFailing | robotics/learn/cpp-advanced/04-safety-critical-patterns/exercises/ex04_watchdog.cpp:249-262 | Before the shutdown a subsystem is counted at a check exactly when it is late and has failed; a failed one that is on time again is not. |
| ThreadedMonitor.HealthMonitor.CheckAll | robotics/learn/cpp-advanced/04-safety-critical-patterns/exercises/ex04_watchdog.cpp:238-290 | The loop, the count and the shutdown are the specified check. |
| ThreadedMonitor.HealthMonitor.CheckOne | robotics/learn/cpp-advanced/04-safety-critical-patterns/exercises/ex04_watchdog.cpp:241-269 | One subsystem: its status and counter after the check, and whether it counts as failed; no other subsystem changes. |
| ThreadedMonitor.HealthMonitor.MarkShutdown | robotics/learn/cpp-advanced/04-safety-critical-patterns/exercises/ex04_watchdog.cpp:283-286 | Every subsystem is marked Shutdown and keeps its counter. |
| TreeSum.VisitsAllIff | robotics/learn/cpp-advanced/04-safety-critical-patterns/exercises/ex01_jpl_rules.cpp:82-89 | The guarded pushes drop no child, and the nodes are visited in preorder, if and only if the tree needs at most 64 entries. |
| TreeSum.HeightSuffices | robotics/learn/cpp-advanced/04-safety-critical-patterns/exercises/ex01_jpl_rules.cpp:64-92 | For every tree of height at most 64 the explicit-stack sum is the recursive sum. |
| TreeSum.LadderSum | robotics/learn/cpp-advanced/04-safety-critical-patterns/exercises/ex01_jpl_rules.cpp:78-88 | The bound is tight: on the ladder of height h the sum is right if and only if h is at most 64. |
| TreeSum.FittingTree | robotics/learn/cpp-advanced/04-safety-critical-patterns/exercises/ex01_jpl_rules.cpp:85-88 | A subtree that fits above what is on the stack is visited whole before anything below it. |
| TreeSum.TreeSum | robotics/learn/cpp-advanced/04-safety-critical-patterns/exercises/ex01_jpl_rules.cpp:71-92 | The loop adds exactly the visited nodes, and equals the recursive sum up to height 64. |
| CyclicExecutive.AddShifts | robotics/learn/cpp-advanced/03-rt-linux-programming/exercises/ex03_cyclic_executive.cpp:93-99 | Adding nanoseconds shifts the instant exactly, and the result is normalised if and only if the nanosecond field does not go below zero. |
| CyclicExecutive.AddUndoesDiff | robotics/learn/cpp-advanced/03-rt-linux-programming/exercises/ex03_cyclic_executive.cpp:93-103 | Adding a difference back gives the first instant if and only if its second is not earlier: the helper never borrows. |
| CyclicExecutive.AddDoesNotBorrow | robotics/learn/cpp-advanced/03-rt-linux-programming/exercises/ex03_cyclic_executive.cpp:93-103 | A concrete pair of instants for which it does not come back normalised. |
| CyclicExecutive.RunLoop | robotics/learn/cpp-advanced/03-rt-linux-programming/exercises/ex03_cyclic_executive.cpp:236-275 | Over any run every deadline is start + k periods in normalised form, never before the end of the cycle's work, and after an overrun less than one period past it; overruns and recorded cycles add up to the cycles run. |
| CyclicExecutive.DeadlinesIncrease | robotics/learn/cpp-advanced/03-rt-linux-programming/exercises/ex03_cyclic_executive.cpp:240-259 | Deadlines strictly increase. |
| CyclicExecutive.DeadlineClosedForm | robotics/learn/cpp-advanced/03-rt-linux-programming/exercises/ex03_cyclic_executive.cpp:252-259 | The deadline index after n cycles in closed form: one period per cycle counted from the start or from the overrun that pushed it furthest. |
| CyclicExecutive.NoDrift | robotics/learn/cpp-advanced/03-rt-linux-programming/exercises/ex03_cyclic_executive.cpp:240-242 | Without overruns deadline n is exactly n + 1 periods after the start. |
| CyclicExecutive.SkipLands | robotics/learn/cpp-advanced/03-rt-linux-programming/exercises/ex03_cyclic_executive.cpp:254-261 | Skipping the missed periods lands on the first deadline the work has not passed. |
| CyclicExecutive.Timespec.AddNs | robotics/learn/cpp-advanced/03-rt-linux-programming/exercises/ex03_cyclic_executive.cpp:93-99 | The carrying loop is the specified addition. |

## Left out

- Memory orders weaker than FIFO store buffers: the ring, telemetry and seqlock models give each thread a FIFO store buffer and in-order loads, the level at which the source argues; the C++ abstract machine allows more, as its own seqlock comment says. A compare-exchange or fetch_add drains the buffer, so the stack is modelled without buffers.
- Telemetry.Conservation: the logger of the real-time program loads its done flag with relaxed order, so there the drain rests on loads being performed in program order, which the model assumes and the C++ abstract machine does not promise for that load; the pipeline program uses an acquire load.
- SpscProtocol.PoppedIsPrefix: the words of an item are stored and loaded in ascending order, one word being the unit that cannot tear; the order in which a compiler copies a structure is not modelled.
- Liveness of the spin, CAS and seqlock retry loops: it depends on the operating system's scheduler.
- TreiberStack.TaggedStackSafe: assumes that no pop is overtaken by 2^16 successful CASes, because the property is false without it, as AbaProblem.TagBoundIsTight shows. The stack's own destructor and its statistics counters are not modelled.
- SeqLock.AcceptedReadIsWhole: assumes fewer than half the counter range of writes during one read attempt, because the property is false without it, as SeqLockWrap.TornReadAtTheBound shows.
- TaskMachine.SyncGet: task bodies have no loops, values are integers, each created task is awaited at once by its creator; a task awaited twice, stored, moved or never awaited is not modelled, nor is a second sync_get of the same task, nor is `no_symmetric`, whose stored continuation nobody resumes. A body that runs off its end returns 0.
- Telemetry.VerifyOutput: does not model read errors, and the accelerometer range warning has no effect on the result; latency statistics are left out.
- Scheduler.Scheduler.Run: tasks are their remaining yields; what they print between yields and tasks spawned while the loop runs are not modelled.
- PriorityScheduler.PriorityScheduler.Run: the heap is a sequence from which any most urgent entry may be taken, so nothing is said about the order among equals.
- HealthMonitor.Monitor.Check: the fields of the subsystem objects are kept in two arrays of the monitor, so aliasing between subsystem objects is not captured; the event log is left out, and so is the Shutdown mode that the main program sets after its loop.
- ThreadedMonitor.HealthMonitor.CheckAll: the fields of the subsystem objects are kept in two arrays of the monitor; the thread, its sleep and the timeline log are left out.
- FixedPool.FixedPool.Deallocate: does not model a pointer into the middle of a slot, because a slot is modelled by its first word only; N = 0 is excluded, the constructor having no meaning for it.
- Rpn.EvalRpn: works on tokens and on reals; splitting the text, what stod accepts, rounding and the finiteness check are not modelled.
- TreeSum.TreeSum: does not model 32-bit overflow of the sum, because the recursive version overflows alike.
- CyclicExecutive.RunLoop: does not model 64-bit overflow of nanosecond counts or the jitter histogram.
- ModelChecker.BoundedModelCheck: the count is unbounded; breadth-first order is not observable in the result and nothing is said about it.
- FlowMonitor, TMR voting, Hamming states, PID controllers, saturating arithmetic, bounded integers, iterative Fibonacci: easy or finite facts.
- Benchmarks, printing, argument parsing, mmap, affinity and scheduling calls.
