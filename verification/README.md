# Concurrency protocols of hse-multithreading-examples, modelled and proved in Dafny

This project models the concurrency protocols of the repository and proves what holds of
them in every run:

- the shared-memory multi-producer queue of `hw4` (the ring),
- the linked lock-free stack and the mutex stack it stands in for,
- the futex latch,
- the two-semaphore handoff of one shared buffer,
- the condition-variable worker,
- the array stack with a compare-and-exchange on its index,
- the spinlock and its counter.

`dafny verify dfyconfig.toml` checks all of it.

## How the protocols are modelled

Each protocol is a machine: the shared memory, one program counter for each thread, and
one step for each atomic operation or plain access of the C++ code. A run is any sequence
of enabled steps from the initial state. The number of threads, the capacity of the ring
and of the array stack, and all inputs are arbitrary. Steps interleave in a sequentially
consistent order. For the ring this is the order its acquire and release operations on the
slot state impose on the payload. Histories of a run (tickets, claims, delivered messages,
executed tasks) are recorded beside the state and never read by the steps.

Code that one thread runs alone is imperative Dafny: the queue object with
`init_queue`, `try_push_message`, `try_pop_message` and the consumer's drain loop, the mutex
stack, the destructor of the linked stack, and the array stack used by one thread at a time.
The lemmas `SoloPush`, `SoloPop` and `OperationsAreRuns` tie the queue object to the ring machine.

| file | content |
|---|---|
| `RingProtocol`, `RingInvariant`, `RingRounds` | the ring machine, its inductive invariant, index arithmetic |
| `RingDelivery`, `RingFifo`, `RingOvertake` | what every run delivers, when it is a FIFO, why the condition is needed |
| `RingSequential`, `RingBurned`, `RingStall` | operations one after another, the cost of burned tickets, the same under every schedule |
| `RingQueue`, `RingWrap`, `RingCalls` | the queue object, the drain loop and whole sessions, 64-bit wrap-around, the answer to every call |
| `LinkedStack`, `LinkedStackTheorems`, `LinkedStackProgress` | the linked stack over a heap with address reuse: invariant, refinement and memory safety, lock-freedom |
| `FutexLatch`, `FutexLatchTheorems` | the latch: wakeups, termination, exact liveness condition |
| `ArrayStack`, `ArrayStackCalls`, `ArrayStackReturns`, `ArrayStackLifo`, `ArrayStackOverlap` | the array stack: bounds, the answer to every call, what pops return, when it is a LIFO, the runs that go wrong |
| `Handoff`, `WorkerQueue`, `Spinlock` | the smaller protocols |
| `Sums`, `Sequences` | weighted sums over threads, byte strings and sequences |

## What the proofs say about the code

Some properties one would expect are false of the code as it stands. The model keeps the
code as it is and proves the exact condition. For the ring, the two stacks and the worker a
run from the initial state that fails is built as well.

- **The ring is not a FIFO in every run.** A failed compare-and-exchange has already taken a
  ticket, and a producer that stalls can be overtaken on its slot by the ticket one lap
  later. A run keeps ticket order and burns nothing if and only if each of its
  compare-and-exchanges on a slot was made with a ticket less than `n` ahead of the messages
  consumed (`RingFifo.OrderedIffTimely`). Taking tickets only while fewer than `n` are
  outstanding is enough for that. A run that breaks order exists at every capacity
  (`RingOvertake.FifoFailsWithoutWindow`). `tasks/ipc.md` asks for a queue without naming
  this limit; the model follows the code.
- **Burned tickets can silence the consumer.** With the ring empty and `b` tickets burned, the
  next message pushed is the next one popped if and only if `n` divides `b`
  (`RingBurned.NextPushSeenIffAligned`). If not, several pushes succeed before the consumer
  can see any of them, and it then sees the last one first. One producer is enough to burn
  any number of tickets (`RingBurned.EveryBurnCountIsReached`).
- **The linked stack is safe exactly when at most one thread pops.** This answers the
  question in `lock_free/spsc_stack.cpp`, line 35, for any number of pushers. With two poppers
  a value can also be lost without any access to freed memory, by reuse of an address
  (`LinkedStackTheorems.TwoPoppersLoseANode`).
- **The latch releases everybody exactly when the number of count-downs equals the initial
  count** (or nobody waits).
- **An input line whose length is a multiple of 2^32, such as an empty line, ends the child and
  leaves the parent waiting for ever**; with no such line both exit in every run.
- **The array stack is a bounded LIFO as long as no compare-and-exchange is won on a cell
  another operation has still to store or read** (`ArrayStackLifo.DisciplinedRunIsLifo`);
  winning such a cell can give a wrong value. At every point of a run every pop that has won
  is bound to return the value it took, however the pending stores and reads land, if and
  only if every exchange was won on a cell where all that was pending agreed in value
  (`ArrayStackReturns.BoundIffAgreeing`). One pusher and one popper are enough to go wrong: a
  pop can return a zero nobody pushed (`ArrayStackOverlap.PopReturnsWhatNobodyPushed`), or
  take one value and return a later one, which is then popped twice
  (`ArrayStackOverlap.PopReturnsALaterPush`).
- **The worker stops on request if and only if it is not already past its check with nothing
  to do** (`WorkerQueue.StopsIffNotMissed`). Two steps into the program a request can be too
  late (`WorkerQueue.StopCanBeMissed`); the destructor of the worker, which requests a stop
  and joins, then waits for ever. One more task would free it (`WorkerQueue.OneMoreTaskFreesIt`).
- **The drain loop takes a discard at the wrap of the 64-bit index for an empty queue**, and
  counts correctly in every other case.

## Model

| member | source | states |
|---|---|---|
| RingDelivery.EveryRunDelivers | hw4/ipc_queue.cpp:64-130 | In every run, the k-th message taken out is the one put in by the (k div n)-th successful claim of slot k mod n, with its header unchanged and its bytes handed over exactly when its type is the one asked for |
| RingDelivery.PopReturnsWhatItTook | hw4/ipc_queue.cpp:116-136 | What a finished pop returns is the claimed message it took: true with exactly its bytes if the type matches, false and no bytes otherwise, and the read index then counts it |
| RingDelivery.ClaimsHaveDistinctTickets | hw4/ipc_queue.cpp:64-74 | No push is delivered twice: two claims with the same ticket are the same claim |
| RingDelivery.OneOutstandingClaimPerSlot | hw4/ipc_queue.cpp:67-74 | In every run a slot has one claim more than it has had messages consumed while it is not EMPTY, and as many while it is |
| RingDelivery.ArgumentsAreKept | hw4/ipc_queue.cpp:52-65 | In every run ticket t carries the producer and message of the t-th push started, and a pop in progress the request it was started with |
| RingDelivery.NonBlocking | hw4/ipc_queue.cpp:52-137 | In every state an idle producer can start any push and an idle consumer any pop, and whoever is inside one can take its next step |
| RingDelivery.SlotExclusion | hw4/ipc_queue.cpp:67-83 | In every run no two threads are ever about to touch the header or payload of the same slot |
| RingDelivery.SlotContents | hw4/ipc_queue.cpp:76-84 | In every run EMPTY slots are blank, and READY slots the consumer has not reached hold the claimed bytes followed by zeros |
| RingDelivery.TicketAccounting | hw4/ipc_queue.cpp:64-83 | write_index = tickets held + burned + WRITING slots + READY slots + messages consumed, and consumed is read_index, or one more between the consumer's last two stores |
| RingDelivery.TicketFates | hw4/ipc_queue.cpp:64-74 | A ticket is held exactly when a producer is about to claim with it, and used exactly when it is the ticket of a claim |
| RingInvariant.StepKeepsInv | hw4/ipc_queue.cpp:52-137 | Every step of push and pop, by any thread in any order, keeps slot ownership and contents, ticket fates and the delivery law |
| RingFifo.OrderedIffTimely | hw4/ipc_queue.cpp:64-74 | A run claims every slot in ticket order and burns no ticket if and only if each claim was made with a ticket less than n ahead of the messages consumed |
| RingFifo.StepOrderedIffTimely | hw4/ipc_queue.cpp:64-74 | From such a state one step keeps ticket order and burns nothing if and only if it is no claim or a timely one, and a timely claim never fails |
| RingFifo.TimelyRunIsFifo | hw4/ipc_queue.cpp:64-130 | In runs with timely claims only, message k out is message k in |
| RingFifo.WindowedRunIsOrderly | hw4/ipc_queue.cpp:64-74 | If tickets are taken only while fewer than n are outstanding, no claim fails and the q-th claim of slot i is made with ticket i + q n |
| RingFifo.WindowedRunIsFifo | hw4/ipc_queue.cpp:64-130 | In runs that take tickets only while fewer than n are outstanding, message k out is message k in |
| RingFifo.WindowedStepRefinesFifo | hw4/ipc_queue.cpp:64-130 | In such runs every step is an enqueue below capacity, a dequeue of the oldest message, or invisible to a bounded FIFO; no push is rejected, a pop finds nothing only if the oldest message is not published yet, and refuses one only if the buffer is too short for it |
| RingFifo.ReadyIffPublished | hw4/ipc_queue.cpp:98-104 | While claims are in ticket order, the slot at the read index is READY exactly when the push of the oldest outstanding message has stored READY |
| RingFifo.WindowedRunKeepsProgramOrder | hw4/ipc_queue.cpp:64-86 | In such runs what was received from a producer is a prefix of what that producer sent |
| RingFifo.CheckedRunIsWindowed | hw4/ipc_queue.cpp:64-65 | Producers that take a ticket only while write_index is less than n ahead of read_index keep to that window, so all of the above holds for them |
| RingFifo.HeldTicketIsNext | hw4/ipc_queue.cpp:64-68 | While claims are in ticket order, an unused ticket less than n ahead of the messages consumed is the next one for its slot, and that slot is EMPTY and blank |
| RingFifo.WindowIsExact | hw4/ipc_queue.cpp:64-74 | From an orderly state, a ticket taken and tried at once keeps ticket order and burns nothing if and only if fewer than n were outstanding |
| RingOvertake.FifoFailsWithoutWindow | hw4/ipc_queue.cpp:64-74 | At every capacity n some run delivers ticket n first while tickets 0 to n-1 are still held |
| RingOvertake.FillOut | hw4/ipc_queue.cpp:76-86 | A producer that owns a slot can always publish it by its own steps alone, leaving claims and the consumer as they were |
| RingOvertake.TakeOut | hw4/ipc_queue.cpp:101-130 | A pop that meets a READY slot with a large enough buffer can always take the message by its own steps alone |
| RingSequential.SoloPush | hw4/ipc_queue.cpp:52-87 | Running alone, the steps of a push have the effect and result of the sequential push, also when the slot is taken |
| RingSequential.SoloPop | hw4/ipc_queue.cpp:89-137 | Running alone, the steps of a pop have the effect and result of the sequential pop, in all its outcomes |
| RingSequential.OperationsAreRuns | hw4/ipc_queue.cpp:52-137 | Whatever a sequence of pushes and pops one after another does to the shared memory, some run of the machine does |
| RingSequential.DistanceIsGap | hw4/ipc_queue.cpp:44-46 | With (write_index - read_index) mod n = k, the consumer's slot is n - k pushes ahead |
| RingSequential.BurnedTicketsStallPops | hw4/ipc_queue.cpp:64-104 | From an empty ring whose indices are d apart, until d pushes have gone in, every push succeeds and every pop, in any mix, is not ready and changes nothing |
| RingSequential.NextPushIsPoppedFirst | hw4/ipc_queue.cpp:98-128 | The push after those d is the first one the consumer gets |
| RingBurned.RestGapIsBurned | hw4/ipc_queue.cpp:64-74 | After any run that comes to rest empty, write_index - read_index is exactly the number of tickets burned, and all slots are blank |
| RingBurned.BurnedTicketsCost | hw4/ipc_queue.cpp:64-104 | From any such state with burned mod n = k not 0, the next n - k pushes succeed while every pop, one after another in any mix, finds nothing and changes nothing, and the push after them is the first one popped |
| RingBurned.NextPushSeenIffAligned | hw4/ipc_queue.cpp:64-104 | After any run that comes to rest empty, the next pop finds the next message pushed if and only if n divides the number of tickets burned |
| RingBurned.SeenAtOnceIffAligned | hw4/ipc_queue.cpp:64-128 | On an empty ring with indices b apart, that pop returns exactly the message pushed if n divides b and is not ready otherwise |
| RingBurned.EveryBurnCountIsReached | hw4/ipc_queue.cpp:64-74 | For every n and b some run with one producer comes to rest empty with exactly b tickets burned |
| RingStall.NothingArrivesInAnySchedule | hw4/ipc_queue.cpp:64-104 | After any run at rest with burned mod n = k not 0, every schedule of any threads that starts at most n - k pushes consumes nothing, burns nothing more, and lets no pop find anything |
| RingWrap.WrapIsSafeIffCapacityDivides | hw4/ipc_queue.cpp:44-50 | Reducing an index to a machine word keeps its slot for every index if and only if the capacity divides the word size |
| RingWrap.WrapStep | hw4/ipc_queue.cpp:64-65 | The wrapping ring can take exactly the steps of the unbounded one, and each keeps the two in step with the same visible result |
| RingWrap.SixteenSlotsWrapUnseen | hw4/ipc_queue.h:13-14 | With 16 slots and 64-bit indices, every sequence of steps is possible and looks the same with and without wrap-around |
| RingCalls.EveryCallIsAnswered | hw4/ipc_queue.cpp:52-137 | In every sequence of steps, with or without wrap-around, every push a producer has started has returned true or false save the one under way, and so has every pop |
| RingCalls.PushAnswerIsRight | hw4/ipc_queue.cpp:67-86 | A push answers true exactly when it publishes its slot, and false exactly when its exchange finds the slot taken |
| RingQueue.SharedQueue.InitQueue | hw4/ipc_queue.cpp:7-22 | Whatever the region held, it becomes the initial ring with blank slots and the meta data 0x48573431, 1, 16, 256 |
| RingQueue.SharedQueue.IsQueueValid | hw4/ipc_queue.cpp:24-42 | True exactly when magic, version, capacity and payload size are 0x48573431, 1, 16 and 256 |
| RingQueue.SharedQueue.TryPush | hw4/ipc_queue.cpp:52-87 | A null buffer or more than 256 bytes changes nothing and is refused; otherwise effect and result are those of the sequential push with 64-bit indices |
| RingQueue.SharedQueue.TryPop | hw4/ipc_queue.cpp:89-137 | Effect and result are those of the sequential pop; the caller's buffer and header change exactly when it returns true |
| RingQueue.PushThenPop | hw4/ipc_queue.cpp:52-137 | Through a fresh queue: a message is taken exactly if it has a buffer and at most 256 bytes, and a pop for its type then hands back exactly its header and bytes |
| RingQueue.FalsePopMovesIndexIffDiscarded | hw4/consumer_hw4.cpp:46-68 | A pop returns false and moves the read index up exactly when it discarded a message of another type and the index did not wrap |
| RingQueue.Drain | hw4/consumer_hw4.cpp:45-71 | For every queue the loop ends, having cleared exactly the slots it popped; received plus skipped is the longest run of ready slots from the read index, the received being its TEXT messages in order, unless and only unless a message is discarded as the 64-bit index wraps, where the loop stops one short |
| RingQueue.Produce | hw4/producer_hw4.cpp:35-71 | Pushing any messages into a fresh queue stores the first sixteen in the slots in order and no others |
| RingQueue.Session | hw4/consumer_hw4.cpp:45-71 | Producers first and then the consumer: the first sixteen messages are stored and no others, the consumer receives the TEXT ones byte for byte in order and skips the rest, and every slot is blank again |
| RingQueue.ProducerSession | hw4/TESTS.md:19-48 | The producer program run any number of times and then the consumer: the texts of the first eight runs are received and their numbers skipped, three and three for three runs |
| RingQueue.ProgramSession | hw4/producer_hw4.cpp:45-71 | The same for the program's own messages, the 4 bytes of 12345 with type 2 and the 20 bytes of its text with type 1 |
| LinkedStack.StepKeepsInv | lock_free/spsc_stack.cpp:45-67 | With one popper every step touches allocated nodes only, and keeps the list from the head acyclic, nodes owned once, and the popper's saved head linked |
| LinkedStack.UnlinkTakesHead | lock_free/spsc_stack.cpp:56-58 | When the popper's compare-and-exchange succeeds, the head is the node it saved and its successor is the one it read, even if addresses were reused |
| LinkedStackTheorems.RunRefines | lock_free/spsc_stack.cpp:45-67 | Every run with at most one popper is a run of the mutex stack, each operation taking effect at its successful exchange or at the load that saw null; thread by thread the values put on the stack are the arguments of Push in order, each once, up to the push under way, and every Pop called has been answered by a value or by nothing, up to the one under way |
| LinkedStackTheorems.StepRefines | lock_free/spsc_stack.cpp:45-67 | Each step is one step of the mutex stack or none, and a push that takes effect pushes the value its thread was called with |
| LinkedStackTheorems.ChainUnique | lock_free/spsc_stack.cpp:38-42 | The list from the head is unique, so the abstract stack depends on the state alone |
| LinkedStackTheorems.MutexStack.Push | lock_free/spsc_stack.cpp:11-14 | The mutex stack's push is the abstract push |
| LinkedStackTheorems.MutexStack.Pop | lock_free/spsc_stack.cpp:16-28 | The mutex stack's pop reports empty exactly on an empty stack, and otherwise takes and returns the top |
| LinkedStackTheorems.HeapPartition | lock_free/spsc_stack.cpp:46-66 | The allocated nodes are exactly the list from the head and the nodes owned by operations in progress, disjointly |
| LinkedStackTheorems.Destroy | lock_free/spsc_stack.cpp:69-76 | Run at rest, the destructor frees exactly the nodes of the list, from the head on and each while it is allocated, and leaves none |
| LinkedStackTheorems.TwoPoppersFault | lock_free/spsc_stack.cpp:56-66 | With two poppers some run reads a freed node |
| LinkedStackTheorems.TwoPoppersLoseANode | lock_free/spsc_stack.cpp:56-58 | With two poppers some run that touches allocated nodes only loses a pushed value, as an exchange succeeds on an address that was handed out again |
| LinkedStackTheorems.SafeIffOnePopper | lock_free/spsc_stack.cpp:35-67 | For any number of threads, no run touches a node that is not allocated or frees one twice if and only if at most one thread pops |
| LinkedStackProgress.LockFreedom | lock_free/spsc_stack.cpp:48-58 | Among n threads, exchanges that found another head, also those of a pop that then finds null, are at most n - 1 for each success, and a run without spurious failures takes at most (2n + 3) steps for each operation begun |
| LinkedStackProgress.ExchangeSucceedsIff | lock_free/spsc_stack.cpp:48-60 | An exchange succeeds exactly when it does not fail for no reason and the head is the one seen; otherwise the head stays, a push goes on with the head it found, and so does a pop unless that is null, where it answers empty |
| LinkedStackProgress.NonBlocking | lock_free/spsc_stack.cpp:45-67 | In every state every thread can start a push at any free address or a pop, or go on with its operation; a pop that starts on an empty stack answers at once |
| FutexLatchTheorems.NoLostWakeup | futex/latch.cpp:22-40 | With at most k count-downs, while a thread sleeps the count is still positive or a wake is on its way, and a returned wait saw all k count-downs |
| FutexLatchTheorems.WakesExactlyOnce | futex/latch.cpp:22-28 | In every run FutexWake has been called, or is about to be, exactly once from the moment the count has gone from 1 to 0, and never otherwise |
| FutexLatchTheorems.RunHasWakes | futex/latch.cpp:22-28 | Every run has such a number of calls |
| FutexLatchTheorems.WokenSleeperLooks | futex/latch.cpp:30-40 | A sleeper can wake for no reason at any time, and then returns if the count is zero and goes back to the wait with the count it loads if not |
| FutexLatchTheorems.EveryScheduleEnds | futex/latch.cpp:22-45 | Under any scheduler and without spurious wakeups, n threads take at most n (4n + 4) steps |
| FutexLatchTheorems.StepDecreases | futex/latch.cpp:22-45 | Every step of every thread lowers one natural-number measure |
| FutexLatchTheorems.EverybodyReturnsIffExactCount | futex/latch.cpp:20-45 | Every run that comes to rest has let all threads return if and only if exactly k threads count down, or nobody waits |
| Handoff.BufferIsExclusive | ipc/mmap_intro.cpp:53-84 | The semaphores never sum to more than 1, and parent and child are never both at the shared data |
| Handoff.PrintedIsPrefix | ipc/shm_intro.cpp:61-75 | What the child has printed is the first lines in order: for each its length modulo 2^32, which is not zero, and its first 4092 bytes followed by zeros |
| Handoff.EveryScheduleEnds | ipc/mmap_intro.cpp:53-86 | Any scheduler brings both sides to rest within 70 steps a line plus 51 |
| Handoff.StuckIsExact | ipc/mmap_intro.cpp:53-86 | At rest exactly the lines before the first whose length is a multiple of 2^32 are printed, the child is gone, and the parent is gone or waits at that line |
| Handoff.BothExitIffNoZeroLine | ipc/shm_intro.cpp:61-99 | Both sides exit in every run if and only if no line has a length that is a multiple of 2^32 |
| Handoff.EmptyLineEndsIt | ipc/mmap_intro.cpp:53-86 | With lines shorter than 2^32, at rest exactly the lines before the first empty one are printed, each with its own length, and both sides have exited if and only if no line is empty |
| WorkerQueue.TasksInOrder | synchronization_primitives/condition_variable/condition_variable_any.cpp:16-39 | Executed tasks, the rest of the batch and the pending tasks are the added tasks in lock order; adder by adder those are the tasks AddTask was called with, up to the one under way; a worker asleep with work has a notification coming |
| WorkerQueue.EveryScheduleEnds | synchronization_primitives/condition_variable/condition_variable_any.cpp:16-39 | Without spurious wakeups every schedule ends within a budget of fifteen steps a task |
| WorkerQueue.RestMeansExecuted | synchronization_primitives/condition_variable/condition_variable_any.cpp:27-39 | At rest every adder has added all its tasks, and the worker has executed every one, or has been asked to stop and has |
| WorkerQueue.StopsOnlyOnRequest | synchronization_primitives/condition_variable/condition_variable_any.cpp:27-27 | In every run a worker that has stopped has been asked to, and the stop token is set exactly when somebody has requested it |
| WorkerQueue.UnaskedRestExecutesAll | synchronization_primitives/condition_variable/condition_variable_any.cpp:27-39 | A run at rest without a request to stop has executed every task that AddTask was called with |
| WorkerQueue.WaitsOnlyForMutexOrTask | synchronization_primitives/condition_variable/condition_variable_any.cpp:16-33 | A task can be added and a stop requested at any time, and nobody waits but for the mutex or, asleep, for a task |
| WorkerQueue.WokenWorkerLooks | synchronization_primitives/condition_variable/condition_variable_any.cpp:33-34 | A worker woken for no reason takes the mutex and looks: it swaps if there is work and sleeps on if not |
| WorkerQueue.StopIsUnseenWhileWaiting | synchronization_primitives/condition_variable/condition_variable_any.cpp:33-33 | Once the worker is past its check with nothing pending and nobody about to add, no request to stop ends it, in any run without a new task |
| WorkerQueue.StopsIffNotMissed | synchronization_primitives/condition_variable/condition_variable_any.cpp:27-33 | From any state with a stop requested, a run without new tasks that comes to rest has stopped the worker if and only if it did not start with the worker past its check and nothing to do |
| WorkerQueue.OneMoreTaskFreesIt | synchronization_primitives/condition_variable/condition_variable_any.cpp:16-34 | After a stop was missed, every run with one more task that comes to rest has executed everything and stopped the worker |
| WorkerQueue.ComesToRest | synchronization_primitives/condition_variable/condition_variable_any.cpp:16-39 | From every state some run without new tasks comes to rest |
| WorkerQueue.StopCanBeMissed | synchronization_primitives/condition_variable/condition_variable_any.cpp:27-33 | One step of the worker and then the request already lead to such a state |
| ArrayStack.AlwaysBounded | lock_free/spsc_stack.cpp:84-114 | However operations overlap, the head is within the capacity and is pushes won minus pops won, every index used is in range, and every cell holds the initial value or an offered one |
| ArrayStack.PushesItsArgument | lock_free/spsc_stack.cpp:84-95 | In every run a push carries the argument it was started with to its store, and wins its exchange with it |
| ArrayStackCalls.EveryCallIsAnswered | lock_free/spsc_stack.cpp:84-114 | In every run, thread by thread: the arguments of Push are, in order and each once, the values that won a cell or were refused as full and the one not decided yet; the values that won are those Push has returned true for and the one still to be stored; every pop has returned a value or reported empty, save the one under way |
| ArrayStackCalls.RefusalsAreRight | lock_free/spsc_stack.cpp:88-106 | In every run a push is refused as full exactly when it loads the head at the capacity, a pop answers empty exactly when it loads it with nothing on the stack that the won exchanges make, and no exchange is won beyond either end |
| ArrayStackCalls.ExchangeWonIff | lock_free/spsc_stack.cpp:92-109 | An exchange is won exactly when it does not fail for no reason and the head is the one loaded |
| ArrayStackCalls.NonBlocking | lock_free/spsc_stack.cpp:84-114 | In every state every thread can start any push or a pop, or go on with its operation |
| ArrayStackReturns.BoundIffAgreeing | lock_free/spsc_stack.cpp:84-114 | At every point of a run every won pop is bound to return the value it took, however pending stores and reads land, if and only if each push was won over pops that took the same value from its cell, and each pop on a cell that holds the top with only stores of it pending |
| ArrayStackReturns.StepBoundIffAgreeing | lock_free/spsc_stack.cpp:92-110 | The same for one step from any state in which all won pops are so bound |
| ArrayStackReturns.BoundIffSettled | lock_free/spsc_stack.cpp:92-110 | A pop returns v under every order in which pending operations can land if and only if its cell holds v and no other value is still to be stored there |
| ArrayStackReturns.AgreeingRunReturns | lock_free/spsc_stack.cpp:99-114 | In such runs, thread by thread, the values pops return are those they took from the top, in order and each once |
| ArrayStackReturns.HeadIsHeight | lock_free/spsc_stack.cpp:84-114 | In every run the head is the height of the stack that the won exchanges make |
| ArrayStackLifo.DisciplinedStepIsLifo | lock_free/spsc_stack.cpp:84-114 | If exchanges are won on quiet cells only, full and empty are reported exactly, a won push adds on top and a won pop is going to return the top |
| ArrayStackLifo.PromiseKept | lock_free/spsc_stack.cpp:109-111 | The value a won pop is going to return does not change until it reads, and it returns that value |
| ArrayStackLifo.DisciplinedRunIsLifo | ipc/shm_atomics.cpp:17-47 | In every such run the array stands for the stack its won exchanges make, full and empty are reported exactly, and thread by thread the values returned are the ones taken from the top |
| ArrayStackLifo.BusyPopReadsOldCell | lock_free/spsc_stack.cpp:92-110 | A pop that wins a cell not yet stored returns its old contents, right only if the two values agree |
| ArrayStackLifo.BusyPushOverwritesPromise | lock_free/spsc_stack.cpp:92-110 | A push that wins a cell not yet read makes the earlier pop return the new value, right only if the two agree |
| ArrayStackLifo.BusyCasIsOneOfTwo | lock_free/spsc_stack.cpp:92-110 | An exchange won on a cell that is not quiet is always one of those two |
| ArrayStackLifo.StepRepresentsIffDisciplined | lock_free/spsc_stack.cpp:84-114 | From a state with pending stores below the head, pending reads above it and all on different cells, a step leads to another such state if and only if it wins no exchange on a cell that is not quiet |
| ArrayStackLifo.BoundIffCellAgrees | lock_free/spsc_stack.cpp:92-110 | From such a state, after any step every won pop is bound to return the value it took, however pending stores and reads land, if and only if all that was pending on the cell won agreed with it in value |
| ArrayStackOverlap.PopReturnsWhatNobodyPushed | lock_free/spsc_stack.cpp:92-110 | With one pusher and one popper, at every capacity there is a run in which only the given value is ever offered, the pop takes it and returns zero |
| ArrayStackOverlap.PopReturnsALaterPush | lock_free/spsc_stack.cpp:92-110 | With one pusher and one popper, at every capacity there is a run in which the pop takes one value and returns another pushed later, which is still on the stack at the end |
| ArrayStack.BoundedStack.Push | lock_free/spsc_stack.cpp:84-97 | Used by one thread at a time: false exactly when full, otherwise the value is on top |
| ArrayStack.BoundedStack.Pop | lock_free/spsc_stack.cpp:99-114 | Used by one thread at a time: nothing exactly when empty, otherwise the top, removed |
| Spinlock.MutualExclusion | synchronization_primitives/mutex/spinlock.cpp:8-13 | At most one thread is in the critical section, and the flag is set exactly when one is |
| Spinlock.NoLostIncrement | synchronization_primitives/mutex/spinlock.cpp:27-37 | Whenever all threads have finished, the counter is threads times increments and the lock is free |
| Spinlock.UsefulStepsAreExact | synchronization_primitives/mutex/spinlock.cpp:8-37 | In every run the steps that are not failed exchanges, taken and still to take, are four for each increment |
| Spinlock.FinishedIffAllSteps | synchronization_primitives/mutex/spinlock.cpp:8-37 | All threads have finished if and only if that many such steps have been taken |
| Spinlock.SomeoneCanProgress | synchronization_primitives/mutex/spinlock.cpp:8-13 | Until all threads have finished, some thread can take a step that is not a failed exchange |
| Spinlock.FailedExchangeChangesNothing | synchronization_primitives/mutex/spinlock.cpp:8-11 | A thread is never blocked: its exchange takes the lock if the flag is clear, and changes nothing if it is set |

## Left out

- The C++ weak memory model: runs are sequentially consistent interleavings.
- `memcpy`, `memset` and the copy of a header are one step each; the exclusion theorem shows that no other thread can look in between.
- RingQueue.Drain: no producer runs during the loop.
- RingQueue.Drain: logs the bytes that `header.length` names; printing the buffer as a C string, with what an earlier message left in it, is not modelled.
- Handoff.PrintedIsPrefix: records the whole buffer the child reads; printing it as a C string is not modelled.
- Handoff: named semaphores left over with another value by an earlier process; both start at 0.
- The linked stack, the latch, the handoff, the worker and the spinlock are machines on values, as several threads update them; only code that runs alone is written as methods.
- LinkedStackTheorems.MutexStack: the lock itself is not a step, an operation under it is one.
- The stack's element type is `int`, as the programs of the repository instantiate it.
- The counted producer and consumer loops of `ipc/shm_atomics.cpp` and `lock_free/spsc_stack.cpp`: they add only calls of the modelled operations.
- Overflow of the latch's and the spinlock's `int` counters.
- Spinlock: failed exchanges are not bounded, as a thread may spin for ever under an unfair scheduler.
- Shared memory set-up, pipes, FIFOs, signals, message queues, `fork` and `exec`: operating-system calls.
- `CVLock`, `ThreadPool`, the channel stubs, and the deadlock, livelock and data-race demonstrations: deliberately broken or with nothing to model.
- The `stdexec`, future and async examples: thin use of a library.
