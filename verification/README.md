# RoboSpike: verified protocols

RoboSpike is a fork of the ROS 2 client library with a C++20 coroutine runtime. This project models its
stateful protocols in Dafny and proves what they keep over all runs. Check it with
`dafny verify dfyconfig.toml`.

Each component comes as a specification on values (`...Spec`), its runs and their invariants (`...Run`), the
results (`...Results` and others), and, where the C++ updates objects in place, classes whose methods are
proved against the specification (the module of the component's own name).

- **Intra-process messages.** `RingSpec`, `RingWindow` and `MappedRingBuffer` are the ring; `IntraProcessSpec` and
  `IntraProcessManager` the manager and its books. `Delivery` is the simple reference: a list of messages with their
  remaining takers for each publisher. `IntraProcessRun` lets clients create, share, write and hand over messages by
  pointer, with a ledger of how each object can be reached; `IntraProcessRefinement` proves that every such run
  refines the reference, and that unique pointers are unique; `IntraProcessCopies` counts the copies from a store to
  the last take.
- **Channel.** `ChannelSpec`, `ChannelRun`, `ChannelInvariant`, `ChannelFifo`, `Channel`. A step is one locked section; the
  compare-and-exchange of `close` is a step of its own. A resumption is handed to an executor, not called.
- **Coroutine bookkeeping.** `CoroutineTables`, `CoroutineRun`, `CoroutineResults` are the three tables by which
  a thread decides whether it may block. `promise_executor_init` is cut into four parts and `return_value` into three, at
  their locks and their unlocked accesses; a subscription can be chosen and listed with nothing taken for it.
  `CoroutineListing` says when the list of suspended subscriptions is complete and `CoroutineTaken` has the runs in which
  it is not; `CoroutineVain` says when it holds too much. `CoroutineIdle` is about several idle threads, and
  `CoroutineHold` about the mutex that they hold meanwhile.
  `SpinSpec` and `SpinRun` are the spin loop, `Executor` the classes. `NodeListsSpec`, `NodeLists` and
  `NodeListsRun` are the executors' lists of nodes.
- **Task completion.** `TaskCompletionSpec`, `TaskCompletion`, `TaskCompletionOrder`, `Completion`.
- **Graph listener.** `GraphListenerSpec` gives the run loop and its callers program counters over two mutexes, a
  latched guard condition, the shutdown flag and the join, and has_node's scan an index; `GraphListenerRun` and
  `GraphListenerResults` are the proofs, and `GraphListenerWaits` bounds the waits of a run. `GraphListenerScan` is a
  scan of a list that shrinks under it, `GraphListenerSerial` what one thread would answer, `GraphListenerAnswers` when
  the listener answers so, and `GraphListenerWrong` a run in which it does not. `GraphListener` has the list operations
  and the two loops of a round.
- **Scheduler.** `HeapSpec`, `SchedulerSpec`, `SchedulerRun`, `SchedulerResults`, `Scheduler`. A push and its
  notification are separate steps.
- **Generator.** `GeneratorSpec`, `GeneratorResults`, `Generator`: coroutine states against list functions.
  `GeneratorTypes` carries the results over to functions that change the type of the values.
- **Await-time tuner and rate.** `GpuTuner`, `Rate`.

Where the code does not do what one would expect, the model follows the code and the result says exactly when:

- `return_value` writes `has_ready_coroutine_vec_[-1]` if it sets `has_returned` before `promise_executor_init` looks at
  it under the promise's lock and reaches its own locked part after (`AstrayExactly`, `EveryOrderCleansUp`).
- A subscription is listed as suspended when it is chosen (executor.cpp:670-680), before anything is taken. If nothing is
  then taken for a coroutine it stays listed, passed over until an earlier coroutine of it erases it, or for good
  (`BelongUnlessInVain`, `BelongUnlessAnyInVain`, `PassedOverForGood`, `ChosenInVainForGood`). That is so if the take
  within the process gives nothing, because the message was displaced, was taken already or its publisher has gone
  (subscription.hpp:186-201 and 206-221); if it is the copy between processes of a message from within, which is ignored
  (subscription.hpp:143-147), or one from no publisher of the context (173-184); and if the executor is cancelled between
  the choice and the execution (`ListedIsExecuted`, `ListedButNotRun`).
- The scheduler calls a task twice and loses another if a wait ends by timeout between an overtaking push and its
  notification (`ExactUnlessTooLate`, `LateNotificationCallsTwice`), and misses a shutdown if its wait begins too late
  (`ShutdownIsMissedByTheLate`, `ShutdownCanBeMissed`).
- After shutdown, `remove_node` of the graph listener changes the list without the nodes mutex (`ListChangesOutsideTheLoop`,
  `RemovalCanOverlapHasNode`), and `has_node` misses a listed node if and only if a removal overtakes its scan
  (`AnswersAsOneThread`, `HasNodeCanMissANode`). In C++ such an overlap is a data race, which may do worse.
- Of `return_value` and the end of `promise_executor_init`, the one that comes second erases the subscription a second
  time, and with it the entry of a coroutine dispatched since (`ListedUnlessTaken`, `SuspendedCanBeUnlisted`,
  `LateInitUnlists`).
- A thread blocks beside its own suspended coroutine if an older entry of another thread is still queued, even when
  that one's coroutine has returned (`BlocksBesideItsOwn`, `OwnCoroutineDoesNotKeepAwake`).
- A thread that polls or blocks holds `co_vec_mutex_` all the while, so that a coroutine that returns on another thread
  may have to wait for it (`HeldUpExactly`, `HeldUpUntilIdleEnds`, `HeldUpByAThreadThatBlocks`).
- `remove_node` of an executor that does not have the node lowers the node's flag, so that the node can come into two
  executors (`ImproperRemovalSharesTheNode`).
- A store by a publisher that has gone out of scope throws only after the message was pushed into the ring (`JoinStore`).
- Callbacks can run out of the order of registration (`InOrderUnlessOvertaken`): in a task with a value one of the list
  can be overtaken (`UnlockedCanOvertake`), and in any those registered after the completion can swap (`LockedCanSwap`).

The documentation of `pop` by shared pointer says that the out-parameter is reset when the key is not found
(mapped_ring_buffer.hpp:204-214); the code leaves it as it was, and so does `MappedRingBuffer.PopShared`.

Assumptions: a `rcl` call succeeds, except triggering a finalised interrupt; clocks do not go backwards unless said
otherwise; a condition variable wakes nobody without a notification or a timeout.

## Model

| member | source | states |
|---|---|---|
| `IntraProcessRefinement.TakesDeliverExactly` | src/rclcpp_spk/include/rclcpp/intra_process_manager_impl.hpp:108-240 | After any run of registering, unregistering, storing, taking and client writes, a take reads a value if and only if the publisher is still registered and some event of the run earned it: the subscription was on the topic when that value was stored as that message, has neither gone nor taken it since, and fewer than the ring's size of messages followed |
| `IntraProcessRefinement.TakesRefine` | src/rclcpp_spk/include/rclcpp/intra_process_manager.hpp:331-396 | After any run no take fails, and what it reads is what the simple map from (publisher, number) to (value, remaining takers) delivers |
| `IntraProcessRefinement.RunRefines` | src/rclcpp_spk/include/rclcpp/intra_process_manager.hpp:238-396 | Every run of rings, scans, target sets and pointer upgrades stays in the refinement relation with the run of the simple map that it stands for |
| `IntraProcessRefinement.EventSimulates` | src/rclcpp_spk/include/rclcpp/intra_process_manager.hpp:238-396 | Each single operation, from any related pair of states, leads to a related pair |
| `IntraProcessRefinement.UniqueMeansUnique` | src/rclcpp_spk/include/rclcpp/mapped_ring_buffer.hpp:105-276 | After any run, an object a client holds by unique pointer is in no slot and under no shared pointer, one a slot holds uniquely is nowhere else, a slot in use holds exactly one pointer and a free slot none |
| `IntraProcessRefinement.ClientsAreSilent` | src/rclcpp_spk/include/rclcpp/mapped_ring_buffer.hpp:105-161 | A client that writes through its unique pointer, or makes or shares messages, changes nothing that is still to be delivered |
| `IntraProcessCopies.StoreCostsOneCopyFewer` | src/rclcpp_spk/include/rclcpp/intra_process_manager.hpp:238-361 | From a store by unique pointer, whatever follows up to the last take: as long as the message is taken by unique pointer only, no target and not the publisher is withdrawn, and fewer than the ring's size of messages of the publisher follow, k targets cost exactly k - 1 copies, one for each take but the last, and the last hands over the object that was stored |
| `IntraProcessCopies.AlwaysSettled` | src/rclcpp_spk/include/rclcpp/intra_process_manager.hpp:331-361 | The same at every moment in between: the targets left and the takes add up to the targets, every take so far has made one copy, and the original is still in its slot while somebody waits for it |
| `IntraProcessCopies.OthersLeave` | src/rclcpp_spk/include/rclcpp/intra_process_manager_impl.hpp:101-240 | Every event that is neither a take of the message nor one of those excluded leaves it in its slot, by unique pointer, for the same subscriptions |
| `Delivery.DeliversExactly` | src/rclcpp_spk/include/rclcpp/intra_process_manager_impl.hpp:165-240 | The reference: over its own runs, what the map delivers is exactly what some publication earned for that subscription |
| `Delivery.MessageHistory` | src/rclcpp_spk/include/rclcpp/intra_process_manager_impl.hpp:165-240 | What a message's entry says about the past: its value, how many publications followed, and that a subscription still waits exactly if it was addressed and neither left nor took it |
| `RingWindow.RingKeepsLastPushes` | src/rclcpp_spk/include/rclcpp/mapped_ring_buffer.hpp:179-308 | After any mix of gets, pops and pushes with distinct keys: head_ is the number of pushes modulo the size; the first-match scan finds exactly the keys among the last `size` pushes that were not popped; a push reports a replacement exactly if it drops such a key |
| `RingWindow.FailsExactlyOnNull` | src/rclcpp_spk/include/rclcpp/mapped_ring_buffer.hpp:105-276 | After any run, pushes of null pointers included, a get or a pop of a key throws if and only if that key is among the last `size` pushed and was pushed with a null pointer: such a slot is never freed by a pop, only displaced |
| `RingWindow.HeadCountsPushes` | src/rclcpp_spk/include/rclcpp/mapped_ring_buffer.hpp:243-276 | head_ is the push count modulo the size, whatever the keys |
| `MappedRingBuffer.MappedRingBuffer.Make` | src/rclcpp_spk/include/rclcpp/mapped_ring_buffer.hpp:78-89 | A size of 0 is refused; otherwise an empty ring of that size |
| `MappedRingBuffer.MappedRingBuffer.GetIteratorOfKey` | src/rclcpp_spk/include/rclcpp/mapped_ring_buffer.hpp:299-308 | The first slot that is in use under the key, or the end |
| `MappedRingBuffer.MappedRingBuffer.HasKey` | src/rclcpp_spk/include/rclcpp/mapped_ring_buffer.hpp:279-284 | Whether the scan finds the key |
| `MappedRingBuffer.MappedRingBuffer.GetUnique` | src/rclcpp_spk/include/rclcpp/mapped_ring_buffer.hpp:105-130 | The linear scan and the copies made equal the get of the specification; the slot is kept, a unique value is handed out as a copy |
| `MappedRingBuffer.MappedRingBuffer.GetShared` | src/rclcpp_spk/include/rclcpp/mapped_ring_buffer.hpp:143-161 | A unique value is turned into the shared one in its slot and handed out |
| `MappedRingBuffer.MappedRingBuffer.PopUnique` | src/rclcpp_spk/include/rclcpp/mapped_ring_buffer.hpp:178-202 | The slot is freed; a unique value is moved out, a shared one copied |
| `MappedRingBuffer.MappedRingBuffer.PopShared` | src/rclcpp_spk/include/rclcpp/mapped_ring_buffer.hpp:215-230 | The slot is freed and its pointer handed out; the out-parameter keeps its old value when the key is not found |
| `MappedRingBuffer.MappedRingBuffer.PushAndReplaceUnique` | src/rclcpp_spk/include/rclcpp/mapped_ring_buffer.hpp:263-276 | The slot at head_ is overwritten, head_ moves on, and the result says whether the slot was in use |
| `MappedRingBuffer.MappedRingBuffer.PushAndReplaceShared` | src/rclcpp_spk/include/rclcpp/mapped_ring_buffer.hpp:244-257 | The same for a shared pointer |
| `IntraProcessManager.IntraProcessManagerImpl.AddSubscription` | src/rclcpp_spk/include/rclcpp/intra_process_manager_impl.hpp:101-106 | The books after registering, for the maps updated in place |
| `IntraProcessManager.IntraProcessManagerImpl.RemoveSubscription` | src/rclcpp_spk/include/rclcpp/intra_process_manager_impl.hpp:108-122 | The loops over the topics, and over the publishers' frozen target sets, remove this identifier from all of them and nothing else |
| `IntraProcessManager.IntraProcessManagerImpl.AddPublisher` | src/rclcpp_spk/include/rclcpp/intra_process_manager_impl.hpp:124-139 | A new entry with number 0 |
| `IntraProcessManager.IntraProcessManagerImpl.RemovePublisher` | src/rclcpp_spk/include/rclcpp/intra_process_manager_impl.hpp:141-145 | The entry is gone |
| `IntraProcessManager.IntraProcessManagerImpl.GetPublisherInfoForId` | src/rclcpp_spk/include/rclcpp/intra_process_manager_impl.hpp:147-163 | The current number and the ring, and the number is raised; an unknown publisher is an error |
| `IntraProcessManager.IntraProcessManagerImpl.StoreIntraProcessMessage` | src/rclcpp_spk/include/rclcpp/intra_process_manager_impl.hpp:165-198 | The target set frozen for the message is that of the topic now; an unknown publisher or one that has gone is an error |
| `IntraProcessManager.IntraProcessManagerImpl.TakeIntraProcessMessage` | src/rclcpp_spk/include/rclcpp/intra_process_manager_impl.hpp:200-240 | The subscription is crossed off once, and how many takers remain is what decides between get and pop; anything not awaited changes nothing |
| `IntraProcessManager.IntraProcessManager.AddPublisher` | src/rclcpp_spk/src/rclcpp/intra_process_manager.cpp:32-45 | A buffer size of 0 means the queue size, and 0 there is an error that has used up an identifier |
| `IntraProcessManager.IntraProcessManager.AddSubscription` | src/rclcpp_spk/src/rclcpp/intra_process_manager.cpp:47-54 | A new identifier, registered |
| `IntraProcessManager.IntraProcessManager.RemoveSubscription` | src/rclcpp_spk/src/rclcpp/intra_process_manager.cpp:56-60 | Unregistered everywhere |
| `IntraProcessManager.IntraProcessManager.RemovePublisher` | src/rclcpp_spk/src/rclcpp/intra_process_manager.cpp:62-66 | The entry is gone |
| `IntraProcessManager.IntraProcessManager.GetNextUniqueId` | src/rclcpp_spk/src/rclcpp/intra_process_manager.cpp:80-99 | Counts on, so that no identifier is given twice |
| `IntraProcessManager.IntraProcessManager.StoreUnique` | src/rclcpp_spk/include/rclcpp/intra_process_manager.hpp:238-261 | The pushed ring, the raised number and the frozen targets; when the publisher has gone the message is pushed all the same and the error comes after |
| `IntraProcessManager.IntraProcessManager.StoreShared` | src/rclcpp_spk/include/rclcpp/intra_process_manager.hpp:267-290 | The same for a shared pointer |
| `IntraProcessManager.IntraProcessManager.TakeUnique` | src/rclcpp_spk/include/rclcpp/intra_process_manager.hpp:331-361 | Not awaited: nothing changes. Awaited: crossed off, then a pop for the last taker and a get for any other |
| `IntraProcessManager.IntraProcessManager.TakeShared` | src/rclcpp_spk/include/rclcpp/intra_process_manager.hpp:366-396 | The same for a shared pointer |
| `IntraProcessManager.JoinStore` | src/rclcpp_spk/include/rclcpp/intra_process_manager.hpp:238-290 | The books and the one ring that a store method changes make up the store of the specification |
| `IntraProcessManager.JoinTakeUnique` | src/rclcpp_spk/include/rclcpp/intra_process_manager.hpp:331-361 | Likewise for a take by unique pointer |
| `IntraProcessManager.JoinTakeShared` | src/rclcpp_spk/include/rclcpp/intra_process_manager.hpp:366-396 | Likewise for a take by shared pointer |
| `ChannelFifo.OneQueue` | src/rclcpp_spk/include/cospike/channel.hpp:29-98 | In every interleaving, the values of the writers accepted and not cancelled are, in order, those handed to readers, then the buffer, then those of the suspended writers, then those dropped by the clean-up |
| `ChannelFifo.KthReadGetsKthWrite` | src/rclcpp_spk/include/cospike/channel.hpp:29-86 | The k-th reader served is the k-th that asked and was not cancelled, and gets the value of the k-th writer accepted and not cancelled |
| `ChannelFifo.WaitersAndBuffer` | src/rclcpp_spk/include/cospike/channel.hpp:29-86 | The buffer never exceeds the capacity; writers wait only on a full buffer; readers wait only if nothing is buffered and no writer waits |
| `ChannelFifo.WritersAccountedFor` | src/rclcpp_spk/include/cospike/channel.hpp:62-92 | A writer that was accepted and not cancelled is in exactly one of suspended and resumed, once; none is suspended after the clean-up |
| `ChannelFifo.ReadersAccountedFor` | src/rclcpp_spk/include/cospike/channel.hpp:29-98 | Likewise for readers, resumed with a value or, by the clean-up, without one |
| `ChannelFifo.AbandonedSeeClosed` | src/rclcpp_spk/include/cospike/awaiter.hpp:258-267 | A reader resumed without a value always finds the channel closed, so its empty result is never read |
| `ChannelFifo.ClosedForever` | src/rclcpp_spk/include/cospike/channel.hpp:120-125 | After the clean-up the buffer and both lists stay empty and nobody is resumed, whatever follows |
| `Channel.Channel.TryPushReader` | src/rclcpp_spk/include/cospike/channel.hpp:29-60 | What one locked section does with a reader: served from the buffer, which a suspended writer refills; served by a suspended writer; or suspended; a closed channel throws |
| `Channel.Channel.TryPushWriter` | src/rclcpp_spk/include/cospike/channel.hpp:62-86 | Likewise for a writer |
| `Channel.Channel.RemoveWriter` | src/rclcpp_spk/include/cospike/channel.hpp:88-92 | The loop erases every occurrence of the writer: what is left are the elements at all the other places, in their order (`Purged`) |
| `Channel.Channel.RemoveReader` | src/rclcpp_spk/include/cospike/channel.hpp:94-98 | The same for a reader |
| `ChannelSpec.WithoutWriterIsPurged` | src/rclcpp_spk/include/cospike/channel.hpp:88-92 | The same of the list function that the runs use: exactly the places of the other writers are kept, in increasing order |
| `ChannelSpec.WithoutReaderIsPurged` | src/rclcpp_spk/include/cospike/channel.hpp:94-98 | The same for readers |
| `Channel.Channel.Write` | src/rclcpp_spk/include/cospike/channel.hpp:100-103 | A closed channel throws before there is an awaiter; otherwise one that is linked to the channel |
| `Channel.Channel.Read` | src/rclcpp_spk/include/cospike/channel.hpp:109-112 | Likewise, with no result yet and no place to write it to |
| `Channel.Channel.ReadInto` | src/rclcpp_spk/include/cospike/channel.hpp:114-118 | Likewise, with the place given |
| `Channel.Channel.CompareExchange` | src/rclcpp_spk/include/cospike/channel.hpp:121-122 | The unlocked step of close: one caller wins |
| `Channel.Channel.CleanUp` | src/rclcpp_spk/include/cospike/channel.hpp:151-163 | Two loops resume every writer and every reader, in order, and all three containers are empty after |
| `Channel.Channel.Close` | src/rclcpp_spk/include/cospike/channel.hpp:120-125 | Both steps by one thread; a second close does nothing |
| `Channel.WriterAwaiter.AfterSuspend` | src/rclcpp_spk/include/cospike/awaiter.hpp:237-239 | A suspended writer is pushed with its value |
| `Channel.WriterAwaiter.AwaitResume` | src/rclcpp_spk/include/cospike/awaiter.hpp:240-243 | A closed channel throws and the link is kept; otherwise the link is cut |
| `Channel.WriterAwaiter.Destroy` | src/rclcpp_spk/include/cospike/awaiter.hpp:244-246 | A writer that still has its channel takes itself off the list |
| `Channel.ReaderAwaiter.AfterSuspend` | src/rclcpp_spk/include/cospike/awaiter.hpp:258-260 | A suspended reader is pushed |
| `Channel.ReaderAwaiter.Dispatched` | src/rclcpp_spk/include/cospike/awaiter.hpp:32-40 | A resumption with a value stores it; one without leaves the result as it was |
| `Channel.ReaderAwaiter.AwaitResume` | src/rclcpp_spk/include/cospike/awaiter.hpp:261-267 | On an active channel the value is returned, written to the place of operator>> if there is one, and the link is cut; on a closed one the exception, with the place and the link as they were |
| `Channel.ReaderAwaiter.Destroy` | src/rclcpp_spk/include/cospike/awaiter.hpp:268-270 | A reader that still has its channel takes itself off the list |
| `CoroutineResults.RegistryIsExact` | src/rclcpp_spk/include/rclcpp/executor.hpp:528-553 | In every interleaving of the parts of init and return of any number of coroutines: the queued ids are the last indices of the flags, those before are down, a flag is up exactly for a registered coroutine that has not returned, the front lookup is in bounds, and no subscription is listed twice |
| `CoroutineResults.SuspendedIsQueued` | src/rclcpp_spk/src/rclcpp/executor.cpp:715-728 | A suspended coroutine keeps its entry, with its thread, at the place its id says, once |
| `CoroutineResults.FrontOwnerNeverBlocks` | src/rclcpp_spk/src/rclcpp/executor.cpp:715-736 | The thread that owns the front entry never reaches the blocking wait, and an empty queue means that nothing is suspended |
| `CoroutineResults.OneThreadNeverBlocksOnSuspended` | src/rclcpp_spk/src/rclcpp/executor.cpp:703-736 | With one spinning thread the executor never blocks while any coroutine is suspended |
| `CoroutineResults.IdleCallsDrain` | src/rclcpp_spk/src/rclcpp/executor.cpp:715-728 | Once all have returned, exactly as many idle calls of one thread as there are entries pass, each retiring one, before the thread may block |
| `CoroutineIdle.IdleCallsRetire` | src/rclcpp_spk/src/rclcpp/executor.cpp:715-728 | Whichever threads idle in whichever order, with whatever flags up: the entries retired are the longest prefix of the queue whose flags are down and whose threads call in that order |
| `CoroutineIdle.IdleTellsOldest` | src/rclcpp_spk/src/rclcpp/executor.cpp:715-736 | In any run, an idle thread polls, retires or blocks according to the coroutine of the oldest entry alone: its own thread waits while it is suspended and retires its entry after, any other thread may block |
| `CoroutineIdle.BlocksBesideItsOwn` | src/rclcpp_spk/src/rclcpp/executor.cpp:715-736 | In any run, a thread may block beside a suspended coroutine of its own if and only if the oldest entry is another thread's, registered before |
| `CoroutineIdle.OwnCoroutineDoesNotKeepAwake` | src/rclcpp_spk/src/rclcpp/executor.cpp:715-736 | A run in which a thread blocks beside its own coroutine, the only one suspended |
| `CoroutineResults.EveryOrderCleansUp` | src/rclcpp_spk/include/rclcpp/executor.hpp:475-554 | In every order of the four parts of init and the three of return that the lock of the promise allows, the subscription ends absent, the others keep their order, and no flag of the coroutine stays up, one having been registered if and only if init looked before has_returned was set; the write of the flag misses its place if and only if init saw has_returned set before return took the lock |
| `CoroutineResults.AstrayExactly` | src/rclcpp_spk/include/rclcpp/executor.hpp:475-499 | In any run, return_value of a coroutine writes a flag that is not there if and only if it set has_returned before init looked at it under the promise's lock, and came to the flag after |
| `CoroutineTables.EraseIsWithout` | src/rclcpp_spk/include/rclcpp/executor.hpp:486-491 | The erase loop, with a circular sentinel at the list's end, ends and removes the one occurrence, last place included, keeping the order of the rest |
| `CoroutineRun.RunKeeps` | src/rclcpp_spk/include/rclcpp/executor.hpp:475-553 | The invariant behind these, for every run |
| `SpinRun.PushedIsExecutedThenQueued` | src/rclcpp_spk/src/rclcpp/executor.cpp:291-298 | While the thread spins, everything given to re_execute is what was run, in order, followed by what is queued, in order |
| `SpinRun.EverythingPushedIsRun` | src/rclcpp_spk/src/rclcpp/executor.cpp:611-624 | In every run, and after cancel too: pushed is run, then dropped, then queued, in order; at most one resumption is ever dropped, and none while spinning |
| `SpinRun.ResumptionsComeFirst` | src/rclcpp_spk/src/rclcpp/executor.cpp:290-316 | At any event of any run: a resumption that is run is the oldest not yet run; when anything else is executed, everything pushed up to the last look at the queue has been run; a thread starts to idle only if everything pushed up to its first look has been; and no subscription that is listed as suspended is executed |
| `SpinRun.ListedIsExecuted` | src/rclcpp_spk/src/rclcpp/executor.cpp:665-682 | In any run of the spin loop, the subscriptions with coroutines that it executed are those that it put on the list, in order; only the last one listed may be left out, and that only after cancel |
| `SpinRun.ListedButNotRun` | src/rclcpp_spk/src/rclcpp/executor.cpp:290-294 | Cancelled between the choice and the execution: a run that ends with a subscription listed that was not executed |
| `SpinSpec.NextSubscription` | src/rclcpp_spk/include/rclcpp/strategies/allocator_memory_strategy.hpp:266-288 | The subscription taken is offered and not listed as suspended, and none is taken only if all that are offered are listed; `CoroutineListing` says when a suspended coroutine's is listed |
| `SpinSpec.Choose` | src/rclcpp_spk/src/rclcpp/executor.cpp:653-700 | A queued resumption comes before anything, a ready timer before any subscription |
| `Executor.Executor.ReExecute` | src/rclcpp_spk/include/rclcpp/executor.hpp:606-608 | The resumption goes to the end of the queue |
| `Executor.Executor.EraseSuspended` | src/rclcpp_spk/include/rclcpp/executor.hpp:486-491 | The loop over the list equals the erase of the specification, and ends |
| `Executor.Executor.GetRestCoroutine` | src/rclcpp_spk/src/rclcpp/executor.cpp:610-624 | The oldest resumption, and the queue without it |
| `Executor.Executor.GetNextSubscription` | src/rclcpp_spk/include/rclcpp/strategies/allocator_memory_strategy.hpp:272-288 | The loop over the handles finds the specification's |
| `Executor.Executor.GetNextReadyExecutable` | src/rclcpp_spk/src/rclcpp/executor.cpp:652-700 | What is chosen, and the queue and the list of suspended subscriptions afterwards |
| `Executor.Executor.GetNextExecutable` | src/rclcpp_spk/src/rclcpp/executor.cpp:702-736 | The whole round: what is chosen at once, or which kind of idling, and what after it |
| `Executor.Executor.ExecuteAnyExecutable` | src/rclcpp_spk/src/rclcpp/executor.cpp:290-316 | Runs what was chosen unless the executor was cancelled |
| `Executor.TaskPromise.InitLocked` | src/rclcpp_spk/include/rclcpp/executor.hpp:530-539 | The part of init under the lock |
| `Executor.TaskPromise.InitStore` | src/rclcpp_spk/include/rclcpp/executor.hpp:540 | The subscription is stored |
| `Executor.TaskPromise.InitErase` | src/rclcpp_spk/include/rclcpp/executor.hpp:542-554 | It is erased if has_returned is set |
| `Executor.TaskPromise.PromiseExecutorInit` | src/rclcpp_spk/include/rclcpp/executor.hpp:528-557 | All three parts in sequence, and nothing else of the executor |
| `Executor.TaskPromise.SetReturned` | src/rclcpp_spk/include/rclcpp/executor.hpp:475-480 | The part of return before the executor's lock |
| `Executor.TaskPromise.ReturnErase` | src/rclcpp_spk/include/rclcpp/executor.hpp:483-492 | Under the promise's lock and the list's: the subscription is erased if it is stored |
| `Executor.TaskPromise.ReturnFlag` | src/rclcpp_spk/include/rclcpp/executor.hpp:494-498 | Under the promise's lock and that of the flags: the flag is lowered; `astray` if and only if the promise is linked and its index is not one of a flag |
| `Executor.TaskPromise.ReturnLocked` | src/rclcpp_spk/include/rclcpp/executor.hpp:482-499 | Both under the promise's lock |
| `Executor.TaskPromise.ReturnValue` | src/rclcpp_spk/include/rclcpp/executor.hpp:475-502 | All three parts in sequence |
| `CoroutineListing.ListedUnlessTaken` | src/rclcpp_spk/include/rclcpp/executor.hpp:475-554 | At every moment of a run the list holds the subscription of every coroutine that has not erased it itself, if and only if no coroutine takes the entry of another, dispatched since the first erased its own, by erasing a second time: in return_value after the end of promise_executor_init has, or the other way round |
| `CoroutineVain.ListedBelongs` | src/rclcpp_spk/src/rclcpp/executor.cpp:665-682 | In any run, whoever takes whose entry and whatever is chosen in vain, with nothing taken after: a subscription that is listed is that of a coroutine that has not erased it, or was chosen in vain and not erased since; one of the latter kind is listed; and a coroutine has erased its own once both its init and its return have had their turn at the list |
| `CoroutineVain.ListIsExactly` | src/rclcpp_spk/src/rclcpp/executor.cpp:665-682 | As long as nobody takes another's entry the list holds exactly these two kinds, and no subscription is of both |
| `CoroutineVain.BelongUnlessInVain` | src/rclcpp_spk/src/rclcpp/executor.cpp:665-682 | In any run: every entry is that of a coroutine that has not erased it, at every moment, if and only if no subscription that belongs to no such coroutine is chosen in vain |
| `CoroutineVain.BelongUnlessAnyInVain` | src/rclcpp_spk/src/rclcpp/executor.cpp:290-294 | As long as nobody takes another's entry, that is if and only if no choice is in vain at all |
| `CoroutineVain.PassedOverUntilErased` | src/rclcpp_spk/include/rclcpp/strategies/allocator_memory_strategy.hpp:272-288 | From any moment at which a subscription is listed until somebody erases it, whatever else happens: it stays listed, is neither dispatched nor chosen in vain, and gets no coroutine, so that only one dispatched before can erase it |
| `CoroutineVain.PassedOverForGood` | src/rclcpp_spk/include/rclcpp/strategies/allocator_memory_strategy.hpp:272-288 | A listed subscription stays listed whatever comes, and so is passed over for good, if and only if both init and return of each of its coroutines dispatched so far have had their turn at the list |
| `CoroutineVain.ChosenInVainForGood` | src/rclcpp_spk/include/rclcpp/subscription.hpp:186-221 | A run in which a subscription without any coroutine is chosen, nothing is taken, and it is never dispatched again |
| `CoroutineListing.UnreturnedIsPassedOver` | src/rclcpp_spk/include/rclcpp/strategies/allocator_memory_strategy.hpp:272-288 | Then the subscription of a coroutine that has not returned is listed, and no second coroutine is dispatched for it |
| `CoroutineTaken.SuspendedCanBeUnlisted` | src/rclcpp_spk/include/rclcpp/executor.hpp:483-492 | A run in which return_value comes second and takes another one's entry: a suspended coroutine's subscription is not listed and can be dispatched again |
| `CoroutineTaken.LateInitUnlists` | src/rclcpp_spk/include/rclcpp/executor.hpp:540-554 | A run in which the end of promise_executor_init comes second and does the same, although no return_value came second |
| `CoroutineTaken.ThirdIsUnlistedToo` | src/rclcpp_spk/include/rclcpp/executor.hpp:486-491 | One taken entry brings another: the coroutine that has lost its own takes that of one dispatched since, by its only erasure |
| `CoroutineHold.HeldUpExactly` | src/rclcpp_spk/src/rclcpp/executor.cpp:714-736 | In any run, of a thread that is in return_value of a coroutine: while some other thread polls or blocks, return_value cannot go on if it has come to the flag, or if init has seen has_returned unset and has yet to register, in which case init cannot go on either; in every other case it can go on, at once or after one step of init |
| `CoroutineHold.HeldUpUntilIdleEnds` | src/rclcpp_spk/include/rclcpp/executor.hpp:482-499 | From such a moment, whatever the other threads do, the coroutine stays held up and unfinished until the idle call ends |
| `CoroutineHold.IdleDecisionStays` | src/rclcpp_spk/src/rclcpp/executor.cpp:714-736 | From the beginning of an idle call to its end, whatever the other threads do, no flag and no queued id changes |
| `CoroutineHold.OneThreadIsNeverHeldUp` | src/rclcpp_spk/src/rclcpp/executor.cpp:714-736 | If one thread does everything, a coroutine that returns is never held up |
| `CoroutineHold.HeldUpByAThreadThatBlocks` | src/rclcpp_spk/src/rclcpp/executor.cpp:729-736 | A run in which one thread blocks and a coroutine that returns on another cannot lower its flag |
| `CoroutineHold.MovesAreEvents` | src/rclcpp_spk/src/rclcpp/executor.cpp:714-736 | The runs with this mutex are runs, so that every result about all runs holds of them |
| `TaskCompletion.EachCallbackRunsOnce` | src/rclcpp_spk/include/rclcpp/executor.hpp:475-525 | For every interleaving of any number of on_completed calls with one completion: no callback ever runs twice, each call is with the one result, and once the completing thread is done each callback whose on_completed is over has run exactly once |
| `TaskCompletion.WalkIsUndisturbed` | src/rclcpp_spk/include/rclcpp/executor.hpp:583-592 | Although the list is walked without the lock, no other step changes it, its position or the result meanwhile |
| `TaskCompletion.GettersGetTheResult` | src/rclcpp_spk/include/rclcpp/executor.hpp:505-513 | Nobody sleeps in get_result once there is a result, and everybody gets that one |
| `TaskCompletion.LockedKeepsOrder` | src/rclcpp_spk/include/cospike/task_void.hpp:58-84 | Notifying under the lock: until the list is done, the calls made are a prefix of it, in the order of registration |
| `TaskCompletionOrder.InOrderUnlessOvertaken` | src/rclcpp_spk/include/rclcpp/executor.hpp:475-525 | For any run, notifying under the lock or not: callbacks run in the order of registration if and only if no on_completed calls its callback itself while the list has calls left, or before another one that registered earlier and has yet to call |
| `TaskCompletionOrder.LockedListIsNotOvertaken` | src/rclcpp_spk/include/cospike/task_void.hpp:58-84 | Notifying under the lock: no on_completed can call its callback during the walk |
| `TaskCompletionOrder.UnlockedCanOvertake` | src/rclcpp_spk/include/rclcpp/executor.hpp:516-525 | Without the lock: a run in which a callback registered later runs before one of the list |
| `TaskCompletionOrder.LockedCanSwap` | src/rclcpp_spk/include/cospike/task_void.hpp:58-84 | With it: a run in which two callbacks registered after the completion swap |
| `Completion.Promise.OnCompleted` | src/rclcpp_spk/include/rclcpp/executor.hpp:516-525 | Calls at once if there is a result, otherwise appends |
| `Completion.Promise.NotifyCallbacks` | src/rclcpp_spk/include/rclcpp/executor.hpp:583-592 | The loop calls the whole list in order with the result and clears it |
| `Completion.Promise.Return` | src/rclcpp_spk/include/cospike/task_void.hpp:58-63 | Sets the result and notifies |
| `GraphListenerResults.WaitingCallerFindsLatch` | src/rclcpp_spk/src/rclcpp/graph_listener.cpp:229-243 | Whenever a caller holds the barrier and waits for the nodes mutex while the loop is before or inside rcl_wait, the interrupt is latched, and the loop is not about to take the mutex again |
| `GraphListenerResults.HandOffHappens` | src/rclcpp_spk/src/rclcpp/graph_listener.cpp:129-143 | In that situation the mutex's owner can move, each of its moves brings the release closer by a bounded rank, and no other step puts it off |
| `GraphListenerWaits.HandOffIsBounded` | src/rclcpp_spk/src/rclcpp/graph_listener.cpp:229-243 | In any run, from the moment a caller wants the nodes mutex until it takes it, whatever everybody else does in whatever order, the mutex's owners move no more often than the rank says, can always move, and leave it free to the caller when the rank is used up |
| `GraphListenerResults.NoDeadlock` | src/rclcpp_spk/src/rclcpp/graph_listener.cpp:258-341 | In no reachable state is everybody stuck while a call of has_node, add_node, remove_node, start or shutdown is going on |
| `GraphListenerResults.WaitingGoesDown` | src/rclcpp_spk/src/rclcpp/graph_listener.cpp:229-243 | Waiting for a mutex or for the join always leads to someone lower in a fixed order, so the waits never form a cycle |
| `GraphListenerResults.MoverCanMove` | src/rclcpp_spk/src/rclcpp/graph_listener.cpp:229-298 | Whoever ends the chain of those that a caller waits for can move |
| `GraphListenerResults.JoinEnds` | src/rclcpp_spk/src/rclcpp/graph_listener.cpp:343-351 | While shutdown joins: the loop never sleeps without the interrupt latched, each of its steps brings its return closer, nobody else puts that off or changes the list, and the join ends exactly when the loop has returned |
| `GraphListenerWaits.JoinIsBounded` | src/rclcpp_spk/src/rclcpp/graph_listener.cpp:343-351 | In any run, from the moment shutdown joins until the join is over, whatever everybody else does, the loop moves no more often than the rank says, never sleeps without the interrupt latched, the list stays as it is, and the join is over exactly when the rank is used up |
| `GraphListenerWaits.EndOfChainCanMove` | src/rclcpp_spk/src/rclcpp/graph_listener.cpp:229-298 | In any run, whoever ends the chain of those that a call waits for can move |
| `GraphListenerWaits.NobodyWaitsInACircle` | src/rclcpp_spk/src/rclcpp/graph_listener.cpp:229-298 | In any run, whoever waits for a mutex or for the join waits for somebody lower in a fixed order |
| `GraphListenerResults.ShutdownIsForGood` | src/rclcpp_spk/src/rclcpp/graph_listener.cpp:346-371 | After shutdown there is no loop, and never one again |
| `GraphListenerAnswers.ListChangesOutsideTheLoop` | src/rclcpp_spk/src/rclcpp/graph_listener.cpp:275-341 | A step that changes the list is a caller's with shutdown_mutex_, while the loop is outside its nodes-locked section; it holds the nodes mutex if and only if the listener was not shut down |
| `GraphListenerWrong.RemovalCanOverlapHasNode` | src/rclcpp_spk/src/rclcpp/graph_listener.cpp:326-330 | The exception is real: after shutdown remove_node can change the list while has_node goes over it |
| `GraphListenerResults.TellsThoseItLookedAt` | src/rclcpp_spk/src/rclcpp/graph_listener.cpp:146-216 | The notify loop goes over exactly the nodes that the first loop of the round went over, and neither reads past the list's end |
| `GraphListenerAnswers.AnswersAsOneThread` | src/rclcpp_spk/src/rclcpp/graph_listener.cpp:246-372 | Every run's log, replayed on a listener of one thread, ends with this list and flag and allows every change; it allows every answer if and only if no scan of has_node ends without its node after a removal moved that node from the place about to be read to one already read |
| `GraphListenerAnswers.WrongAnswerHasNoPlace` | src/rclcpp_spk/src/rclcpp/graph_listener.cpp:246-256 | Such an answer fits nowhere: the node was listed at every moment since the scan began |
| `GraphListenerAnswers.UndisturbedAnswersAsOneThread` | src/rclcpp_spk/src/rclcpp/graph_listener.cpp:246-372 | A run in which no removal after shutdown lands during a scan answers as one thread |
| `GraphListenerWrong.HasNodeCanMissANode` | src/rclcpp_spk/src/rclcpp/graph_listener.cpp:320-341 | A run in which has_node answers that a node is not there although it was all along |
| `GraphListenerScan.EraseMisses` | src/rclcpp_spk/src/rclcpp/graph_listener.cpp:246-256 | Of a scan with its index over a list that loses an element: the node it looks for can no longer be found exactly if it could not be before, or the erasure moves it from the place about to be read, unless that is the list's last |
| `GraphListenerAnswers.ListedMeansLastAdded` | src/rclcpp_spk/src/rclcpp/graph_listener.cpp:275-318 | A node is listed, once, exactly if the last add or remove of it that succeeded was an add |
| `GraphListener.GraphListener.HasNode_` | src/rclcpp_spk/src/rclcpp/graph_listener.cpp:245-256 | The scan answers membership |
| `GraphListener.GraphListener.RemoveNode_` | src/rclcpp_spk/src/rclcpp/graph_listener.cpp:302-318 | The first occurrence goes, or the node was not found |
| `GraphListener.GraphListener.HasNode` | src/rclcpp_spk/src/rclcpp/graph_listener.cpp:258-273 | A null node is not there |
| `GraphListener.GraphListener.AddNode` | src/rclcpp_spk/src/rclcpp/graph_listener.cpp:275-301 | Null, shut down, already there, or appended |
| `GraphListener.GraphListener.RemoveNode` | src/rclcpp_spk/src/rclcpp/graph_listener.cpp:320-341 | Null, not found, or removed |
| `GraphListener.GraphListener.StartIfNotStarted` | src/rclcpp_spk/src/rclcpp/graph_listener.cpp:66-104 | Refused after shutdown; starts at most once |
| `GraphListener.GraphListener.Shutdown` | src/rclcpp_spk/src/rclcpp/graph_listener.cpp:343-351 | Only the first shutdown of a started listener joins |
| `GraphListener.GraphListener.FillWaitSet` | src/rclcpp_spk/src/rclcpp/graph_listener.cpp:165-188 | Every watched node's guard condition stands in the wait set at the index noted for it, and an index of 0 is the interrupt's |
| `GraphListener.GraphListener.Notify` | src/rclcpp_spk/src/rclcpp/graph_listener.cpp:200-216 | With those indices the loop tells exactly the watched nodes that were triggered, in order |
| `GraphListener.GraphListener.Round` | src/rclcpp_spk/src/rclcpp/graph_listener.cpp:145-216 | Both loops: the watched nodes triggered are told of a change, all nodes of a shutdown |
| `SchedulerRun.SilentPushKeepsTop` | src/rclcpp_spk/include/cospike/scheduler.hpp:92-103 | If execute does not notify, the top is the same entry as before; a strictly earlier entry is always notified and becomes the top; any other leaves it |
| `SchedulerResults.PromptRunsAreExact` | src/rclcpp_spk/include/cospike/scheduler.hpp:62-79 | With no notification due whenever a wait ends by timeout: each call is of the entry taken off the queue, a minimum of it, not before its time, and every accepted task is called, cleared or queued exactly once |
| `SchedulerResults.ExactUnlessTooLate` | src/rclcpp_spk/include/cospike/scheduler.hpp:69-77 | For all runs: every call is of the entry taken, a minimum, if and only if no wait ends by timeout after an overtaking push or a clear but before its notification |
| `SchedulerResults.NeverEarly` | src/rclcpp_spk/include/cospike/scheduler.hpp:69-77 | No task is called before its time, in any interleaving |
| `SchedulerResults.NothingIsLostFromTheQueue` | src/rclcpp_spk/include/cospike/scheduler.hpp:62-113 | In any interleaving what was taken off, what is queued and what was cleared is what was accepted |
| `SchedulerResults.NoLostWakeUp` | src/rclcpp_spk/include/cospike/scheduler.hpp:62-103 | A worker asleep beside a non-empty queue is about to be notified; one waiting for a task that is no longer first too |
| `SchedulerResults.LateNotificationCallsTwice` | src/rclcpp_spk/include/cospike/scheduler.hpp:96-101 | A run in which one task is called twice and another never |
| `SchedulerResults.ShutdownIsMissedByTheLate` | src/rclcpp_spk/include/cospike/scheduler.hpp:63-68 | For all runs: a worker that sleeps unnotified does so with the scheduler inactive and no notification due, not even that of a shutdown(false) still to clear, if and only if the wait going on began when the scheduler was already inactive and none was due, and shutdown was not called since |
| `SchedulerResults.TheLateSleepOn` | src/rclcpp_spk/include/cospike/scheduler.hpp:63-113 | Then no event but a further shutdown wakes it or makes a notification due |
| `SchedulerResults.ShutdownCanBeMissed` | src/rclcpp_spk/include/cospike/scheduler.hpp:63-68 | It happens: a run after which the worker sleeps although the scheduler is inactive and no notification is due |
| `HeapSpec.PushTop` | src/rclcpp_spk/include/cospike/scheduler.hpp:47-58 | With the strict comparison a new entry takes the top exactly if it is strictly earlier |
| `HeapSpec.PushKeepsHeap` | src/rclcpp_spk/include/cospike/scheduler.hpp:97 | Heap order and contents after a push |
| `HeapSpec.PopKeepsHeap` | src/rclcpp_spk/include/cospike/scheduler.hpp:75 | Heap order and contents after a pop |
| `HeapSpec.TopIsEarliest` | src/rclcpp_spk/include/cospike/scheduler.hpp:47-58 | The top is a minimum |
| `Scheduler.PriorityQueue.Push` | src/rclcpp_spk/include/cospike/scheduler.hpp:97 | The loop that sifts up equals the specification's |
| `Scheduler.PriorityQueue.Pop` | src/rclcpp_spk/include/cospike/scheduler.hpp:75 | The loop that sifts down equals the specification's |
| `Scheduler.Scheduler.Execute` | src/rclcpp_spk/include/cospike/scheduler.hpp:92-103 | The two readings of the clock, the decision to notify and the queue afterwards; nothing when inactive |
| `Scheduler.Scheduler.Shutdown` | src/rclcpp_spk/include/cospike/scheduler.hpp:104-114 | Inactive, and the queue kept or emptied |
| `Scheduler.Scheduler.Decide` | src/rclcpp_spk/include/cospike/scheduler.hpp:64-76 | Sleep, wait with a copy of the top, or take the top |
| `Scheduler.Scheduler.RunLoop` | src/rclcpp_spk/include/cospike/scheduler.hpp:62-79 | Once inactive and left alone the loop ends, having called everything that was queued, earliest first, none before its time |
| `GeneratorSpec.Resume` | src/rclcpp_spk/include/cospike/generator.hpp:19-41 | Resuming any suspended composition of from, take, take_while, map and flat_map yields the first value of the list it stands for and leaves the rest, or ends exactly if the list is empty |
| `GeneratorSpec.HasNext` | src/rclcpp_spk/include/cospike/generator.hpp:120-128 | True exactly if there is a value left; no value is lost by asking |
| `GeneratorSpec.Next` | src/rclcpp_spk/include/cospike/generator.hpp:132-139 | The first value left, or the exhausted exception exactly if there is none |
| `GeneratorResults.Drain` | src/rclcpp_spk/include/cospike/generator.hpp:102-116 | Asking until there is nothing gives the list |
| `GeneratorResults.HasNextIsIdempotent` | src/rclcpp_spk/include/cospike/generator.hpp:120-128 | Asking again changes nothing, not even the coroutine |
| `GeneratorResults.TakeDrains` | src/rclcpp_spk/include/cospike/generator.hpp:70-75 | take is the list's first n, for any n |
| `GeneratorResults.TakeWhileDrains` | src/rclcpp_spk/include/cospike/generator.hpp:78-84 | take_while is the longest prefix whose values pass |
| `GeneratorResults.MapDrains` | src/rclcpp_spk/include/cospike/generator.hpp:88-90 | map is the list's map |
| `GeneratorTypes.MapAcross` | src/rclcpp_spk/include/cospike/generator.hpp:88-90 | map from T to U, of any generator of T: h of every value, in order |
| `GeneratorResults.FlatMapDrains` | src/rclcpp_spk/include/cospike/generator.hpp:93-100 | flat_map is the inner lists one after the other, empty ones included |
| `GeneratorTypes.FlatMapAcross` | src/rclcpp_spk/include/cospike/generator.hpp:93-100 | flat_map from T to generators of U, of any generator of T: the inner lists one after the other |
| `GeneratorTypes.EmbedMeans` | src/rclcpp_spk/include/cospike/generator.hpp:19-41 | A generator of T carried over to a larger type of values gives the same values, however it is composed |
| `GeneratorResults.TakeNLeavesTheRest` | src/rclcpp_spk/include/cospike/generator.hpp:70-75 | Draining take(n) leaves the source exactly the values not given, and does not resume it beyond the last one given |
| `GeneratorResults.TakeWhilePLeavesTheRest` | src/rclcpp_spk/include/cospike/generator.hpp:78-84 | Draining take_while consumes the prefix and exactly one value more, if there is one |
| `Generator.Generator.HasNext` | src/rclcpp_spk/include/cospike/generator.hpp:120-128 | The flags of the promise and the handle, updated in place |
| `Generator.Generator.Next` | src/rclcpp_spk/include/cospike/generator.hpp:132-139 | Likewise; gives the first value left |
| `Generator.Generator.ForEach` | src/rclcpp_spk/include/cospike/generator.hpp:103-107 | The loop calls the function with all values, in order, and leaves none |
| `Generator.Generator.Fold` | src/rclcpp_spk/include/cospike/generator.hpp:110-116 | The loop gives the left fold of all values and leaves none |
| `GpuTuner.AwaitIsBounded` | src/exp/src/exp2_gpu_pgo.cpp:385-399 | For all measurements with 0 <= sync <= all: at most base + 100000 improvements ever happen, and each round awaits between 0 and base + 9 * (improvements + 1) |
| `GpuTuner.BestIsTheMaximum` | src/exp/src/exp2_gpu_pgo.cpp:392-398 | The best score is the maximum of -100000 and the scores of all rounds that reach the scoring branch |
| `GpuTuner.RecordingBounds` | src/exp/src/exp2_gpu_pgo.cpp:329-350 | The time to await is never negative, and at most the base latency when tuning begins |
| `GpuTuner.RunIsBounded` | src/exp/src/exp2_gpu_pgo.cpp:329-399 | The bounds with the best time so far, for every run |
| `GpuTuner.RaisingEnds` | src/exp/src/exp2_gpu_pgo.cpp:387-388 | With a base of at least 16, rounds that all raise the time are fewer than the base latency: each raises by at least one and stays below it |
| `GpuTuner.IntraGpuNode.CoCallback` | src/exp/src/exp2_gpu_pgo.cpp:329-406 | The fields after a round |
| `Rate.OnGridMeansOnTime` | src/rclcpp_spk/include/rclcpp/rate.hpp:57-87 | For any period, and any calls: the last interval is on the grid after each call if and only if no call is more than a whole period late for its own place on it; with a negative period, if and only if each call comes at its very place |
| `Rate.KeepsTheGrid` | src/rclcpp_spk/include/rclcpp/rate.hpp:57-87 | Then after k calls it is start + k * period |
| `Rate.WakesOnTheGrid` | src/rclcpp_spk/include/rclcpp/rate.hpp:63-86 | A call in its own period sleeps to exactly the next place on the grid |
| `Rate.Decide` | src/rclcpp_spk/include/rclcpp/rate.hpp:57-87 | A call sleeps exactly if the period is positive and it comes before the next interval, never for longer than the period, and moves the last interval by one period exactly if it is not more than a whole period late; a period of zero or less never sleeps |
| `Rate.GenericRate.Sleep` | src/rclcpp_spk/include/rclcpp/rate.hpp:57-87 | The fields and the sleep asked for |
| `Rate.GenericRate.Reset` | src/rclcpp_spk/include/rclcpp/rate.hpp:95-99 | The grid starts anew |
| `NodeListsRun.StepKeepsAligned` | src/rclcpp_spk/src/rclcpp/executor.cpp:124-190 | Every operation of every executor keeps its two lists aligned and free of repetition, and waits for exactly the guard conditions of the listed nodes |
| `NodeListsRun.ProperRunsAreExclusive` | src/rclcpp_spk/src/rclcpp/executor.cpp:124-190 | As long as nodes are removed only from where they are, no live node is in two executors |
| `NodeListsRun.ImproperRemovalSharesTheNode` | src/rclcpp_spk/src/rclcpp/executor.cpp:178-179 | Any other removal lets the node into a second executor |
| `NodeListsRun.CleanUpKeepsAligned` | src/rclcpp_spk/src/rclcpp/executor.cpp:511-525 | The expiry loop keeps the lists aligned with each other and with what is waited for |
| `NodeLists.ExecutorNodes.AddNode` | src/rclcpp_spk/src/rclcpp/executor.cpp:124-151 | The two refusals, and the lists after |
| `NodeLists.ExecutorNodes.RemoveNode` | src/rclcpp_spk/src/rclcpp/executor.cpp:159-190 | The flag goes down in any case; what was erased from the three lists |
| `NodeLists.ExecutorNodes.EraseNode` | src/rclcpp_spk/src/rclcpp/executor.cpp:163-177 | The loop over two lists side by side erases the same places of both |
| `NodeLists.ExecutorNodes.CleanUp` | src/rclcpp_spk/src/rclcpp/executor.cpp:511-525 | Likewise for the expired nodes, and their guard conditions are no longer waited for |
| `NodeLists.ExecutorNodes.AddGuardCondition` | src/rclcpp_spk/include/rclcpp/strategies/allocator_memory_strategy.hpp:64-72 | Added unless it is there |
| `NodeLists.ExecutorNodes.RemoveGuardCondition` | src/rclcpp_spk/include/rclcpp/strategies/allocator_memory_strategy.hpp:74-82 | The first occurrence goes |

## Left out

- Store and take of the intra-process manager are single steps. Making the class thread-safe is still to be considered (intra_process_manager.hpp:119), and interleavings inside one call are not modelled.
- Null messages in the runs of the manager: publishers refuse them before they reach it (publisher.hpp:271-273 and 289-291). `RingWindow.FailsExactlyOnNull` says what the ring does with one.
- IntraProcessManager.IntraProcessManager.StoreUnique: states the new books and the one ring it pushes to; `JoinStore` joins the two into the store of the specification, because the class keeps its rings as objects and the specification as values.
- IntraProcessManager.IntraProcessManager.TakeUnique: states the books and the one ring in the same way; `JoinTakeUnique` and `JoinTakeShared` join them.
- Identifiers, message numbers and sizes are unbounded; their 64-bit wrap-around is not modelled, nor the overflow error of the identifier counter, nor the check of a topic name's length, nor the cast of a message to its type.
- `matches_any_publishers` and `get_subscription_count` of the manager: reads without influence on delivery.
- The destruction of an awaiter between the unlock of the channel and its resumption, and of a promise in one of its callbacks.
- The coroutine popped from the queue is carried by value; the C++ keeps a pointer to the front element that it then pops.
- The subscription of a promise is unknown until `promise_executor_init` stores it; the C++ pointer is uninitialised until then.
- The write of a flag that is not there: what memory it hits.
- Which of several waiting threads gets `co_vec_mutex_` when an idle call ends: it may be the next idle call, so that how many of these a returning coroutine waits for has no bound.
- The rest of the memory strategy: finding a handle's node and group. What is ready is an input; of `get_next_subscription` the skip of suspended subscriptions is modelled.
- Whether the callback group may be taken, execution inside the callbacks, and the multi-threaded executors' loops.
- A `get_result` that wakes without notification, exceptions thrown in callbacks, and a callback that calls back into its own promise while the lock is held.
- Constructors, wait-set sizes and failures of `rcl` calls in the graph listener. add_node and remove_node change the list in one step; what a torn read of an element would give is not modelled.
- GraphListener.GraphListener.AddNode: one thread; what other threads may do meanwhile is in `GraphListenerSpec`.
- The scheduler's heap is a binary heap with the comparison of the C++; which of two entries of equal time comes first depends on the library, and nothing stated here depends on it except that an entry not earlier than the top does not become the top.
- A wait that was notified and also timed out counts as notified.
- The unlocked reading of the queue in the scheduler's loop condition is taken as atomic.
- Scheduler.Scheduler.RunLoop: the loop of an inactive scheduler that nobody else uses; with other threads it is a state machine in `SchedulerSpec`, because its locked sections interleave with theirs.
- GeneratorSpec.Resume: a composition has one type of values throughout; `GeneratorTypes` embeds both types of a `map` or `flat_map` that changes it. Exceptions in the functions given are not modelled.
- GpuTuner.AwaitIsBounded: long and int are unbounded, and the copy of the measurement into an int is not truncated.
- Rate: the conversion of a frequency into a period, and clocks of limited range.
- `SleepAwaiter`, `ThreadPoolExecutor`, `LooperExecutor` and `NewThreadExecutor`, `Duration`, the client's pending requests, the other two demonstrations' tuners, the launch patch and the plots: easy or near-duplicates.
- Memory ordering: every access to an atomic is a step of its own or part of a locked one. `has_returned` and the stored subscription of a promise are plain fields used without a lock; each access to them is taken as atomic, the erase loops' repeated reading of the subscription as one.
- The look at the list and the listing of the subscription chosen are one step: the multi-threaded executors choose under `wait_mutex_`. So are the listing and the coroutine that comes of it, if one does.
- A turn of the spin loop sees one state of the coroutine tables. `re_execute` does not interrupt a wait, so that a resumption pushed after the look at the queue may have to wait for the wait's end; how long waits last is not modelled.
- `add_node` and `remove_node` of an executor are one step each; they raise the node's flag before listing the node and lower it after erasing it.
