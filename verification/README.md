# Lock-free queues, stack and locks of MarketDataPipeline, verified

This Dafny project models the concurrent code of the repository and proves what that code is for.

- **The SPSC ring buffer** (`spsc/SpscQueue.h`), with the uncached queue of the paper design beside it.
- **The MPMC ring buffer** (`notes/Designs/MPMC_Paper_Design.md`, the code blocks).
- **The intrusive lock-free stack** (`experiments/broken_aba.cpp`).
- **The spinlock counter program, the ping-pong handoff and the client loops** of the benchmarks.

## How the code is modelled

Each concurrent component is a machine. Its state is the memory plus the program counter and locals of
every thread; a step (`Exec`) is one access of the source to shared memory, or an action on the thread's own
data, and a run is any legal sequence of steps by any threads. So every statement about runs is a statement
about all interleavings.

*Release/acquire.* An atomic is the sequence of its values in modification order. A load may return any of
them that was stored earlier in the run and is not older than the newest one the thread itself has read or
written there. So safety results cover every stale read that the coherence rules of section 31.4
[atomics.order] of the C++20 standard allow. Two things are assumed: a load never returns a value that is
stored later in the run (no load buffering, which the standard leaves open for relaxed accesses), and the order
in which stores execute is the modification order. The second is argued where it matters: an SPSC index has one
writer; a successful compare-exchange reads the last value by definition; and every other store is made by a
thread that has read or written the last value (`MpmcTheorems.StoreGoesLast`, `Spinlock.StoreGoesLast`,
`PingPong.StoreGoesLast`), so that coherence puts it last.

Every plain access gets an entry in a log. A thread's happens-before set holds the log
entries that happen before its next action: its own accesses are sequenced before it, a release store
publishes the set, an acquire load that reads the store joins it. `Memory.RaceFree` says that of two accesses
to one cell the earlier is in the happens-before set of the later, which excludes data races in the sense of
section 6.9.2.1 [intro.races]; `Memory.KnownIsPast` says these sets only look back. That they are no larger than
the orderings of the code warrant is proved for each machine (`SpscOrder.OrderExact`, `MpmcOrder.OrderExact`,
`Spinlock.OrderExact`, `PingPong.OrderExact`): relaxed accesses order nothing. In the program over two
queues a thread may also not read what the other queue has told it is old; that is the only order between
locations that is used (`SpscClients.Pair`).

*Widths.* `size_t` is a parameter `bits`; sums and differences are wrapped explicitly, masks are a bitwise
`And`, and the signed difference of the MPMC code is computed on casts, with overflow as a fault.

*Weak compare-exchange* may fail for no reason wherever the code uses the weak form, except in the results
that ask for newest values (`MpmcMachine.Newest`): those about progress and about the meaning of a failing call.

*Source form.* `SpscQueueClass.SpscQueue`, `MpmcQueueClass.MpmcQueue` and
`LockFreeStackClass.LockFreeStack` are classes whose methods follow the source statement by statement. In the
last two a call is given, for each of finitely many accesses, a turn: any steps of the other threads before
it, which value it reads (for the queue, any that release/acquire allows) and whether a weak compare-exchange
fails for no reason. Each call is proved to return, and to be the run of the machine that its turns determine
(`Call.Returns`); the laws of `MpmcCalls` and `StackCalls` say that the turns can bring any run of the others, any
readable value and any failure, and nothing else.

The files: `Bits`, `Sums`, `Memory`, `Common` (shared); `SpscMachine`, `SpscInvariant`, `SpscTheorems`, `SpscOrder`, `SpscSize`,
`SpscStale`, `SpscClients`, `SpscQueue`; `MpmcMachine`, `MpmcInvariant`, `MpmcSteps`, `MpmcTheorems`, `MpmcProgress`,
`MpmcLimits`, `MpmcOrder`, `MpmcCalls`, `MpmcStale`, `MpmcQueue`; `AbaStack`, `StackCalls`, `LockFreeStack`; `Spinlock`;
`PingPong`.

## Where the code and its documentation disagree

- The remark that the SPSC queue "may skip a spot" (`spsc/SpscQueue.h:77`) is not what the code does: no item
  is skipped (`SpscTheorems.EveryRun`).
- `false` from the SPSC queue means full, or empty, exactly when the load that made the call fail read the
  newest value; the shipped orderings do not promise that, and there are runs whose results fit no order of
  the calls: `SpscTheorems.LinearisableExact`, `SpscStale.StaleFailures`.
- The assertion admits Capacity 0 and 1. SPSC is correct for both (with 0 it is always full and always
  empty). MPMC with Capacity 1 loses items although the assertion passes and the text says that a stale
  generation cannot match (`notes/Designs/MPMC_Paper_Design.md:191-198`), and a pop then never returns:
  `MpmcLimits.CapacityTwoNeeded`, `MpmcLimits.SoloPopReturnsExact`.
  MPMC with Capacity 0 indexes an empty array on its first access and is not part of the model.
- The text of try_push stores `enqueue_pos_` a second time (lines 86-87) and the text of try_pop sets the
  sequence to `pos` (line 128); the code blocks, which are modelled, do neither.
- Lock-freedom (`notes/Designs/MPMC_Paper_Design.md:200-207`) is about calls that return, not calls that succeed:
  behind one thread stopped between its claim and its store the others soon only return false
  (`MpmcProgress.StalledOwner`). It also needs newest values and no spurious failure, which relaxed loads and a weak
  compare-exchange do not promise: `MpmcStale.StaleForever`, `MpmcStale.SpuriousForever`.
- "Full" and "empty" returned by the MPMC code do not mean that the queue is full or empty, only that one
  position is not finished: `MpmcTheorems.PushFails`, `MpmcTheorems.PopFails`,
  `MpmcLimits.EmptyAfterCompletedPush`, `MpmcLimits.FullWhenEmpty`; with stale loads not even that:
  `MpmcStale.EmptyThoughPushed`, `MpmcStale.FullThoughEmpty`.
- The MPMC difference is exact only while positions stay in the signed range; the exact bound is
  `MpmcLimits.SignedRangeExact`.

## Model

| member | source | states |
|---|---|---|
| Bits.AssertAdmits | spsc/SpscQueue.h:29 | the compile-time assertion admits exactly zero and the powers of two below 2^bits |
| Bits.SlotSurvivesWrap | spsc/SpscQueue.h:41 | for every admitted capacity the masked slot of a wrapped index is the slot of the unbounded index, so laps survive overflow |
| SpscMachine.Exec | spsc/SpscQueue.h:32-58 | one memory access of try_push or try_pop, cached as shipped or uncached as in the paper design |
| SpscInvariant.StepInv | spsc/SpscQueue.h:32-58 | every access keeps head_cache_ <= head_ <= tail_cache_ <= tail_ <= head_cache_ + Capacity as unbounded counts, the contents of the slots, and what each message and thread knows |
| SpscTheorems.EveryRun | spsc/SpscQueue.h:32-58 | in every release/acquire run, for any capacity, stale loads and any number of index overflows: popped items are a prefix of pushed items, occupancy is at most Capacity, no slot access races |
| SpscTheorems.NextAccessOrdered | spsc/SpscQueue.h:34-41 | the slot access about to happen is ordered after all earlier ones of that slot, also when the cached index skipped the acquire load |
| SpscTheorems.SlotInRange | spsc/SpscQueue.h:41-55 | a call in progress always has a next access, never outside the buffer; with Capacity 0 no slot is touched |
| SpscTheorems.PushSucceeds | spsc/SpscQueue.h:41-43 | with stale loads too, a push that succeeds finds room and appends its item to the queue |
| SpscTheorems.PopSucceeds | spsc/SpscQueue.h:55-57 | with stale loads too, a pop that succeeds takes the oldest item |
| SpscTheorems.Linearises | notes/Designs/SPSC_Paper_Design.md:39-63 | each call does and returns at one fixed access what the atomic bounded queue does, a failing call provided that the load that made it fail read the newest value |
| SpscTheorems.LinearisableExact | spsc/SpscQueue.h:32-58 | in a release/acquire run the results of all calls, failures included, are those of the atomic bounded queue called in return order if and only if every failing call failed on the newest value |
| SpscTheorems.Linearisable | notes/Designs/SPSC_Paper_Design.md:22-26 | so they are in every sequentially consistent run |
| SpscStale.StaleFailures | spsc/SpscQueue.h:36-51 | for every Capacity of at least 2 a release/acquire run of the shipped queue in which both calls fail with Capacity - 1 items queued, and whose results the atomic queue gives in no order that keeps each thread's own |
| SpscTheorems.CachedStep | spsc/SpscQueue.h:34-40 | skipping a load because of the cache equals making it and reading the old value again |
| SpscTheorems.CachedRefinesUncached | spsc/SpscQueue.h:32-58 | every run of the cached queue is matched by a run of the uncached queue to the same state with the same results in the same order |
| SpscTheorems.FreshRefinesFresh | spsc/SpscQueue.h:32-58 | the same under sequential consistency: a cached run that reads newest values only is matched by an uncached run that reads newest values only, with the same results, contents and program counters |
| SpscTheorems.RunPast | spsc/SpscQueue.h:33-56 | the happens-before sets of the machine contain earlier accesses only |
| SpscOrder.OrderExact | spsc/SpscQueue.h:33-56 | happens-before, exactly, in every run: the producer is ordered after its own writes and the reads below the head it has acquired, the consumer after its own reads and the writes below the tail it has acquired, and after nothing else |
| SpscSize.SizeByProducer | spsc/SpscQueue.h:61 | size() called by the producer is between the true occupancy and Capacity, exact when its head is current |
| SpscSize.SizeByConsumer | spsc/SpscQueue.h:61-63 | size() called by the consumer is at most the true occupancy, and a non-empty answer is true |
| SpscSize.SizeExact | spsc/SpscQueue.h:61-63 | for any places its two loads read: size() is the difference of the two counts modulo the width, so exact if it fits and 2^bits less the deficit if the head is ahead; empty() is true exactly when it is zero |
| SpscSize.ThirdThreadHeadFirst | spsc/SpscQueue.h:60-61 | from every count a and for every n below 2^bits there is a run in which a third thread's size() returns n though the queue is empty |
| SpscSize.ThirdThreadTailFirst | notes/Designs/SPSC_Paper_Design.md:75-76 | in the other order of its two loads it wraps below zero: 2^bits - n after n transfers |
| SpscClients.ClientStepInv | bench/spsc_bench.cpp:69-80 | with a producer that pushes item(0), item(1), ... the item a pop has read is the one the consumer's counter expects |
| SpscClients.InOrder | bench/spsc_head_to_head.cpp:79-103 | the in-order assertion never fails, in any release/acquire run |
| SpscClients.StreamInOrder | bench/spsc_bench.cpp:75-80 | the i-th pop of the stream is the cast of i, also past the range of int |
| SpscClients.StreamItemIsCast | bench/spsc_head_to_head.cpp:84 | the cast of a counter to int is within range, repeats every 2^32 and differs from the counter by a multiple of it |
| SpscClients.BurstBatches | bench/spsc_head_to_head.cpp:134-160 | for every batch size the i-th pop of every batch yields i |
| SpscClients.ClientCanFinish | bench/spsc_head_to_head.cpp:79-103 | from every reachable state the two loops can complete all transfers; they are never both blocked |
| SpscClients.PairStep | bench/spsc_head_to_head.cpp:105-131 | in release/acquire runs over two queues every step keeps: at most one message exists, no try_push fails however stale its load, and the echo of round i is item i |
| SpscClients.PairEveryRun | bench/spsc_head_to_head.cpp:105-131 | in every release/acquire run of the two programs the echoes are the requests in order, at most one message is under way, and no slot access of either queue races |
| SpscClients.StaleTakes | bench/spsc_head_to_head.cpp:119-131 | with the request in the queue the responder's try_pop may still fail, any number of times |
| SpscClients.PairCanFinish | bench/spsc_head_to_head.cpp:105-131 | no reachable state of the pair is a deadlock: all rounds can be completed |
| SpscQueueClass.SpscQueue.TryPush | spsc/SpscQueue.h:32-44 | on the array with wrapped indices: true exactly when not full, and then the item is appended |
| SpscQueueClass.SpscQueue.TryPop | spsc/SpscQueue.h:46-58 | true exactly when not empty, and then the oldest item is removed and returned; a failed call leaves out alone |
| SpscQueueClass.SpscQueue.Size | spsc/SpscQueue.h:61 | the number of items, through wrapping subtraction |
| SpscQueueClass.SpscQueue.Empty | spsc/SpscQueue.h:63 | equal wrapped indices mean an empty queue |
| SpscQueueClass.FillAndDrain | bench/spsc_bench.cpp:55-67 | a queue takes exactly Capacity items, refuses the next and returns them in order |
| MpmcMachine.Exec | notes/Designs/MPMC_Paper_Design.md:90-159 | one memory access of try_push or try_pop, with signed difference, weak CAS and stale loads |
| MpmcInvariant.FreeHere | notes/Designs/MPMC_Paper_Design.md:191-198 | with Capacity at least 2 a sequence equal to pos never comes from another lap's filled state |
| MpmcInvariant.ClaimPushReadsLast | notes/Designs/MPMC_Paper_Design.md:97-103 | a push that wins the CAS had read the newest sequence of its slot, however stale its loads may be |
| MpmcInvariant.ClaimPopReadsLast | notes/Designs/MPMC_Paper_Design.md:138-144 | the same for a pop |
| MpmcSteps.StepInv | notes/Designs/MPMC_Paper_Design.md:90-159 | every access keeps the invariant tying counters, slot histories, owners and happens-before together |
| MpmcTheorems.EveryRun | notes/Designs/MPMC_Paper_Design.md:90-159 | any number of threads, any run with stale loads: the pop of position k returns the item pushed at position k, at most Capacity positions are outstanding, no race, no signed overflow |
| MpmcTheorems.Linearises | notes/Designs/MPMC_Paper_Design.md:101-144 | a successful call acts on a bounded FIFO at its CAS; nothing else changes the queue |
| MpmcTheorems.Linearisable | notes/Designs/MPMC_Paper_Design.md:4 | the successful calls of any run, in CAS order and with the values the pops returned, are a history of a FIFO of capacity Capacity; only pops still under way have no value |
| MpmcTheorems.PopReturns | notes/Designs/MPMC_Paper_Design.md:142-145 | the value a pop returns is the item pushed at its position |
| MpmcTheorems.ExclusiveSlot | notes/Designs/MPMC_Paper_Design.md:42-46 | between winning the CAS and storing the sequence one thread may touch the slot, ordered after all earlier touches |
| MpmcTheorems.StoreGoesLast | notes/Designs/MPMC_Paper_Design.md:171-185 | when a thread makes its release store it has read or written the newest message of that sequence, so the store goes last in modification order |
| MpmcTheorems.NothingLost | notes/Designs/MPMC_Paper_Design.md:25-39 | when no call is under way every claimed pop has its item and every other item is in its slot, ready |
| MpmcTheorems.PushFails | notes/Designs/MPMC_Paper_Design.md:107-108 | under sequential consistency try_push returns false exactly when its position is live and the previous lap's pop of the slot is unfinished |
| MpmcTheorems.PopFails | notes/Designs/MPMC_Paper_Design.md:148-149 | try_pop returns false exactly when its position is live and the push of that position is unfinished |
| MpmcTheorems.RunPast | notes/Designs/MPMC_Paper_Design.md:165-185 | the happens-before sets of the machine contain earlier accesses only |
| MpmcOrder.OrderExact | notes/Designs/MPMC_Paper_Design.md:165-185 | happens-before, exactly, in every run: a thread is ordered after its own accesses and what the sequence messages publish that it has read or written, and after nothing else; the counters order nothing |
| MpmcProgress.StepLowersRank | notes/Designs/MPMC_Paper_Design.md:94-117 | each access brings a call closer to its end unless another claim made its position stale |
| MpmcProgress.RetryMeansClaim | notes/Designs/MPMC_Paper_Design.md:106-110 | a failed CAS that is not spurious and the reload branch happen only when another thread holds the claim of the position, also with stale loads |
| MpmcProgress.EveryRetry | notes/Designs/MPMC_Paper_Design.md:106-110 | the same for every run from the initial state |
| MpmcProgress.RetryMeansLaterClaim | notes/Designs/MPMC_Paper_Design.md:94-110 | and when the position was loaded fresh, that claim was won after the load |
| MpmcProgress.RetriesCharged | notes/Designs/MPMC_Paper_Design.md:94-117 | in every run a thread retries at most as often as the other threads win claims |
| MpmcProgress.CountsBalance | notes/Designs/MPMC_Paper_Design.md:94-117 | every look at a sequence leads to a retry, a claim or a failing return, and the claims are the positions claimed |
| MpmcProgress.SoloFinishes | notes/Designs/MPMC_Paper_Design.md:135-158 | a thread running alone from any reachable state ends its call within six accesses |
| MpmcProgress.RunBound | notes/Designs/MPMC_Paper_Design.md:200-207 | the steps of any run are bounded by calls begun and claims won |
| MpmcProgress.LockFree | notes/Designs/MPMC_Paper_Design.md:200-207 | lock-freedom: in every run of n threads the steps are at most (2n + 6) * (returned calls + n), calls that return false included |
| MpmcProgress.StalledOwner | notes/Designs/MPMC_Paper_Design.md:200-207 | once a thread has stopped in a claimed push of position k, no run of the others claims a pop beyond k - 1 or a push beyond k + Capacity - 1; in a claimed pop, no push beyond k + Capacity - 1 |
| MpmcLimits.CapacityOneOverwrites | notes/Designs/MPMC_Paper_Design.md:71 | with Capacity 1 any number of pushes succeed in a row and only the last item is left |
| MpmcLimits.ReachSpinning | notes/Designs/MPMC_Paper_Design.md:71 | with Capacity 1 a run from the initial state overwrites all items but the last and leaves a pop in its loop |
| MpmcLimits.PopSpins | notes/Designs/MPMC_Paper_Design.md:135-152 | that pop, running alone, has not returned after any number of steps |
| MpmcLimits.SpinsOn | notes/Designs/MPMC_Paper_Design.md:135-152 | and it can take any number of steps, so it is not stuck but spins |
| MpmcLimits.SoloPopReturnsExact | notes/Designs/MPMC_Paper_Design.md:71-76 | a pop left alone can return from every reachable state if and only if Capacity is at least 2 |
| MpmcLimits.CapacityTwoNeeded | notes/Designs/MPMC_Paper_Design.md:71-76 | the queue stays within its capacity in every run if and only if Capacity is at least 2 |
| MpmcLimits.OverflowRun | notes/Designs/MPMC_Paper_Design.md:138 | a run in which the signed subtraction of a delayed pop overflows |
| MpmcLimits.SignedRangeExact | notes/Designs/MPMC_Paper_Design.md:97 | no run with at most e claimed pushes overflows if and only if e + Capacity <= 2^(bits-1) |
| MpmcLimits.EmptyAfterCompletedPush | notes/Designs/MPMC_Paper_Design.md:148-149 | a run in which pop reports empty after a later push has completed |
| MpmcLimits.FullWhenEmpty | notes/Designs/MPMC_Paper_Design.md:107-108 | for every Capacity of at least 2 a run in which try_push returns false although every item has been claimed by a pop, because one pop has not read its item yet |
| MpmcStale.EmptyThoughPushed | notes/Designs/MPMC_Paper_Design.md:148-149 | with a stale sequence try_pop returns false though a push has completed and nobody else is in a call |
| MpmcStale.FullThoughEmpty | notes/Designs/MPMC_Paper_Design.md:107-108 | with a stale sequence try_push returns false though the queue is empty and nobody else is in a call |
| MpmcStale.StaleForever | notes/Designs/MPMC_Paper_Design.md:200-207 | with stale positions a thread running alone need not return in any number of steps |
| MpmcStale.SpuriousForever | notes/Designs/MPMC_Paper_Design.md:101 | with spurious failures a thread running alone need not return in any number of steps |
| MpmcCalls.AnyInterference | notes/Designs/MPMC_Paper_Design.md:90-159 | any run of the other threads can come before an access of a call |
| MpmcCalls.CasExact | notes/Designs/MPMC_Paper_Design.md:101-106 | the compare-exchange fails exactly when another position is live than expected or it fails for no reason, and reads back the expected value only then |
| MpmcCalls.ReadsExact | notes/Designs/MPMC_Paper_Design.md:91-96 | a read may return any value not older than what the thread has seen, and returns the one its turn gives |
| MpmcCalls.EveryRunIsTurns | notes/Designs/MPMC_Paper_Design.md:90-159 | every run of the machine in which a call is under way is that call under some turns |
| MpmcCalls.UndisturbedCall | notes/Designs/MPMC_Paper_Design.md:90-159 | an undisturbed call that finds no other thread between claim and store: try_push is true exactly when there is room, try_pop exactly when there is an item, and then yields the oldest |
| MpmcQueueClass.MpmcQueue.TryPush | notes/Designs/MPMC_Paper_Design.md:90-118 | the loop as written: under any turns it returns, having made exactly the accesses they determine; it claims one position for its item exactly when it returns true; undisturbed it is true exactly when there is room |
| MpmcQueueClass.MpmcQueue.TryPop | notes/Designs/MPMC_Paper_Design.md:131-159 | the loop as written: under any turns it returns, having made exactly the accesses they determine; it claims one position and yields that position's item exactly when it returns true; undisturbed it yields the oldest item exactly when there is one |
| AbaStack.Exec | experiments/broken_aba.cpp:32-72 | one access of push, pop_normal or pop_vulnerable; the head load, the store of node->next and the read of the expected value are steps of their own |
| AbaStack.StepInv | experiments/broken_aba.cpp:32-57 | without reuse every access keeps memory and abstract stack equal |
| AbaStack.EveryRun | experiments/broken_aba.cpp:32-57 | without reuse, in every run: the chain from head is the abstract stack, no node is returned twice or while on the stack, none is lost |
| AbaStack.Linearises | experiments/broken_aba.cpp:36-56 | without reuse operations act at their CAS; a null result means an empty stack at that read |
| AbaStack.CallEnds | experiments/broken_aba.cpp:36-71 | in every state, with any reuse: a pop that succeeds returns the node that was on top, the one recorded as taken; one that does not returns null, after a null head or, in pop_vulnerable, a changed one |
| AbaStack.ReturnedAreResults | experiments/broken_aba.cpp:50-68 | in every run, with any reuse, the nodes recorded as taken are those that pops have returned, in order |
| AbaStack.RunAgreesExact | experiments/broken_aba.cpp:32-72 | for every run, with any reuse: memory and abstract stack agree at every moment if and only if every successful pop installs the next its node still has, every successful push has its node linked to the head it replaces, and no push changes the next of a node on the stack |
| AbaStack.CarefulRunsExact | experiments/broken_aba.cpp:47-71 | for every run that gives a node to push only while it is off the stack and nobody is pushing it: they agree at every moment if and only if every successful pop installs the next its node still has |
| AbaStack.HazardRule | experiments/broken_aba.cpp:32-71 | a rule for callers of push: in every run that gives a node to push only while it is off the stack, nobody is pushing it and no pop holds it, memory and abstract stack agree at every moment |
| AbaStack.ReuseByTheRule | experiments/broken_aba.cpp:83-99 | the rule allows a thread to pop the top and push the same node again |
| AbaStack.ReusedPop | experiments/broken_aba.cpp:50-53 | a successful pop of such a run takes the top with the value last pushed, also for a reused node |
| AbaStack.PushTwice | experiments/broken_aba.cpp:32-45 | pushing a node that is still anywhere on the stack leaves memory that is no stack at all, without any pop |
| AbaStack.TwoPushers | experiments/broken_aba.cpp:32-45 | two threads pushing the same node at once can lose another node |
| AbaStack.AbaDiverges | experiments/broken_aba.cpp:60-99 | for every stack with two or more nodes and any rest the ABA schedule, which pushes only nodes off the stack, makes T1 return a and leaves b on the stack in memory although it was returned |
| AbaStack.AbaFromEmpty | experiments/broken_aba.cpp:83-99 | the same from the empty stack, for every list of distinct nodes, the demonstration's included |
| StackCalls.AnyInterference | experiments/broken_aba.cpp:32-72 | any run of the other threads without reuse can come before an access of a call |
| StackCalls.ChoiceExact | experiments/broken_aba.cpp:36-68 | a compare-exchange fails exactly when head is not the expected node or, if it is a weak one, for no reason |
| StackCalls.EveryRunIsTurns | experiments/broken_aba.cpp:32-72 | every run without reuse in which a call is under way is that call under some turns |
| StackCalls.UndisturbedCall | experiments/broken_aba.cpp:32-72 | an undisturbed call is the stack's operation: push puts its entry on top, a pop takes and returns the top, and on an empty stack returns null or dereferences it |
| LockFreeStackClass.LockFreeStack.Push | experiments/broken_aba.cpp:32-45 | the loop as written: under any turns it returns, having made exactly the accesses they determine; its last one puts its entry on top of the stack as it then is, and no earlier one changes head |
| LockFreeStackClass.LockFreeStack.PopNormal | experiments/broken_aba.cpp:47-57 | the loop as written: under any turns it returns, having made exactly the accesses they determine; its one change takes the top with its value, a node never returned before, or the stack is empty when it returns null; undisturbed it returns the top |
| LockFreeStackClass.LockFreeStack.PopVulnerable | experiments/broken_aba.cpp:60-71 | without reuse, under any turns, it takes the top in the same way or nothing; on an empty stack it dereferences null |
| Spinlock.Exec | experiments/cas_spinlock.cpp:33-66 | one action of increment_counter, the increment as a load and a store |
| Spinlock.StepInv | experiments/cas_spinlock.cpp:33-66 | every action keeps mutual exclusion and the accounting of counter, acquisitions and locks |
| Spinlock.EveryRun | experiments/cas_spinlock.cpp:51-66 | any number of threads: one thread in the critical section, no race, the counter is the sum of acquisitions outside it and never passes the bound, at most bound + threads locks |
| Spinlock.AtTheEnd | experiments/cas_spinlock.cpp:89-111 | when all threads are done the exit check succeeds, samples equal acquisitions and add up to the bound |
| Spinlock.CanFinish | experiments/cas_spinlock.cpp:51-66 | no reachable state is a deadlock |
| Spinlock.StoreGoesLast | experiments/cas_spinlock.cpp:47-49 | the thread that unlocks has written the last message of the flag, so its store goes last in modification order |
| Spinlock.OrderExact | experiments/cas_spinlock.cpp:33-49 | happens-before, exactly, in every run: a thread is ordered after its own accesses and what the unlocks publish that its successful compare-exchanges read; a failing one orders nothing |
| Spinlock.SpinsOn | experiments/cas_spinlock.cpp:35-45 | the acquiring loop is unbounded: a thread alone may fail any number of times |
| PingPong.Exec | bench/pingpong_bench.cpp:54-77 | one action of sender or receiver |
| PingPong.EveryRun | bench/pingpong_bench.cpp:54-77 | no race on the counter, the receiver sees k + 1 in round k, rounds differ by at most one, the final value is the number of rounds |
| PingPong.CanFinish | bench/pingpong_bench.cpp:158 | no reachable state is a deadlock |
| PingPong.StoreGoesLast | bench/pingpong_bench.cpp:59-75 | the thread that stores has read or written the last message of the flag, so its store goes last in modification order |
| PingPong.OrderExact | bench/pingpong_bench.cpp:54-77 | happens-before, exactly, in every run: own accesses and what the newest flag message publishes that the thread has read or written |
| PingPong.PollsOn | bench/pingpong_bench.cpp:73 | the receiver may read the old flag any number of times after the store |

## Left out

- Timing, pinning, TSC calibration, governor reads and spin hints: no effect on results; a spin hint is no step.
- `alignas` and cache-line layout: not functional behaviour.
- The rigtorp, moodycamel, folly and boost wrappers: those libraries are not part of this model.
- Percentiles, argument parsing, printing, the plotting and shell scripts: one-branch or floating-point facts.
- `bench/counter_bench.cpp`, `experiments/unique_ptr.cpp`, `experiments/move_semantics.cpp`: easy cases beside the spinlock.
- Reclaiming stack nodes: the pool is static and nothing is freed.
- Weak memory for the stack: the relaxed failure of its compare-exchange is followed by reading `old->next`, so the stack is sequentially consistent here.
- The interleavings of `cas_spinlock.cpp` and `pingpong_bench.cpp` in method form: a thread that waits for another cannot be shown to return by itself, so these programs are modelled on values, as step machines only.
- MpmcQueueClass.MpmcQueue.TryPush: stale reads and spurious failures stop with the last turn, as otherwise it, and TryPop, need not return.
- MpmcProgress.LockFree: assumes, as RetriesCharged does, sequential consistency and no spurious failure, the usual reading of the claim.
- MpmcTheorems.EveryRun: positions beyond 2^(bits-1) - Capacity are outside it, because there the code's subtraction can overflow (MpmcLimits.SignedRangeExact).
- Fair scheduling: progress is stated as bounds on steps and as reachable completion, not as eventual completion.
