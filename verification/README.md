# Verification model

A Dafny model of the three parts of this repository where correctness hangs on more than one
function: the lock-free single-producer single-consumer queue, the semaphore and blocking
queue on top of it, and the filters and polynomial expansion of the synthesizer.

    dafny verify dfyconfig.toml

## What is modelled

**The queue** (`src/readerwriterqueue.h`). A ring of power-of-two blocks, each a ring buffer
with `front`, `tail` and two stale copies of them. It is modelled twice, over the same blocks.

* `SpscQueue` is a state machine of one producer and one consumer thread. Every load and store
  of a variable that both threads can reach is a step; the position of a thread in its code is
  a constructor that carries the local variables live there; steps interleave in any order.
  `ProducerNext` and `ConsumerNext` follow `inner_enqueue` (552-643) and `try_dequeue`, `pop`,
  `peek` (308-375, 391-420, 433-488) statement by statement. `ProducerSafe`, `ConsumerSafe`,
  `ProducerAsserts` and `ConsumerAsserts` say when the next step is defined and what the code
  asserts there. `sent` and `received` log what the clients handed over and got.
* `ReaderWriterQueues.ReaderWriterQueue` is the object with its fields and methods, for one
  thread at a time, with constructor, destructor and the walks round the ring.
  `SpscStructure.IdleIsQuiescent` connects the two: a run of the two threads that finds both
  between calls has left an object of this kind. `Lifecycle` follows every element from its
  construction in such a run to its destruction, by the consumer or by the destructor after it.
* `SpscWalk` adds `size_approx` and `max_capacity`, called by either thread while the other one
  works, to the state machine; each load is a step.

The invariant (`SpscInvariant.Inv`) gives every block unbounded counters behind its masked
indices and lays the elements of the history out over the ring. `SpscMemory`, `SpscEffects`,
`SpscProducer`, `SpscConsumer`, `SpscInterference` and `SpscRuns` prove that each of the 34
kinds of step keeps it; `SpscTheorems`, `SpscCalls`, `SpscStructure`, `SpscProgress` and
`SpscContents` say what follows for every run, step by step and call by call. `SpscWitness` spells four runs out. `Sums` has sums of amounts
round the ring.

**The semaphore and the blocking queue** (`src/atomicops.h`, `src/readerwriterqueue.h`
759-973). `Semaphore` is a state machine of one signaling and one waiting thread over
`m_count` and a kernel semaphore, a counter whose `wait` and `timed_wait` may come back
empty-handed at any time. `BlockingQueue` runs it together with the queue; `BlockingCalls` says
what each call returns and has done by then, reading the inner queue's calls off its runs.

**The numeric core** (`src/synthesis`), over exact reals and complex numbers as pairs of
reals: `Filters.Filter` with its state shifted in place, `SosFilters.SosFilter`, and
`PolyFromRoots.CreatePolynomialFromRoots`. `Signals` has the sums of products that a
difference equation is made of.

## Assumptions

* Steps are sequentially consistent; `fence` and `compiler_fence` do nothing.
* `size_t` has 64 bits. The constructor is modelled for every size and for every
  `MAX_BLOCK_SIZE` that passes its assertions, powers of two from 2 to 2^63, with the
  wrap-around of its arithmetic. What is said of runs is said of those of
  `SpscRuns.Configuration`, which `SpscWitness.AssertionsNeedSize` proves to be exactly those in
  which nothing goes wrong: `1 <= size < 2^63`, or `size <= 2` for a maximum of 2^63.
* The bytes of a block, `sizeof(T) * capacity` with header and alignment, fit in a word, so
  that a `malloc` that succeeds has returned as much memory as the block takes up.
* A block's address is its position in allocation order; `malloc` answers arbitrarily, except
  that the constructor's allocations succeed (the code aborts otherwise).
* Moving an element out and destroying it is one step, and so is constructing it.
* One producer and one consumer thread, as the header demands.

## Where code and intent part

* The constructor takes sizes that it cannot serve. A queue built for `size == 0` can fail its
  own assertion at line 351 in a sequential use: a block of one cell is full when it looks
  empty. For `size >= 2^63`, such as `size_t(-1)`, rounding up wraps to 0, the block has no
  cells, and the first element is constructed outside of it. For a maximum block size of 2^63
  the number of blocks wraps to 0 from size 3 on. `AssertionsNeedSize` proves that these, over
  all sizes and maxima, are the only ones.
* `signal(0)` passes its assertion and can post to a waiter without a permit, so that a wait
  returns true for nothing. `GrantsNeedSignals` proves that runs keep to the permits signalled
  exactly when every signal adds at least one.
* `filter` answers zeros when both coefficient lists have one entry, although the difference
  equation asks for `b[0]/a[0]` times the input. `SolvesExactlyWhen` gives the
  exact condition.
* A comment (95-96) says that an additional block has the size of the last one; the code
  doubles the size while it is below the maximum (605). The model follows the code.

## Model

| member | source | states |
|---|---|---|
| SpscTheorems.RefinesFifo | src/readerwriterqueue.h:308-369 | Every step of every run is a step of a plain FIFO queue: an element joins the back exactly at the store to `tail` (568) or `tailBlock` (601, 631), the front element leaves exactly at the store to `front` (324, 368), which hands over that very element, and no other step of either thread changes the queue |
| SpscTheorems.MemoryHoldsFifo | src/readerwriterqueue.h:78-88 | In every reachable state, memory read block by block from front to tail is exactly the sequence sent and not yet received (its first cell raw between destruction and the store to `front`) |
| SpscTheorems.ReceivedIsPrefix | src/readerwriterqueue.h:281-283 | What the consumer has received is a prefix of what the producer has sent, in every reachable state |
| SpscTheorems.FalseMeansEmpty | src/readerwriterqueue.h:298-306 | A dequeue, pop or peek that returns empty-handed exhibits an instant inside that very call at which the queue was empty, in spite of stale copies and separate reads of `tail` and `tailBlock` |
| SpscTheorems.NeverStuck | src/readerwriterqueue.h:339-356 | No step of either thread, in any run, reads a bad address, constructs over a live object, moves from or destroys a dead one, or fails an assertion (351, 416, 467, 588, 618) |
| SpscCalls.EnqueueOutcome | src/readerwriterqueue.h:231-270 | Every `try_enqueue` and `enqueue` of every run: the call's element is sent exactly if it returns true; a call that may not allocate makes no block and is never on its way to one; one that may is never refused, and runs out of memory exactly if malloc refused it a block; a block made is of twice the largest size until that reaches the maximum |
| SpscCalls.DequeueOutcome | src/readerwriterqueue.h:281-489 | Every `try_dequeue`, `pop` and `peek` of every run: the first hands over the oldest element not yet received and only it hands one over, `pop` removes it, `peek` gives an address and leaves `frontBlock` and every `front` alone, and a call that comes back empty-handed takes nothing |
| SpscTheorems.RefusalMeansFull | src/readerwriterqueue.h:603-636 | An enqueue that refuses, runs out of memory or sets out to allocate exhibits an instant inside that call at which every block but the front one (or the only one) was full and the queue held at least the `size` it was built for (which of the three a call may come to: SpscCalls.EnqueueOutcome) |
| SpscTheorems.FullBlocksHold | src/readerwriterqueue.h:118-123 | All blocks but the front one full, each with at least `least` usable cells: the queue holds at least `(blocks - 1) * least` elements, or `least` in an only block |
| SpscTheorems.NoRoomMeansSize | src/readerwriterqueue.h:101-104 | With the constructor's block count and size, no room ahead of the producer means at least `size` elements in the queue |
| SpscTheorems.BlockSizes | src/readerwriterqueue.h:605-611 | In every reachable state each block, built or grown, has a power-of-two size between 2 and twice the maximum, and is no smaller than the blocks made before it |
| SpscTheorems.ReachableInv | src/readerwriterqueue.h:78-96 | The whole invariant (one cycle of blocks, masked indices as residues of ordered counters, every cell live or raw exactly as the counters say, elements in order along the ring, what each thread's local variables know) holds in every reachable state |
| SpscTheorems.ReachableRoomy | src/readerwriterqueue.h:95-96 | Blocks never become fewer or smaller than the constructor made them, and later ones are at least as large |
| SpscRuns.StepKeeps | src/readerwriterqueue.h:540-644 | Every step of either thread from any state with the invariant leads to one with the invariant |
| SpscRuns.EnoughBlocks | src/readerwriterqueue.h:116-123 | The constructor's wrapped arithmetic yields enough blocks, for every working configuration: without the front block they have room for `size` elements, and an only block has it alone |
| SpscRuns.InitialBlocks | src/readerwriterqueue.h:116-157 | What is built for a size: one empty block of the least power of two above it, if that is at most twice the maximum; otherwise as few blocks of the maximum size as hold `size` elements without the front one |
| SpscRuns.InitialInv | src/readerwriterqueue.h:114-157 | The constructor's state satisfies the invariant |
| SpscStructure.RingIsFilled | src/readerwriterqueue.h:572-631 | In every reachable state the linked blocks form one cycle; those strictly between front and tail block are exactly full, a tail block ahead of the front block is not empty, and those after the tail are empty but for one filled and not yet published |
| SpscStructure.LeavesNothingBehind | src/readerwriterqueue.h:334-356 | When the consumer moves `frontBlock` on, the block it leaves is empty and the block it goes to is the next one and holds an element |
| SpscStructure.ShadowsSound | src/readerwriterqueue.h:312-321 | Each block's indices are residues of counters with localFront <= front <= localTail <= tail <= localFront + sizeMask in every reachable state; over each step no counter falls, and `front` and `tail` move exactly at their owner's stores |
| SpscStructure.PeekedAddressHolds | src/readerwriterqueue.h:379-421 | The address returned by `peek` stays the address of the live first element until the consumer's next call, whatever the producer does meanwhile |
| SpscStructure.IdleIsQuiescent | src/readerwriterqueue.h:202-204 | Whenever a run finds both threads between calls, the state is a valid sequential object with the same contents |
| SpscProgress.EnqueueEnds | src/readerwriterqueue.h:22-24 | A producer call in any run ends after at most 11 steps of its own, whatever the consumer does or leaves undone, and until then its next step can always be taken |
| SpscProgress.DequeueEnds | src/readerwriterqueue.h:22-24 | The same for a consumer call, with at most 13 steps |
| SpscSafety.ProducerIsSafe | src/readerwriterqueue.h:586-618 | Under the invariant the producer constructs in raw memory only and its assertions hold |
| SpscSafety.ConsumerIsSafe | src/readerwriterqueue.h:345-363 | Under the invariant the consumer takes a live object only and its assertion holds |
| SpscProducer.StoresTail | src/readerwriterqueue.h:568 | After the store to `tail` memory holds the history with exactly the producer's element more, at the end of the tail block, and the invariant stands |
| SpscProducer.Publishes | src/readerwriterqueue.h:600-631 | After the store to `tailBlock` memory holds the history with exactly the element more that was filled in ahead, and the invariant stands |
| SpscProducer.Links | src/readerwriterqueue.h:621-622 | After the new block is linked all blocks are one cycle again, the new one right after the full tail block, and the invariant stands |
| SpscConsumer.StoresFront | src/readerwriterqueue.h:321-324 | After the store to `front` memory holds the history less its first element, and what the consumer has received is still a prefix of what was sent |
| SpscConsumer.StoresFrontBlock | src/readerwriterqueue.h:354-356 | After moving on the ring starts at the next block, the block left is empty behind the tail, and the invariant stands |
| SpscConsumer.LoadsTailBlock | src/readerwriterqueue.h:326-329 | A consumer that finds `tailBlock` where it is gives up only if the queue was empty at some instant of the call; one that finds it elsewhere has a block ahead |
| SpscConsumer.ReloadsFront | src/readerwriterqueue.h:330-337 | After the second look, equal indices mean that the front block is used up and a block is ahead |
| SpscInterference.ProducerHolds | src/readerwriterqueue.h:341-350 | No producer step disturbs what the consumer has read and relies on |
| SpscInterference.ConsumerHolds | src/readerwriterqueue.h:573-588 | No consumer step disturbs what the producer has read and relies on |
| SpscContents.MemoryIsFifo | src/readerwriterqueue.h:217-218 | The cells visited from `front` to `tail`, from the front block to the tail block, are the queue's elements in order |
| SpscWitness.SecondLookNeeded | src/readerwriterqueue.h:298-302 | The race exists: a run in which the consumer found the front block empty and the tail block elsewhere, while the front block by then holds the oldest element and the next block a later one |
| SpscWitness.SizeZeroFails | src/readerwriterqueue.h:349-351 | A run of a queue built for size 0, for any maximum below 2^63, that is about to fail the assertion |
| SpscWitness.LargeSizeFails | src/readerwriterqueue.h:116-154 | For every size from 2^63 up, a run of three actions that is about to construct the first element outside of a block without cells |
| SpscWitness.NoBlockFails | src/readerwriterqueue.h:117-144 | For a maximum of 2^63 and every size from 3 up, a run that is about to look into a block that was never made |
| SpscWitness.AssertionsNeedSize | src/readerwriterqueue.h:105-157 | For every 64-bit size and every maximum that the constructor's assertions let through: every run is free of failed assertions and undefined steps if and only if 1 <= size < 2^63, or, for a maximum of 2^63, size <= 2 |
| Bits.MaskIsSlot | src/readerwriterqueue.h:713-715 | For a power-of-two size, `& sizeMask` picks the ring cell of an unbounded counter |
| Bits.SlotIsModulo | src/readerwriterqueue.h:713-715 | That cell is the counter modulo the size |
| Bits.SlotNext | src/readerwriterqueue.h:321 | The masked increment of an index follows the increment of its counter |
| Bits.SlotInjective | src/readerwriterqueue.h:81-83 | Counters less than a lap apart share a cell only if they are equal |
| Bits.MaskedDistance | src/readerwriterqueue.h:502 | `(tail - front) & sizeMask` is the number of elements, although the subtraction wraps at 64 bits |
| Rounding.CeilToPow2 | src/readerwriterqueue.h:654-666 | For every 64-bit word: the least power of two not below x for 1 <= x <= 2^63, and 0 for the others |
| Rounding.SmearDoubles | src/readerwriterqueue.h:658-663 | Or-ing with the right shift doubles the run of set bits below the top one |
| ReaderWriterQueues.ReaderWriterQueue.BuildBlocks | src/readerwriterqueue.h:116-155 | For every size and maximum: one block of the rounded size, or a closed ring of maximum-size blocks, as wrapped arithmetic has it |
| ReaderWriterQueues.ReaderWriterQueue.BuildRing | src/readerwriterqueue.h:125-143 | The linking loop makes each block point to the next and the last to the first; no blocks give a null first block |
| ReaderWriterQueues.ReaderWriterQueue.constructor | src/readerwriterqueue.h:105-161 | For every size and every maximum that passes the assertions, the state from which the two threads start; a valid, empty queue for the working configurations |
| ReaderWriterQueues.ReaderWriterQueue.Adopt | src/readerwriterqueue.h:202-204 | The object in the state that a run of the two threads left between calls |
| ReaderWriterQueues.ReaderWriterQueue.InnerEnqueue | src/readerwriterqueue.h:540-644 | Succeeds exactly if there is room or it may allocate and can; appends exactly that element; takes exactly one unit of room, or links exactly one block of the doubled (or maximal) size and gains its cells; keeps `frontBlock` and the `front` and `localTail` of every block |
| ReaderWriterQueues.ReaderWriterQueue.EnqueueInTailBlock | src/readerwriterqueue.h:558-568 | The fast path appends the element, uses one cell and keeps the consumer's indices |
| ReaderWriterQueues.ReaderWriterQueue.EnqueueInNextBlock | src/readerwriterqueue.h:578-601 | The next block is not the front block and was empty, as asserted at 588; the element goes there and to the end of the queue, and it becomes the tail block |
| ReaderWriterQueues.ReaderWriterQueue.EnqueueInNewBlock | src/readerwriterqueue.h:604-631 | A new block, twice the largest so far until the maximum is reached, holds the element; the capacity grows by its usable cells and all but one of them are room |
| ReaderWriterQueues.ReaderWriterQueue.TryDequeue | src/readerwriterqueue.h:285-376 | Hands out the oldest element and removes it, or nothing exactly when the queue is empty; keeps the producer's indices and the links |
| ReaderWriterQueues.ReaderWriterQueue.Pop | src/readerwriterqueue.h:426-489 | Removes the oldest element, false exactly when the queue is empty |
| ReaderWriterQueues.ReaderWriterQueue.Peek | src/readerwriterqueue.h:384-421 | Block and cell of the live oldest element, nothing exactly when the queue is empty; nothing is written but `localTail` of the front block |
| ReaderWriterQueues.ReaderWriterQueue.AdvanceFrontBlock | src/readerwriterqueue.h:339-356 | The next block holds an element, as asserted at 351; moving on to it keeps the contents and brings the oldest element under `front` |
| ReaderWriterQueues.ReaderWriterQueue.TakeFront | src/readerwriterqueue.h:316-324 | Removes and returns exactly the first element |
| ReaderWriterQueues.ReaderWriterQueue.SizeApprox | src/readerwriterqueue.h:493-506 | On a quiet queue the walk terminates and its sum is the exact length |
| ReaderWriterQueues.ReaderWriterQueue.MaxCapacity | src/readerwriterqueue.h:517-527 | On a quiet queue the walk terminates and its sum is the number of usable cells of all blocks |
| SpscWalk.WalkByProducer | src/readerwriterqueue.h:491-527 | Called by the producer while the consumer works: the walk ends within three steps a block; `size_approx` is at least the length at its end and at most the length at its start; `max_capacity` is exact |
| SpscWalk.WalkByConsumer | src/readerwriterqueue.h:491-527 | Called by the consumer while the producer works: at most three steps for each block there is by then, so only new blocks keep the walk going; the result lies between the length at its start and that at its end, with an element about to be published, and likewise for the capacity |
| SpscWalk.RingTotal | src/readerwriterqueue.h:495-505 | In every reachable state the blocks' elements add up round the ring to the queue's length and the element about to be published, their masks to the usable cells of the linked blocks |
| ReaderWriterQueues.TryEnqueueAll | src/readerwriterqueue.h:508-517 | From an empty queue exactly `max_capacity` consecutive `try_enqueue` calls succeed, the next fails, and the queue holds them in order |
| ReaderWriterQueues.ReaderWriterQueue.DestroyElements | src/readerwriterqueue.h:214-221 | Destroys exactly the elements of a block, in order; each cell destroyed was live, none is met twice, no other cell is touched, and none is left live |
| ReaderWriterQueues.ReaderWriterQueue.Destroy | src/readerwriterqueue.h:204-228 | Every block is freed exactly once; the elements destroyed are exactly those in the queue, in order, so that with those received they are all ever sent; no object is left alive |
| Lifecycle.Ledger | src/readerwriterqueue.h:317-319 | At every instant of a run the values constructed in cells are those sent and the one about to be published, in order, and the values destroyed are those received and the one in hand |
| Lifecycle.DestroyAfter | src/readerwriterqueue.h:202-228 | Any run, then the destructor: the values constructed are exactly those destroyed, in order, by the consumer and then by the destructor, and each block is freed once |
| Semaphore.PermitsConserved | src/atomicops.h:585-663 | In every run initial plus signalled permits equal those granted plus `m_count` plus the one a registered waiter covers; `m_count >= -1`; grants never exceed permits |
| Semaphore.NoPostLeaks | src/atomicops.h:601-625 | Kernel value plus posts in flight is 1 exactly when the registered waiter has been assigned a signal, and 0 whenever it is not waiting, timed-out returns included |
| Semaphore.RetryMeansPostPending | src/atomicops.h:616-625 | The re-adjust loop goes round only while the signaler is between its increment and its post |
| Semaphore.LandedPostIsTaken | src/atomicops.h:621-624 | Once the post has landed, the loop does not go round again, whatever the signaler does: each step of the waiter uses up one of at most three, and after the last it has returned true |
| Semaphore.DeniedMeansUnsignalled | src/atomicops.h:616-620 | A registered wait that returns false was assigned no signal, took no permit and leaves no post behind |
| Semaphore.DeniedMeansNone | src/atomicops.h:616-642 | Every wait that returns false, registered or not, does so on seeing no permit outstanding |
| Semaphore.WaitOutcome | src/atomicops.h:585-652 | `tryWait` looks once and never registers or sleeps; a wait registers after 1025 looks in vain, sleeps with the timeout it was given and not for a timeout of 0, and returns false only after those looks and, but for a timeout of 0, after the kernel let it come back empty-handed |
| Semaphore.AvailableIs | src/atomicops.h:665-669 | `availableApprox` is the number of permits not granted and not registered for, and 0 while a waiter is ahead of them |
| Semaphore.GrantsNeedSignals | src/atomicops.h:654-663 | Waits are never granted more permits than there were, in any run, if and only if every signal adds at least one |
| Semaphore.ZeroSignalOvergrants | src/atomicops.h:656-662 | A run with `signal(0)` in which a wait returns true without a permit |
| Semaphore.Reachable | src/atomicops.h:585-663 | The whole invariant (conservation, the account of posts, the bounds on `m_count` at each position, the signals since registration) holds in every reachable state |
| BlockingQueue.GrantedMeansDelivered | src/readerwriterqueue.h:861-903 | In every run, after a granted permit the inner dequeue or pop succeeds: the assertions on its result hold (which of the two a call makes: BlockingCalls.TakeReturns) |
| BlockingQueue.ElementsArePermits | src/readerwriterqueue.h:822-829 | In every reachable state the queue's length is the permits outstanding, plus one enqueued and not yet signalled, plus one whose permit the consumer holds |
| BlockingQueue.SizeWhenQuiet | src/readerwriterqueue.h:947-950 | Between calls `size_approx` is the exact length |
| BlockingQueue.SizeAlways | src/readerwriterqueue.h:945-950 | At any time `size_approx` is at most the length, and less only by an element whose permit a registered waiter covers, whose signal is to come, or which is being taken |
| BlockingCalls.EnqueueReturns | src/readerwriterqueue.h:781-841 | Every `enqueue` and `try_enqueue` returns true exactly if it has put its element in, and then it has signalled exactly once; otherwise neither; a `try_enqueue` makes no block |
| BlockingCalls.EnqueueRefused | src/readerwriterqueue.h:781-841 | One that returns false exhibits an instant of the call at which the queue held at least the size it was built for; an `enqueue` also the malloc that failed |
| BlockingCalls.TakeReturns | src/readerwriterqueue.h:857-943 | `try_dequeue`, `wait_dequeue` and `wait_dequeue_timed` that return true hand over the oldest element not yet received, `pop` removes it, each for one permit; one that returns false takes neither, and `wait_dequeue` does not; `peek` takes nothing and returns an address unless the queue looks empty |
| BlockingCalls.TakeWaits | src/readerwriterqueue.h:861-903 | `try_dequeue` and `pop` look once and never sleep; `wait_dequeue_timed` waits once, with its own timeout, and returns false only after 1025 looks in vain and a kernel wait that came back empty-handed; `wait_dequeue` sleeps without a limit |
| BlockingCalls.LookFalseMeansEmpty | src/readerwriterqueue.h:921-929 | A `peek` that returns null exhibits an instant of the call at which the queue was empty |
| BlockingQueue.NoLostWakeUp | src/readerwriterqueue.h:873-883 | In every reachable state, a consumer asleep in the kernel with no post there and no signal in progress sleeps before an empty queue |
| BlockingQueue.FalseMeansNoPermit | src/readerwriterqueue.h:857-903 | A `try_dequeue`, `pop` or timed wait returns false at an instant with no permit outstanding, the queue empty but for one element whose signal is in progress |
| BlockingQueue.NeverStuck | src/readerwriterqueue.h:822-943 | No call of either thread gets into an undefined step or a failed assertion of the queue or the semaphore; the consumer is held up only by the kernel and only without a post; between calls every call can begin |
| BlockingQueue.StepKeeps | src/readerwriterqueue.h:822-943 | Every step of the composition keeps both invariants and the balance between elements and permits |
| Filters.Filter | src/synthesis/filter.cpp:3-59 | The output solves the normalised difference equation with the incoming state, and each entry of the outgoing state, of one entry less than the longer coefficient list, is the tail sum of past inputs and outputs, in both branches and for any length of the incoming state; with one coefficient on either side the output is zero |
| Filters.StateOfAnyLength | src/synthesis/filter.cpp:27 | An incoming state of another length stands for its first entries, or for itself followed by zeros; the first output is the first entry of the state and the first input's share |
| Filters.Run | src/synthesis/filter.cpp:29-42 | The recursive branch: solution and state after each sample, with the state shifted in place |
| Filters.RunFir | src/synthesis/filter.cpp:43-56 | The same for the branch without feedback |
| Filters.StateMoves | src/synthesis/filter.cpp:34-36 | The tail sum for entry j after one more sample is that for entry j + 1 before, plus the new input and less the new output |
| Filters.AnswersUnique | src/synthesis/filter.cpp:31 | The difference equation has no other solution |
| Filters.FromRest | src/synthesis/filter.cpp:13-42 | From zero state the output satisfies sum a[k] y[n-k] = sum b[k] x[n-k] with the coefficients as given |
| Filters.FilterChunksJoin | src/synthesis/filter.cpp:27-56 | Filtering two chunks in turn with the state carried over gives the output and the final state of the whole signal |
| Filters.OneAnswer | src/synthesis/filter.cpp:26-58 | Coefficients, incoming state and input determine the output, single-coefficient lists included |
| Filters.SolvesExactlyWhen | src/synthesis/filter.cpp:29-58 | The answer solves the difference equation if and only if a coefficient list has two entries, or the one numerator coefficient is zero, or the input is silent |
| Signals.ProductIsCascade | src/synthesis/sosfilter.cpp:12 | Applying the product of two coefficient lists is applying one after the other |
| Signals.Commute | src/synthesis/sosfilter.cpp:8-14 | Two filters can be applied in either order |
| SosFilters.SosFilter | src/synthesis/sosfilter.cpp:3-17 | Each section's output answers its own input with its own state and coefficients, and each state vector is left as its section leaves it |
| SosFilters.SectionFromRest | src/synthesis/sosfilter.cpp:8-12 | From rest, every section's output and input satisfy a0 y(n) + a1 y(n-1) + a2 y(n-2) = b0 u(n) + b1 u(n-1) + b2 u(n-2) in the section's own six numbers |
| SosFilters.CascadeIsOneFilter | src/synthesis/sosfilter.cpp:7-14 | From rest, for any number of sections and samples, output and input satisfy the one difference equation whose coefficients are the products of all numerators and of all denominators |
| SosFilters.CascadeChunksJoin | src/synthesis/sosfilter.cpp:3-17 | Two chunks through the whole cascade, every section's state carried over, pass through the stages of the joined signal and leave its states |
| SosFilters.ChunkedRunIsWholeRun | src/synthesis/sosfilter.cpp:3-17 | Running the cascade on the joined signal gives the two chunks' outputs one after the other and the same states |
| PolyFromRoots.MultiplyRoot | src/synthesis/polyFromRoots.cpp:12-14 | The descending in-place loop multiplies the polynomial by (x - z_j), and leaves zeros beyond its degree |
| PolyFromRoots.CreatePolynomialFromRoots | src/synthesis/polyFromRoots.cpp:3-22 | The real parts of the coefficients of the product of (x - z_j), for any roots |
| PolyFromRoots.LeadingOne | src/synthesis/polyFromRoots.cpp:7 | The leading coefficient is 1 |
| PolyFromRoots.ExpandIsProduct | src/synthesis/polyFromRoots.cpp:9-15 | The coefficients evaluate at every complex x to the product of (x - z_j) |
| PolyFromRoots.RootsExactly | src/synthesis/polyFromRoots.cpp:9-15 | The polynomial is zero at the roots and nowhere else |
| PolyFromRoots.SameRoots | src/synthesis/polyFromRoots.cpp:9-15 | Two root lists give the same coefficients if and only if one is a reordering of the other |
| PolyFromRoots.ConjugateRoots | src/synthesis/polyFromRoots.cpp:9-15 | Conjugating the roots conjugates the coefficients |
| PolyFromRoots.ProjectionLossless | src/synthesis/polyFromRoots.cpp:17-20 | Taking real parts loses nothing if and only if the roots are closed under conjugation, with multiplicity |
| PolyFromRoots.RealPoints | src/synthesis/polyFromRoots.cpp:17-20 | For any roots, the real polynomial takes at every real x the real part of the product |
| PolyFromRoots.AppendConjugates | src/synthesis/shiftFilter.cpp:38-41 | The pairing loop appends the conjugates in order |
| PolyFromRoots.PairsExact | src/synthesis/shiftFilter.cpp:38-50 | For a list followed by its conjugates the real coefficients are the product's own, and the real polynomial vanishes at exactly those roots |

## Left out

- Weak memory: the fences and the acquire and release orderings of `src/atomicops.h`; steps are sequentially consistent.
- The Windows, Mach and POSIX semaphores and their `timespec` arithmetic: foreign calls, replaced by the kernel counter.
- The threads as imperative methods: their steps interleave, so `inner_enqueue` and the consumer's calls under two threads are a transition function on values; the sequential object has them as methods on fields.
- Block memory as bytes (`align_for`, `make_block`'s address arithmetic, cache-line padding): a block's cells are a sequence of raw or live slots, replaced as a whole by an update.
- `ReentrantGuard`, moves and swaps of whole queues, exceptions from element constructors and destructors: easy or environmental.
- Overflow of `m_count` and of the sums in `size_approx` and `max_capacity`: memory runs out first.
- ReaderWriterQueues.ReaderWriterQueue.SizeApprox: states the result for a quiet queue, as a method on fields; calls while the other thread works are in SpscWalk.
- ReaderWriterQueues.ReaderWriterQueue.MaxCapacity: states the result for a quiet queue, as a method on fields; calls while the other thread works are in SpscWalk.
- Filters.Filter: does not model rounding; coefficients and samples are exact reals.
- PolyFromRoots.CreatePolynomialFromRoots: does not model rounding; complex numbers are pairs of exact reals.
- `try_emplace`, `emplace` and the moving overloads, and `max_capacity` of the blocking queue: they only forward.
- Signals of more than one signaling or waiting thread, and the counting use of `signal` by anyone but the queue's producer.
- `src/synthesis/glotLf.cpp`, `noise.cpp`, and `shiftFilter.cpp` beyond the conjugate pairing: transcendental functions and randomness; `zpk2sos` is not part of this model.
- The spectrogram upload, the GUI, configuration, audio devices, threads, loggers and packaging: input and output.
