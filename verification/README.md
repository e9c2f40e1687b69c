# Verified models of the lock-free queues

A Dafny 4.11 project that models the five concurrent structures of this repository and proves what they
are for: the growing single-producer single-consumer queue `moodycamel::ReaderWriterQueue` and its
blocking form, the `LightweightSemaphore` under it, the fixed `SPSCQueue`, the byte ring `SPSCBuffer`,
and the fan-out `SPMCQueue`. `dafny verify dfyconfig.toml` checks all of it.

## How the models are built

Each structure is first a *machine*: a value holding the shared memory and, for each thread, where it
stands inside its operation. One step is one atomic load or store (or one slot construction, one word or
one byte of a copy), and the threads' steps interleave arbitrarily. `Safe` says what the code demands of
the next step: valid pointers, indices in range, construction only in raw storage, destruction only of
objects, and every `assert` of the source. Memory is sequentially consistent, except that the producer of
the fan-out queue has a FIFO store buffer with store-to-load forwarding (total store order), which is what
the repository's README argues from. Block sizes, slot counts and the byte capacity are parameters.

Then each structure that the source updates in place is a *class* whose methods make the source's accesses
in the source's order. Between any two of them the other thread runs for as long as it likes. Each access is
proved to be the machine's step, and the operations' contracts say what a caller can rely on while the
other thread runs. Blocks of the growing queue are separate objects linked by `next`; the fields are tied
to the machine's state by the class invariant, which also says that some run of the machine from its constructor
leads to that state with just the answers the two callers have had (`told` and `heard`). The operations of
the growing queue, the fixed queue and the byte ring account for every value: `Accounting.Exchanged` says exactly
what went in and what came out during the call, on either side, and that the contents are what that leaves.

| file | what it holds |
|---|---|
| `Fifo.dfy` | the sequential FIFO every queue is refined to: histories, "empty" answers, `peek` |
| `Circular.dfy`, `Words.dfy`, `Accounting.dfy` | circular buffers of slots and their objects; 64-bit arithmetic and masks; what was put, taken and is there |
| `BlockRing.dfy` | the machine of `ReaderWriterQueue`: 17 producer places, 14 consumer places, any number of blocks |
| `BlockRingInvariant.dfy`, `BlockRingSteps.dfy`, `BlockRingRefinement.dfy` | its invariant, one lemma per kind of step, and the results over whole runs |
| `BlockRingCapacity.dfy`, `PowerOfTwo.dfy` | block sizes and their growth, the capacity guarantee, `ceilToPow2` |
| `BlockRingMaxCapacity.dfy` | what `max_capacity` promises: exactly how many elements go in without allocating |
| `BlockRingCalls.dfy` | each enqueue is answered once, about its own element and its own leave to allocate |
| `BlockRingBadSizes.dfy` | the sizes for which the constructor builds an unusable block, and that there are no others |
| `BlockRingWalks.dfy`, `Lifetimes.dfy` | sums round the ring; object lifetimes over whole runs |
| `BlockRingObject.dfy` | `ReaderWriterQueue` as linked objects updated in place |
| `Semaphore.dfy`, `SemaphoreObject.dfy` | `LightweightSemaphore` over a kernel counter |
| `BlockingQueue.dfy` | ring and semaphore together |
| `SpmcQueue.dfy`, `SpmcProof.dfy`, `SpmcQueueObject.dfy` | the fan-out queue under total store order |
| `ByteRing.dfy`, `ByteRingObject.dfy` | the byte ring |
| `SpscQueue.dfy`, `SpscQueueObject.dfy` | the fixed queue with free-running counters |

## What the code does not do as documented

- `ReaderWriterQueue(0)`: the constructor accepts `size == 0`, but line 116 then makes a block with one slot,
  in which an element cannot be told from none. `BlockRingBadSizes.SizeZeroFails` gives a run whose third
  dequeue fails the assertion at line 351.
- `ReaderWriterQueue(size)` for `size >= 2^63`: `ceilToPow2(size + 1)` is 0 in 64 bits, so the branch for many
  blocks is not taken and line 146 asks for a block of no slots, which an allocator can well provide. Its mask
  is `SIZE_MAX`, and the first enqueue constructs behind its end (`BlockRingBadSizes.TooLargeFails`).
  `BlockRingBadSizes.SafeExactlyWhen` proves that these two families are all: every run is safe if and only if
  `1 <= size <= 2^63 - 1`.
- `signal(0)`: `assert(count >= 0)` allows it, but with a waiter below zero it posts a kernel token that was
  never signalled (`Semaphore.SignalZeroRun`). `Semaphore.SignalKeepsExactlyWhen` gives the exact condition; the
  blocking queue always signals 1.

## Model

Each access of a class has a method of its own whose contract says that the fields are afterwards what the
machine's step makes of them: in `BlockRingObject` by the predicates `ProducerTook` and `ConsumerTook`, in the
other classes by an equation between `View()` and the machine's step function. Those of the access methods that
promise no more than this have no row of their own below.

| member | source | states |
|---|---|---|
| `BlockRingRefinement.StepRefines` | include/moodycammel_queue.hpp:285-644 | Every step of either thread, at any point of its operation, is safe, keeps the invariant, and does to the queue (the blocks concatenated from `frontBlock` to `tailBlock`) what its result says and an abstract FIFO allows; a step with no result leaves the queue alone |
| `BlockRingRefinement.RunRefines` | include/moodycammel_queue.hpp:285-644 | Over every interleaving, starting from the constructor, the invariant holds and the results the two callers see are a legal history of one FIFO queue whose contents are those of the blocks |
| `BlockRingRefinement.RunIsFifo` | include/moodycammel_queue.hpp:281-376 | In every run the values enqueued are the values removed followed by what the blocks hold: nothing lost, duplicated, reordered or skipped |
| `BlockRingRefinement.RunNeverUnsafe` | include/moodycammel_queue.hpp:285-644 | In every run every next step is safe: pointers are valid, indices are in their block, elements are constructed only in raw storage, and the assertions at lines 351, 416, 467, 588 and 618 hold |
| `BlockRingRefinement.RunEmptyIsTrue` | include/moodycammel_queue.hpp:281-376 | A consumer call that answers "empty" was right: the queue was empty at some instant of that very call |
| `BlockRingRefinement.RunPeekIsBinding` | include/moodycammel_queue.hpp:379-421 | After `peek` answers an element, the next consumer call to complete succeeds on exactly that element, whatever the producer does in between |
| `BlockRingRefinement.RunRingFilled` | include/moodycammel_queue.hpp:339-356 | In every reachable state, also mid-operation and mid-insertion: blocks between the front block and the tail block are exactly full, the tail block is not empty unless it is the front block, every block behind it is empty except for the producer's one unpublished element, and `next` leads round the ring |
| `BlockRingRefinement.RunCachesConservative` | include/moodycammel_queue.hpp:309-312 | In every reachable state and every block the indices are met in the order `localFront`, `front`, `localTail`, `tail` within one lap, and what lies from `front` to `tail` are the block's elements |
| `BlockRingRefinement.ProducerKeeps` | include/moodycammel_queue.hpp:535-644 | Each of the producer's seventeen kinds of step is safe and keeps the invariant, also mid-operation and mid-insertion; only the `tail` store and the `tailBlock` store change the queue, by appending the element |
| `BlockRingRefinement.ConsumerKeeps` | include/moodycammel_queue.hpp:285-489 | Each of the consumer's fourteen kinds of step is safe and keeps the invariant; only the `front` store changes the queue, by removing its first element, which is the one returned |
| `BlockRingRefinement.EmptyOnlyIfSeen` | include/moodycammel_queue.hpp:298-306 | "Empty" is answered only if the call's own load of `tail` found the queue empty: this is the double-checked read of `tailBlock` |
| `BlockRingRefinement.InitInv` | include/moodycammel_queue.hpp:105-161 | The constructor establishes the invariant, with an empty queue |
| `BlockRingSteps.ProducerIsSafe` | include/moodycammel_queue.hpp:535-644 | The invariant implies that the producer's next step is safe; in particular the spare block is empty (line 588) |
| `BlockRingSteps.ConsumerIsSafe` | include/moodycammel_queue.hpp:285-489 | The invariant implies that the consumer's next step is safe; in particular the next block is not empty (lines 351, 416, 467) |
| `BlockRingSteps.ProducerLinkTail` | include/moodycammel_queue.hpp:621-622 | Linking a new block behind the tail block while the consumer runs keeps the invariant, and the queue is what it was |
| `BlockRingSteps.ProducerPublish` | include/moodycammel_queue.hpp:598-601 | The `tailBlock` store makes the spare block's element the last of the queue and keeps the invariant |
| `BlockRingSteps.ConsumerAdvance` | include/moodycammel_queue.hpp:339-356 | Giving the empty front block to the producer keeps the invariant and the queue |
| `BlockRingCapacity.ConstructorSuffices` | include/moodycammel_queue.hpp:110-124 | In 64-bit arithmetic: the blocks have at least two slots if and only if `1 <= size <= 2^63 - 1`; then they suffice for `size` elements, their size is a power of two, and neither one block fewer nor one block of half the size would suffice. For larger sizes there is one block of no slots, for 0 one block of one slot |
| `BlockRingCapacity.ReservedBlocks` | include/moodycammel_queue.hpp:118-123 | `n = (size + 2M - 3) / (M - 1)` is the least number of blocks with `(n - 1)(M - 1) >= size` |
| `BlockRingCapacity.StepSizes` | include/moodycammel_queue.hpp:603-611 | No step changes a block's size or unlinks a block; an allocation adds one block of the doubled size, or of the same size from `MAX_BLOCK_SIZE` on |
| `BlockRingCapacity.RefusedOnlyWhenFull` | include/moodycammel_queue.hpp:570-635 | The step that answers `false` without allocating: with one block the queue held `size` elements when this call found the block full, with several it holds `size` elements now |
| `BlockRingCapacity.RunSized` | include/moodycammel_queue.hpp:105-161 | In every run of a queue constructed for 1 to 2^63 - 1 elements every block is a power of two between the first size and twice `MAX_BLOCK_SIZE`, and no block is lost |
| `BlockRingCapacity.RunCapacity` | include/moodycammel_queue.hpp:101-104 | In every run of a queue constructed for 1 to 2^63 - 1 elements, also after later allocations, an enqueue, with or without leave to allocate, is refused, or goes on to allocate a block, only if the queue held at least `size` elements at some instant of that very call |
| `BlockRingCapacity.NoSpareOnlyWhenFull` | include/moodycammel_queue.hpp:570-603 | Where the block after a full tail block is the front block: with several blocks the queue holds `size` elements, with one it did when this call found the block full |
| `BlockRingCapacity.RunSeen` | include/moodycammel_queue.hpp:552-557 | The length noted when the tail block was found full is that of the queue at a load of `front` of this very call |
| `BlockRingCapacity.RunGrowth` | include/moodycammel_queue.hpp:605-611 | In every run the constructor's blocks keep their size, and each block allocated later has twice the size of the one before, but at most `MAX_BLOCK_SIZE` unless the first blocks were larger |
| `BlockRingMaxCapacity.TakesTheRest` | include/moodycammel_queue.hpp:508-527 | With the consumer standing still, wherever it is, enqueues without leave to allocate succeed exactly until the room of all blocks is used up, less what is queued and less the room left in the front block if the producer has moved on from it, which is what the note at 511-515 warns of |
| `BlockRingMaxCapacity.EmptyTakesAll` | include/moodycammel_queue.hpp:508-509 | From an empty queue exactly as many succeed as all blocks have room for, one slot of each staying free: of the enqueues that have returned, that many or all |
| `BlockRingMaxCapacity.RunFillsExactly` | include/moodycammel_queue.hpp:508-509 | After steps enough for one enqueue more than that, all the room is filled and an enqueue has been refused |
| `BlockRingMaxCapacity.EnqueuesEnd` | include/moodycammel_queue.hpp:535-644 | An enqueue without leave to allocate is over within eleven steps of its own; it never waits for the consumer |
| `BlockRingMaxCapacity.ConstructedRoom` | include/moodycammel_queue.hpp:101-124 | As constructed for 1 to 2^63 - 1 elements, the queue has room for at least that many |
| `BlockRingCalls.RunAnswersCalls` | include/moodycammel_queue.hpp:232-279 | In every run the enqueues are answered one for one and in turn, and what a call puts in the queue is the element it was given |
| `BlockRingCalls.RunLeave` | include/moodycammel_queue.hpp:603-611 | In every run a block is added only for a call with leave to allocate, and a call with leave is refused only for want of memory |
| `BlockRingCapacity.RunBlockSizes` | include/moodycammel_queue.hpp:605-611 | In every reachable state of such a queue every block size is a power of two from 2 to twice `MAX_BLOCK_SIZE` |
| `BlockRingCapacity.BlockMask` | include/moodycammel_queue.hpp:556 | For such a block `(tail + 1) & sizeMask` is the next index round the block |
| `BlockRingBadSizes.SafeExactlyWhen` | include/moodycammel_queue.hpp:105-157 | Every step of every run is safe if and only if the queue is constructed for `1 <= size <= 2^63 - 1`, for every `size_t` and every power of two `MAX_BLOCK_SIZE` from 2 to 2^62 |
| `BlockRingBadSizes.TooLargeFails` | include/moodycammel_queue.hpp:116-154 | For `size >= 2^63`, 2^64 - 1 included, the first block has no slots, and the first enqueue sees room behind its end |
| `BlockRingBadSizes.SizeZeroFails` | include/moodycammel_queue.hpp:116-154 | For `size == 0` a run of three enqueues and three dequeues reaches a state in which the assertion at line 351 fails |
| `BlockRingBadSizes.ThirdEnqueue` | include/moodycammel_queue.hpp:578-601 | In that run, an element enqueued in the one-slot block leaves its front and tail equal |
| `BlockRingBadSizes.ThirdDequeue` | include/moodycammel_queue.hpp:339-351 | In that run, the consumer moves on to the one-slot block and finds its front equal to its tail |
| `BlockRingWalks.WholeRing` | include/moodycammel_queue.hpp:619-622 | With no enqueue in flight, following `next` from the front block meets every block exactly once |
| `BlockRingWalks.RestIsEmpty` | include/moodycammel_queue.hpp:493-506 | With no enqueue in flight the blocks behind the tail block hold nothing, so the whole ring holds what the queue holds |
| `BlockRingWalks.RingSumIsSum` | include/moodycammel_queue.hpp:517-527 | Adding any measure up round the ring is adding it up over all blocks |
| `BlockRingWalks.AliveIsLength` | include/moodycammel_queue.hpp:204-228 | With no operation in flight, the objects alive in all slots of all blocks are as many as the queue's elements |
| `Lifetimes.RingDestroyedOnce` | include/moodycammel_queue.hpp:204-644 | A run of the block ring, `pop` included, followed by destruction: the elements constructed are, in order, those destroyed by the consumer and then those the destructor destroys, each once; every block is freed exactly once and no object is left in any |
| `Lifetimes.RingRunAlive` | include/moodycammel_queue.hpp:285-644 | At every moment of a run the objects alive in all blocks are as many as have been constructed and not yet destroyed |
| `BlockRingWalks.DestructIs` | include/moodycammel_queue.hpp:204-228 | With no operation in flight the destructor's walk destroys the queue's elements, oldest first, frees every block once, and leaves only raw storage |
| `Lifetimes.SpscDestroyedOnce` | include/spsc_queue.hpp:29-131 | A run followed by destruction: the elements constructed are, in order, those `try_pop` destroyed and then those the destructor destroys, each once; afterwards no slot holds an object |
| `Lifetimes.SpscRunAlive` | include/spsc_queue.hpp:58-131 | At every moment of a run the objects alive are as many as have been constructed and not yet destroyed |
| `SpscQueue.DestructIs` | include/spsc_queue.hpp:29-40 | With no call in flight the destructor's loop, over wrapping counters, destroys the contents, oldest first, and leaves only raw slots |
| `Circular.ClearIs` | include/moodycammel_queue.hpp:217-221 | The destructor's loop round one block destroys its elements in order and leaves only raw slots |
| `PowerOfTwo.CeilToPow2` | include/moodycammel_queue.hpp:654-666 | In 64 bits the smearing loop returns the least power of two not below its argument for 1 to 2^63, and 0 for 0 and above 2^63 |
| `PowerOfTwo.LeastPow2IsLeast` | include/moodycammel_queue.hpp:654-666 | The specification is a power of two, not below x, and below no other power of two that is |
| `PowerOfTwo.Smear` | include/moodycammel_queue.hpp:658-663 | One `x \|= x >> s` doubles the run of ones below the top bit |
| `PowerOfTwo.MaskedNext` | include/moodycammel_queue.hpp:556 | `(i + 1) & sizeMask` is the next index of a block whose size is a power of two |
| `PowerOfTwo.MaskedDist` | include/moodycammel_queue.hpp:502 | `(tail - front) & sizeMask`, with 64-bit wrap-around, is the number of moves from front to tail |
| `BlockRingObject.Layout` | include/moodycammel_queue.hpp:116-124 | For every `size_t`: the constructor's block count and block size, computed with `ceilToPow2` in 64 bits |
| `BlockRingObject.MakeBlocks` | include/moodycammel_queue.hpp:126-143 | The constructor's loop leaves n fresh, distinct blocks, each linked to the next and the last to the first |
| `BlockRingObject.MakeRing` | include/moodycammel_queue.hpp:126-157 | Those blocks are the machine's initial blocks |
| `BlockRingObject.ReaderWriterQueue.constructor` | include/moodycammel_queue.hpp:105-161 | For every `size_t`, memory is left as the machine's initial state for `size`; for 1 to 2^63 - 1 elements the queue is valid and empty, and no one has been told anything |
| `BlockRingObject.ReaderWriterQueue.InnerEnqueue` | include/moodycammel_queue.hpp:535-644 | With the consumer running between any two accesses: the call is one enqueue of a run of the machine, answered `ok`. If true, exactly the element was put, otherwise nothing; what the consumer took meanwhile and what is left are the old contents and the element. It fails, or adds a block (one at most), only if the queue held what it was constructed for, and it does not fail with leave to allocate and memory |
| `BlockRingObject.ReaderWriterQueue.TryDequeue` | include/moodycammel_queue.hpp:285-376 | With the producer running between any two accesses: the call is one dequeue of a run of the machine, answered `result`. If true, exactly the oldest element was taken, and what is left is the old contents less it, and what the producer put; if false nothing was taken, and the queue was empty when it was called |
| `BlockRingObject.ReaderWriterQueue.Pop` | include/moodycammel_queue.hpp:426-489 | The same without the element being returned |
| `BlockRingObject.ReaderWriterQueue.Peek` | include/moodycammel_queue.hpp:384-421 | The call is one peek of a run of the machine. It answers the oldest element and takes nothing; no answer means the queue was empty when it was called; what is there is the old contents and what the producer put |
| `BlockRingObject.ReaderWriterQueue.SizeApprox` | include/moodycammel_queue.hpp:493-506 | With no operation in flight the walk ends and its result is the length of the queue |
| `BlockRingObject.ReaderWriterQueue.MaxCapacity` | include/moodycammel_queue.hpp:517-527 | With no operation in flight the walk ends and its result is the sum of what all blocks can hold, which `BlockRingMaxCapacity.EmptyTakesAll` shows to be what the queue takes |
| `BlockRingObject.ReaderWriterQueue.Destroy` | include/moodycammel_queue.hpp:204-228 | The destructor destroys the queue's elements, oldest first, each exactly once, frees every block exactly once, and leaves no object behind; it is the walk of `BlockRingWalks.Destruct` |
| `BlockRingObject.Block.DestroyElements` | include/moodycammel_queue.hpp:217-221 | The inner loop destroys a block's elements in order and leaves its slots raw |
| `BlockRingObject.ReaderWriterQueue.LoadFront` | include/moodycammel_queue.hpp:557 | When it finds the block full it records how much the queue holds |
| `BlockRingObject.ReaderWriterQueue.StoreTail` | include/moodycammel_queue.hpp:568 | Appends the element to the queue, and answers the caller |
| `BlockRingObject.ReaderWriterQueue.CompareWithFront` | include/moodycammel_queue.hpp:572-635 | That there is no free block means that the queue is, or was when its block was found full, as full as it was constructed for |
| `BlockRingObject.ReaderWriterQueue.LoadNextTail` | include/moodycammel_queue.hpp:583-589 | The assertion that the spare block is empty holds |
| `BlockRingObject.ReaderWriterQueue.Publish` | include/moodycammel_queue.hpp:630-631 | Makes the element the last of the queue, and answers the caller |
| `BlockRingObject.ReaderWriterQueue.LoadTailAsConsumer` | include/moodycammel_queue.hpp:312 | It records whether the queue is empty |
| `BlockRingObject.ReaderWriterQueue.CompareWithTail` | include/moodycammel_queue.hpp:326-373 | "empty" is answered only if the queue was seen empty |
| `BlockRingObject.ReaderWriterQueue.LoadNextTailAsConsumer` | include/moodycammel_queue.hpp:346-352 | The assertion that the next block is not empty holds |
| `BlockRingObject.ReaderWriterQueue.PeekNext` | include/moodycammel_queue.hpp:413-417 | The element answered is the queue's first |
| `BlockRingObject.ReaderWriterQueue.PeekFront` | include/moodycammel_queue.hpp:397-398 | The element answered is the queue's first |
| `BlockRingObject.ReaderWriterQueue.StoreFront` | include/moodycammel_queue.hpp:321-324 | Removes the element from the queue, and answers the caller |
| `BlockRingObject.RanBalances` | include/moodycammel_queue.hpp:281-376 | Whatever answers the two callers have had: the elements put are those taken and then those there |
| `BlockRingObject.ReaderWriterQueue.EnqueueInSpare` | include/moodycammel_queue.hpp:578-601 | The element goes behind what was there, in the free block ahead |
| `BlockRingObject.ReaderWriterQueue.EnqueueInNew` | include/moodycammel_queue.hpp:604-631 | The element goes behind what was there, in a new block, unless there is no memory |
| `BlockRingObject.ReaderWriterQueue.FindFront` | include/moodycammel_queue.hpp:308-340 | The front element is in the front block or in the next one, or there was none when the call began |
| `Fifo.NothingLost` | include/moodycammel_queue.hpp:281-283 | In a legal history the values enqueued are the values removed followed by the contents |
| `Fifo.EmptyAnswerIsTrue` | include/moodycammel_queue.hpp:281-283 | In a legal history every answer "empty" is right at some instant of its call |
| `Fifo.PeekIsBinding` | include/moodycammel_queue.hpp:379-383 | In a legal history the call after a `peek` succeeds on the element answered |
| `Fifo.WithinBound` | include/spsc_queue.hpp:66-70 | In a legal history of a bounded queue the contents never exceed the bound |
| `Circular.HoldsObjects` | include/spsc_queue.hpp:29-40 | A quiet circular buffer has exactly one object for each of its elements |
| `BlockingQueue.RunGrantsFindElements` | include/moodycammel_queue.hpp:861-943 | In every run of the blocking queue every semaphore grant finds an element: no dequeue or pop behind a grant answers "empty", so the assertions on `success` and `result` hold, and nothing else asserted fails |
| `BlockingQueue.RunDeliversInOrder` | include/moodycammel_queue.hpp:784-943 | In every run of the blocking queue the elements enqueued are those delivered followed by those still queued, and as many have been delivered as grants have been used |
| `BlockingQueue.RunRefusalIsTrue` | include/moodycammel_queue.hpp:861-943 | In every run, at the load of `m_count` that makes `try_dequeue` or `pop` return false, and at the `fetch_add` that makes `wait_dequeue_timed` return false, the queue is empty but for one element whose signal is still to come; the call is over then, and `wait_dequeue` waits once more |
| `BlockingQueue.RunWaitsItsTime` | include/moodycammel_queue.hpp:892-903 | In every run `wait_dequeue_timed` with a timeout other than 0 returns false, and `wait_dequeue` waits once more, only after the kernel gave up in that very wait |
| `BlockingQueue.RunTryNeverWaits` | include/moodycammel_queue.hpp:930-941 | In every run `pop` and `try_dequeue` never spin or block |
| `BlockingQueue.RunEndsWithElement` | include/moodycammel_queue.hpp:875-883 | In every run `wait_dequeue` ends only by delivering an element, however often the kernel gives up, and so does any call that has its grant |
| `BlockingQueue.RunIsBoth` | include/moodycammel_queue.hpp:784-943 | A run of the blocking queue is, step for step, a run of the ring and a run of the semaphore, so all that holds of every run of those holds here |
| `BlockingQueue.RunCapacity` | include/moodycammel_queue.hpp:784-841 | In every run an enqueue of the blocking queue fails, or adds a block, only if the queue held what it was constructed for at some instant of that very call |
| `BlockingQueue.RunAgrees` | include/moodycammel_queue.hpp:784-943 | In every run the results are a legal FIFO history, and elements queued are tokens signalled plus those about to be, less grants already used |
| `BlockingQueue.AlwaysSafe` | include/moodycammel_queue.hpp:784-943 | Under that balance every next step of either thread is safe |
| `BlockingQueue.GrantFindsElement` | include/moodycammel_queue.hpp:863-866 | While a grant is unused the queue is not empty |
| `BlockingQueue.ProducerKeeps` | include/moodycammel_queue.hpp:784-841 | Enqueue-then-signal keeps the balance at every step |
| `BlockingQueue.ConsumerKeeps` | include/moodycammel_queue.hpp:861-943 | Wait-then-dequeue, and `peek`, keep the balance at every step |
| `BlockingQueue.QuietSizeIsExact` | include/moodycammel_queue.hpp:945-950 | With no call in flight, `size_approx` is the length of the queue |
| `Semaphore.StepKeeps` | include/atomicops.h:678-756 | Token conservation is kept by every step: `m_count` is signalled less granted, less one while a decrement is outstanding; the kernel owes one token exactly when the waiter is outstanding and a token exists for it, and nothing while the waiter is outside |
| `Semaphore.RunConserves` | include/atomicops.h:678-756 | Over every interleaving and however waits end, grants never exceed signals; a refusal changes neither |
| `Semaphore.RunNoLostWakeup` | include/atomicops.h:694-703 | In every run a waiter blocked in the kernel while a token exists is granted it by the signaller's pending post (if any) and its own next step, and nothing more is owed |
| `Semaphore.RunWaitsIt` | include/atomicops.h:678-745 | In every run a `wait` with a timeout other than 0 is refused only when no token is left, and only after the kernel gave up in that very call |
| `Semaphore.RefusedOnlyThen` | include/atomicops.h:678-745 | Any call is refused only when every token signalled has been granted |
| `Semaphore.TryIsShort` | include/atomicops.h:727-735 | `tryWait` never spins, decrements blindly or blocks |
| `Semaphore.RunLeavesNothingBehind` | include/atomicops.h:703-719 | In every run, once the waiter is outside again, `m_count` is exact and the kernel owes nothing: a timed-out wait consumed nothing |
| `Semaphore.RunAssertionHolds` | include/atomicops.h:750-751 | In every run `oldCount >= -1` holds whenever `signal` is called |
| `Semaphore.SignalKeepsExactlyWhen` | include/atomicops.h:747-756 | `signal(n)` keeps the books if and only if `n >= 1` or no waiter has gone below zero |
| `Semaphore.SignalZeroInventsToken` | include/atomicops.h:747-756 | `signal(0)` with a blocked waiter wakes it with a token never signalled |
| `Semaphore.SignalZeroRun` | include/atomicops.h:678-756 | A run from the constructor, through the whole spin, in which nothing is ever signalled and a wait succeeds after `signal(0)` |
| `Semaphore.SignalAlwaysSafe` | include/atomicops.h:750-751 | `oldCount >= -1` holds whenever `signal` is called |
| `Semaphore.NoLostWakeup` | include/atomicops.h:694-703 | A blocked waiter for whom a token exists is owed exactly one by the kernel |
| `Semaphore.RestoreRoundEnds` | include/atomicops.h:709-718 | A round of the restore loop that starts with no post under way ends the loop |
| `Semaphore.CountBounds` | include/atomicops.h:678-756 | `m_count` is never below -1, the kernel never holds more than one token, and while the waiter is outside `m_count` is exact and the kernel holds none |
| `SemaphoreObject.LightweightSemaphore.constructor` | include/atomicops.h:722-725 | The initial count is the number of tokens |
| `SemaphoreObject.LightweightSemaphore.Add` | include/atomicops.h:750-751 | The `fetch_add` is the machine's step, and the assertion on the value returned holds |
| `SemaphoreObject.LightweightSemaphore.SignalTokens` | include/atomicops.h:747-756 | With the waiter running between the accesses: exactly n tokens are added and no post is left undone |
| `SemaphoreObject.LightweightSemaphore.Move` | include/atomicops.h:678-735 | Each of the waiter's accesses is the machine's step |
| `SemaphoreObject.LightweightSemaphore.TryWait` | include/atomicops.h:727-735 | Takes exactly one token and returns true, or takes none, which happens only if there was none when it was called |
| `SemaphoreObject.LightweightSemaphore.WaitWithPartialSpinning` | include/atomicops.h:678-719 | With the signaller racing at every access: true means exactly one token was taken; false means none was, and there was none when it began, and the timeout is 0 or the kernel gave up |
| `SemaphoreObject.LightweightSemaphore.RestoreLoop` | include/atomicops.h:709-718 | The decrement is handed back, which happens only if there was no token when the loop began, or the token that arrived meanwhile is taken |
| `SemaphoreObject.LightweightSemaphore.WaitFor` | include/atomicops.h:737-745 | True means exactly one token was taken; false means none was, and there was none when it was called, and the timeout is 0 or the kernel gave up |
| `SemaphoreObject.LightweightSemaphore.AvailableApprox` | include/atomicops.h:758-762 | Exact while no wait is under way, never too high, and at most one too low |
| `SpmcProof.NoTornReads` | include/spmc_queue_trivially_copiable.hpp:110-118 | When `pop` returns true its word-by-word copy is message number `reader`, whole, for any number of consumers and any draining of the store buffer |
| `SpmcProof.EmptyExactly` | include/spmc_queue_trivially_copiable.hpp:101-106 | `pop` returns false if and only if message number `reader` was not published at the first version load |
| `SpmcProof.AbortsExactly` | include/spmc_queue_trivially_copiable.hpp:103-113 | A consumer aborts if and only if the push one lap ahead has begun by one of its two version loads |
| `SpmcProof.RunFansOut` | include/spmc_queue_trivially_copiable.hpp:55-119 | In every run, what `pop` has returned to a consumer is the gap-free, duplicate-free stretch of the messages pushed that starts with the first whose store of `writer` had not reached memory when the consumer was made |
| `SpmcProof.WasMade` | include/spmc_queue_trivially_copiable.hpp:55-58 | Every consumer of a run was made at some point of it, so that holds of each |
| `SpmcProof.RunDrained` | include/spmc_queue_trivially_copiable.hpp:55-67 | When every store has reached memory and no push is in flight, a consumer made then gets no message pushed before |
| `SpmcProof.RunBooks` | include/spmc_queue_trivially_copiable.hpp:81-91 | In every run `writer` in memory is the number of its stores that have arrived, and the messages are those pushed |
| `SpmcProof.RunInv` | include/spmc_queue_trivially_copiable.hpp:81-119 | The invariant holds over every interleaving |
| `SpmcProof.StepKeeps` | include/spmc_queue_trivially_copiable.hpp:81-119 | Every step of the producer, the store buffer or a consumer keeps the invariant |
| `SpmcProof.VersionIdentifies` | include/spmc_queue_trivially_copiable.hpp:95-113 | A version equal to the expected one means the slot holds the expected message; a lower one that it is not published; a higher one that the next lap has begun |
| `SpmcProof.Forwarding` | include/spmc_queue_trivially_copiable.hpp:82-84 | What the producer reads through its store buffer is memory as it will be once the buffer has drained |
| `SpmcProof.PushKeeps` | include/spmc_queue_trivially_copiable.hpp:81-91 | Each step of `push` keeps the invariant: slot i's version is twice its completed pushes, plus one during a write |
| `SpmcProof.DrainKeeps` | include/spmc_queue_trivially_copiable.hpp:86-90 | A store reaching memory, whenever it does, keeps the invariant |
| `SpmcProof.PopPlace` | include/spmc_queue_trivially_copiable.hpp:94-119 | Each step of `pop` keeps what is known of that consumer |
| `SpmcProof.NewConsumer` | include/spmc_queue_trivially_copiable.hpp:55-67 | `make_consumer` keeps the invariant |
| `SpmcProof.SlotIsMod` | include/spmc_queue_trivially_copiable.hpp:82-98 | `& wrap_mask`, `>> countr_zero(buffer_size)` and `2 * (gen + 1)` are remainder, quotient and the expected version |
| `SpmcProof.NoOverflow` | include/spmc_queue_trivially_copiable.hpp:86-90 | With fewer than 2^64 pushes and at least four slots no version and no counter overflows |
| `SpmcQueueObject.SPMCQueue.Push` | include/spmc_queue_trivially_copiable.hpp:81-91 | Appends the message, whatever the consumers do; never waits and never fails |
| `SpmcQueueObject.SPMCQueue.Pop` | include/spmc_queue_trivially_copiable.hpp:94-119 | With everybody else running between any two accesses: the whole message number `reader`, or not published when the call began, or it gave up for good and the push one lap ahead has begun |
| `SpmcQueueObject.SPMCQueue.MakeConsumer` | include/spmc_queue_trivially_copiable.hpp:55-67 | The machine's step: the new consumer begins at the message `writer` names in memory |
| `SpmcQueueObject.SPMCQueue.LoadFirstVersion` | include/spmc_queue_trivially_copiable.hpp:100-106 | Decides as the source does |
| `SpmcQueueObject.SPMCQueue.LoadSecondVersion` | include/spmc_queue_trivially_copiable.hpp:112-118 | A copy it accepts is the message wanted |
| `SpmcQueueObject.SPMCQueue.StoreMessage` | include/spmc_queue_trivially_copiable.hpp:87 | All words of the message have been stored, each once |
| `SpmcQueueObject.SPMCQueue.CopyMessage` | include/spmc_queue_trivially_copiable.hpp:110 | All words have been copied |
| `ByteRing.RunIsStream` | src/spsc_buffer.cpp:14-72 | Over every interleaving, wraps, exact landings and split copies included: bytes returned are a prefix of bytes accepted, and what is in between is `available` bytes, at most `bufferSize_ - 1` |
| `ByteRing.RunNeverUnsafe` | src/spsc_buffer.cpp:14-72 | Every copy of every run stays in the ring and both indices stay below its size |
| `ByteRing.StepRefines` | src/spsc_buffer.cpp:14-72 | Every step keeps the invariant and does to the stream what its result says: a write appends its whole span or nothing, and fails only for want of room; a read removes what it returns from the front |
| `ByteRing.RunCopiesDisjoint` | src/spsc_buffer.cpp:56-65 | In every run, at every point of the two copies, the span's bytes go to places where no unread byte is, and the unread bytes are intact |
| `ByteRing.FreeSpaceExact` | src/spsc_buffer.cpp:51 | `bufferSize_ - 1 - available` never underflows and is the room left |
| `ByteRing.CopiesDisjoint` | src/spsc_buffer.cpp:56-65 | The bytes being overwritten are disjoint from all unread bytes, however old the snapshot of `reader_` |
| `ByteRing.WriterKeeps` | src/spsc_buffer.cpp:47-72 | Each step of `try_write`, byte by byte, keeps the invariant |
| `ByteRing.ReaderKeeps` | src/spsc_buffer.cpp:14-45 | Each step of `read`, byte by byte, keeps the invariant |
| `ByteRing.FetchByte` | src/spsc_buffer.cpp:26-39 | The byte at place k from `reader_` is the stream's k-th unread byte |
| `ByteRing.ReadTakesAllItCan` | src/spsc_buffer.cpp:18-23 | A read takes all that is there or all that was asked for |
| `ByteRingObject.SPSCBuffer.constructor` | include/spsc_buffer.hpp:21-24 | An empty ring |
| `ByteRingObject.SPSCBuffer.TryWrite` | src/spsc_buffer.cpp:47-72 | With the reader running between any two accesses or bytes: exactly the whole span was put, or nothing because the room was short; what the reader took meanwhile and what is left are the old bytes and the span |
| `ByteRingObject.SPSCBuffer.Read` | src/spsc_buffer.cpp:14-45 | With the writer running between any two accesses or bytes: exactly the bytes returned, the oldest, were taken, as many as asked for or at least all there were; what is left is the old bytes less those, and what the writer put |
| `ByteRingObject.SPSCBuffer.CopySpan` | src/spsc_buffer.cpp:56-65 | The copies, in one part or two, store every byte of the span |
| `ByteRingObject.SPSCBuffer.CopyBytes` | src/spsc_buffer.cpp:26-39 | The copies, in one part or two, fetch every byte to be returned |
| `ByteRingObject.SPSCBuffer.LoadReaderAsWriter` | src/spsc_buffer.cpp:49-54 | The free space computed from it is exact at that instant |
| `ByteRingObject.SPSCBuffer.StoreWriter` | src/spsc_buffer.cpp:59-68 | Appends the span to the stream |
| `ByteRingObject.SPSCBuffer.StoreReader` | src/spsc_buffer.cpp:28-41 | The bytes fetched are the oldest of the stream |
| `SpscQueue.RunRefines` | include/spsc_queue.hpp:58-131 | Over every interleaving, also when `reader_` and `writer_` overflow 2^64, the results are a legal history of a FIFO of capacity `bufferSizeSlots_ - 1` |
| `SpscQueue.RunIsFifo` | include/spsc_queue.hpp:58-131 | What came out is a prefix of what went in, and at most `bufferSizeSlots_ - 1` values are in between |
| `SpscQueue.RunNeverUnsafe` | include/spsc_queue.hpp:58-131 | In every run no live slot is constructed over and no raw slot is read or destroyed |
| `SpscQueue.StepRefines` | include/spsc_queue.hpp:58-131 | Every step keeps the invariant and does to the contents what its result says, which the bounded FIFO allows |
| `SpscQueue.MaskAdd` | include/spsc_queue.hpp:45-47 | The mask selects the true slot across 64-bit wrap-around |
| `SpscQueue.FreeSpaceExact` | include/spsc_queue.hpp:53-67 | `writer - reader` with wrap-around is the number of elements, and the free space never underflows |
| `SpscQueue.InvSafe` | include/spsc_queue.hpp:58-131 | The invariant makes every next step safe |
| `SpscQueue.SlotsDisjoint` | include/spsc_queue.hpp:72-126 | The slot being filled is never the slot being emptied |
| `SpscQueue.ProducerKeeps` | include/spsc_queue.hpp:58-81 | Each step of `try_push` keeps the invariant |
| `SpscQueue.ConsumerKeeps` | include/spsc_queue.hpp:108-131 | Each step of `try_pop` keeps the invariant |
| `Words.WrapKeepsMod` | include/spsc_queue.hpp:45-47 | The slot count divides 2^64, so wrap-around does not disturb the slot |
| `Words.MaskIsMod` | include/spsc_queue.hpp:45-47 | Masking with a power of two less one is reduction modulo that power |
| `SpscQueueObject.SPSCQueue.constructor` | include/spsc_queue.hpp:43-50 | An empty queue of raw slots |
| `SpscQueueObject.SPSCQueue.TryPush` | include/spsc_queue.hpp:58-81 | With the consumer running between any two accesses: exactly the element was put, or nothing because the queue was full when the push was called; what the consumer took meanwhile and what is left are the old contents and the element |
| `SpscQueueObject.SPSCQueue.TryPop` | include/spsc_queue.hpp:108-131 | With the producer running between any two accesses: exactly the oldest element was taken and returned, or nothing because the queue was empty when it was called; what is left is the old contents less it, and what the producer put |
| `SpscQueueObject.SPSCQueue.Destroy` | include/spsc_queue.hpp:29-40 | The elements held are destroyed oldest first, each exactly once, and no object is left |
| `SpscQueueObject.SPSCQueue.LoadReaderAsProducer` | include/spsc_queue.hpp:64-70 | The free space computed from it is exact at that instant |
| `SpscQueueObject.SPSCQueue.StoreWriter` | include/spsc_queue.hpp:79 | Appends the element |
| `SpscQueueObject.SPSCQueue.LoadWriterAsConsumer` | include/spsc_queue.hpp:114-118 | Equal counters mean an empty queue |
| `SpscQueueObject.SPSCQueue.StoreReader` | include/spsc_queue.hpp:129 | Removes the oldest element |

## Left out

- Benchmarks, CSV export, TSC calibration, thread pinning, the DPDK ring and plotting: input/output, timing and library calls.
- `src/spsc_buffer_ipc.cpp`: the algorithm of `src/spsc_buffer.cpp` with inline storage; placing it in shared memory and initializing it once are outside the model.
- Memory orders weaker than sequential consistency (total store order for the fan-out queue), fences, cache lines, alignment and `malloc` layout; allocation is a fresh block or a failure.
- The kernel semaphores behind `Semaphore`: a counter whose wait may also fail or time out.
- Move construction and assignment, `ReentrantGuard`, and the copy, move and emplace overloads: easy members over `inner_enqueue`.
- The accuracy of `size_approx` and `max_capacity` while operations are in flight, which the source calls approximate; `size_t` overflow of their sums.
- Liveness under an operating system's scheduler; `Semaphore.RestoreRoundEnds` proves that a round of the restore loop with no post pending is the last.
- A payload that is copied with `memcpy` because it is trivially copyable: the model gives its slot the same lifetime as any other object's.
- Elements are values: what they may share by reference with the rest of a program is outside the model.
- An exception thrown by an element's constructor or assignment.
- `BlockingReaderWriterQueue` as a class: its wrappers hold no state of their own, and what runs between two of their accesses must keep ring and semaphore in step with each other, so they are steps of the machine in `BlockingQueue.dfy`, which covers every interleaving of both parts.
- `MAX_BLOCK_SIZE == 2^63`: a template argument for which `MAX_BLOCK_SIZE * 2` wraps to 0; the constructor's assertions allow it, the models take `2 * MAX_BLOCK_SIZE` to be a word.
- The byte count in `make_block` (lines 731-732), which wraps when `sizeof(T) * capacity` reaches 2^64: an allocation gives room for `capacity` elements or fails. Failure to allocate in the constructor throws and leaves no object.
- BlockRingObject.ReaderWriterQueue.Destroy: the freed blocks are recorded by number; the objects themselves stay in Dafny's heap.
- BlockRingObject.ReaderWriterQueue.MaxCapacity: stated with no operation in flight.
- Semaphore.StepKeeps: for signals of at least one token (`SignalKeepsExactlyWhen` says what happens otherwise); `m_count` is unbounded, so its 64-bit overflow is not modelled.
- SemaphoreObject.LightweightSemaphore.RestoreLoop: partial correctness. Left alone the loop need not end, so `patience` bounds its rounds: in the last the signaller finishes the post it is in and rests. A call that returns after n rounds, whatever the signaller does, is covered by every `patience` of n or more.
- SemaphoreObject.LightweightSemaphore.WaitWithPartialSpinning: the same, by way of its restore loop.
- SemaphoreObject.LightweightSemaphore.WaitFor: the same.
- SpmcProof.NoOverflow: versions and counters are unbounded in the machine; this lemma says when that is faithful (fewer than 2^64 pushes, at least four slots).
- ByteRing.RunIsStream: for capacities from 2 to 2^63 and spans shorter than 2^64 bytes.
