# The concurrent queues, the chunked decoder and the corked writer

A Dafny model of the lock-free and incremental components this repository builds on, and proofs
about them. `dafny verify dfyconfig.toml` checks everything.

## What is modelled

**Concurrent code** is a state machine: a datatype for the shared memory, a program counter for
each thread, and a function that performs one atomic operation of one thread. A run is a
schedule, that is, any sequence of such steps by any threads with any requests, and the theorems
are about every run. Steps are sequentially consistent. Writes to memory that no other thread can
look at before a later step of the same thread (locals of the producer, a block that is on no
list, the flags of a block that has been emptied) are merged with their neighbours. Fields marked
as history are written by the steps but never influence them.

| file | component |
|---|---|
| `Wrappers.dfy` | a value that may be missing |
| `Index.dfy` | 64-bit index arithmetic: `circular_less_than`, block bases, signed offsets, power-of-two slots |
| `FreeList.dfy` | the reference-counted free list of blocks |
| `Claims.dfy` | how consumers claim indices: optimistic count, overcommit, head and tail |
| `SubQueue.dfy` | what the two kinds of sub-queue share |
| `ExplicitProducer.dfy` | sub-queue of an explicit producer: ring of blocks, circular block index that doubles |
| `ImplicitProducer.dfy` | sub-queue of an implicit producer: block index with recycled entries, reverted bulk enqueues |
| `BlockPool.dfy` | any number of sub-queues sharing the initial block pool and the free list |
| `ProducerPool.dfy` | producer list, recycling of producers, the pool of preallocated producers |
| `MpmcQueue.dfy` | the ticket/turn queue |
| `SpscQueue.dfy` | the ring with stale cached indices |

**Sequential code** is imperative. `ChunkedEncoding.dfy` has methods that advance through a
fragment and overwrite the packed state; they are proved to follow a machine that reads one byte at
a time, and the theorems are about that machine and about the methods. `AsyncSocket.dfy` has the
classes of the writer; their methods are proved against the byte stream each socket has accepted.
The loops that copy block indices and the destructors of the queues are methods too.

Every sub-queue embeds `Claims.State`, so the claim protocol is proved once. Taken alone, a
sub-queue is granted any block it does not hold; `BlockPool.dfy` puts any number of them together
with the real pool and free list and proves that blocks are never shared.

The theorems about sub-queues assume `NoWrapAround`: no consumer sleeps between loading the
overcommit and loading the tail again while the counters move by 2^63. `BoundedRunsDoNotWrap`, in
`Claims.dfy` and for each kind of sub-queue, derives it for every run in which fewer than 2^63
elements are enqueued and asked for.

## Where the code and its documentation differ

- `consumeHexNumber` is said to read a hexadecimal number up to the carriage return. The code also
  takes `: ; < = > ? @`, `G` and `g` for digits. It drops what follows the first character that is
  not above 32 only as long as the fragment lasts, because the packed state does not record that
  the size field is over: `ChunkedEncoding.SplitLineExample` reads the size line `5 5` as 5 in one
  piece and as 85 in two. `ChunkedEncoding.IndependentOfFragmentation` gives the exact condition
  under which fragmentation does not matter; encoded bodies meet it
  (`ChunkedEncoding.EncodedIsNotLate`).
- A `write` that is not optional is meant to accept all of `src`. It accepts nothing if the socket
  is corked with something in the cork buffer, `src` does not fit in behind it, and the system does
  not take all that was corked: then `uncork` returns `{0, true}`, and nothing of `src` is buffered.
  The contract of `AsyncSocket.AsyncSocket.Write` says that this is exactly the case in which it
  happens; a caller can check the first two conditions before the call.
- `cork` may take the cork from another socket that has nothing in the cork buffer; only a
  non-empty one terminates the program.

## Model

| member | source | states |
|---|---|---|
| Index.CircularLessThanIsLess | external/cameron314/concurrentqueue.h:480-485 | on 64-bit words of counters less than 2^63 apart, `circular_less_than` is the order of the true counters, in both directions |
| Index.LookupIsExact | external/cameron314/concurrentqueue.h:2050-2056 | the signed, truncating offset computation leads from the slot of any listed block to the slot of the wanted block less than `size` blocks away, before or behind, however the indices have wrapped |
| Index.BlockBaseDiffCounts | external/cameron314/concurrentqueue.h:2689-2690 | `blockBaseDiff` is `BLOCK_SIZE` times the number of blocks that start in [start, start + count), also where `start - 1` wraps |
| FreeList.RunKeepsInv | external/cameron314/concurrentqueue.h:1498-1577 | in every interleaving of any number of `add` and `try_get` calls: the list is an acyclic chain without repetition; the low 31 bits of each reference word count the list's own reference plus the transient holders, the flag bit is set exactly for nodes waiting to be added, and such a node always has a holder or an adder |
| FreeList.TakenByOneThread | external/cameron314/concurrentqueue.h:1529-1536 | the assertion at line 1532: a node just unlinked is not flagged, nobody else is taking it, and it is neither listed nor in a client's hands |
| FreeList.NextIsStable | external/cameron314/concurrentqueue.h:1526-1529 | no step of any thread changes `freeListNext` of a node while another thread holds a reference to it |
| FreeList.NotHandedOutTwice | external/cameron314/concurrentqueue.h:1512-1549 | once a client has a node, no `try_get` returns it to anyone until it is added again, in any run |
| FreeList.AddedNodeStays | external/cameron314/concurrentqueue.h:1498-1510 | a node that was added and not taken again is on the list whenever no call is in progress |
| FreeList.NothingLost | external/cameron314/concurrentqueue.h:1555-1577 | with no call in progress the nodes reachable from the head are exactly those no client holds, and every reference word is 0 or 1 |
| Claims.RunKeepsInv | external/cameron314/concurrentqueue.h:1996-2042 | every interleaving of single and bulk dequeues with the producer keeps the accounting of optimistic tickets: what each was granted was checked against a tail that covers all earlier grants, although the overcommit it used was stale |
| Claims.ClaimsStayBelowTail | external/cameron314/concurrentqueue.h:2290-2309 | at every moment of every run the head index plus all grants not yet added to it, for any set of threads, is at most the tail index |
| Claims.SettledCounters | external/cameron314/concurrentqueue.h:2018-2027 | with no dequeue in progress the optimistic count less the overcommit is the head index |
| Claims.LoneDequeue | external/cameron314/concurrentqueue.h:1993-2091 | a dequeue that runs alone takes min(max, size) elements, so it fails exactly if the sub-queue is empty |
| Claims.BoundedRunsDoNotWrap | external/cameron314/concurrentqueue.h:2020-2027 | the one assumption on runs, that no consumer sleeps while the counters move by 2^63, holds of every run in which fewer than 2^63 elements are enqueued and asked for |
| ExplicitProducer.RunKeepsInv | external/cameron314/concurrentqueue.h:1888-2092 | every interleaving of the producer and any number of consumers keeps the invariant: the last `pr_blockIndexSlotsUsed` blocks form a ring with consecutive bases, every index ever published still lists the blocks a consumer may look for in it, flags, elements and claims agree |
| ExplicitProducer.GrowsIndex | external/cameron314/concurrentqueue.h:2396-2433 | doubling a full block index keeps the entry of every block of the ring at the slot where consumers look for it, and the front exposed to them |
| ExplicitProducer.LookupIsCorrect | external/cameron314/concurrentqueue.h:2047-2059 | whatever header and front a consumer has loaded, however often the index has been doubled and blocks reused since, it arrives at the block in which the producer constructed the element at its index, and the element is there |
| ExplicitProducer.FlagNotYetSet | external/cameron314/concurrentqueue.h:1636-1666 | the assertions in `set_empty` and `set_many_empty`: a flag about to be set is in range and not set |
| ExplicitProducer.PlaceIsRaw | external/cameron314/concurrentqueue.h:2211-2219 | the place the producer constructs in is raw memory and the place where the consumer of that index will look: no element is overwritten |
| ExplicitProducer.DeliveredOnce | external/cameron314/concurrentqueue.h:2058-2081 | each step delivers at most one element, never one delivered before, and removes just that element from memory |
| ExplicitProducer.FirstInFirstOut | external/cameron314/concurrentqueue.h:1888-2092 | in every run the dequeue that claims index k gets the k-th value of the completed enqueue operations, single and bulk |
| ExplicitProducer.NothingLost | external/cameron314/concurrentqueue.h:1888-2378 | with no operation in progress: optimistic count less overcommit is the head; everything below the head has been delivered; the elements in memory are exactly those from head to tail, each in a place of its own |
| ExplicitProducer.ConsumerMovesOn | external/cameron314/concurrentqueue.h:2042-2081 | no step of a consumer that has claimed indices finds a null index, a slot out of range or a missing element, and it stops only after its last index |
| ExplicitProducer.ProducerMovesOn | external/cameron314/concurrentqueue.h:1890-1989 | the producer finds what it needs at every step; it stays where it is exactly at rest, when offered a block it has, or when a bulk enqueue is refused |
| ExplicitProducer.ProducerAsserts | external/cameron314/concurrentqueue.h:2131-2212 | the assertions at lines 1912, 2131 and 2207, and that the tail block followed at line 2275 exists |
| ExplicitProducer.NewBlockIndex | external/cameron314/concurrentqueue.h:2408-2427 | the copy loop lists the old entries from the oldest on, and room for as many again; the new front is the number of entries used |
| ExplicitProducer.FindHalfDequeued | external/cameron314/concurrentqueue.h:1833-1844 | finds the block the head index lies in, for every head inside a block |
| ExplicitProducer.DestroyElements | external/cameron314/concurrentqueue.h:1846-1865 | run at rest, the destructor destroys exactly the elements from head to tail, in order |
| ExplicitProducer.ReturnBlocks | external/cameron314/concurrentqueue.h:1867-1875 | and returns each block of the ring once |
| ExplicitProducer.DestroyedAreLeft | external/cameron314/concurrentqueue.h:1827-1865 | the elements destroyed are exactly those in memory, none twice |
| ImplicitProducer.RunKeepsInv | external/cameron314/concurrentqueue.h:2527-2927 | every interleaving of the producer and any number of consumers keeps the invariant, for single and bulk operations, also those that fail and are reverted |
| ImplicitProducer.GrowsIndex | external/cameron314/concurrentqueue.h:2965-2980 | after doubling, the entry for the next block is new (the assertion at line 2976), and every live entry is where lookups find it |
| ImplicitProducer.LookupLands | external/cameron314/concurrentqueue.h:2996-3012 | the assertion at line 3010, for consumers: whatever index they have loaded and wherever its tail was then, the entry they arrive at has the requested base as its key and the right block as its value |
| ImplicitProducer.RevertStep | external/cameron314/concurrentqueue.h:2715-2720 | the same for the producer while it reverts a bulk enqueue: it clears the entry of just the block it takes back |
| ImplicitProducer.CountIsExact | external/cameron314/concurrentqueue.h:1667-1672 | the completion count never exceeds `BLOCK_SIZE` (the assertion at line 1670) and reaches it exactly when all elements of the block are gone |
| ImplicitProducer.RecycledByOne | external/cameron314/concurrentqueue.h:2645-2654 | the consumer that frees a block is the only one to do so and does it once; every element of the block has been delivered, nobody has an index of it left to read, and the index no longer leads to it |
| ImplicitProducer.FullIsRecycled | external/cameron314/concurrentqueue.h:2905-2915 | conversely, a block whose elements are all gone has been or is being freed |
| ImplicitProducer.BulkEndsAtNewTail | external/cameron314/concurrentqueue.h:2812-2817 | the assertion at line 2813: having filled its last block, a bulk enqueue stands at the new tail |
| ImplicitProducer.AllOrNothing | external/cameron314/concurrentqueue.h:2695-2725 | operations that fail leave no trace: tail block, index position, live entries and elements are as before, and all blocks they had acquired have been returned |
| ImplicitProducer.PlaceIsRaw | external/cameron314/concurrentqueue.h:2756-2765 | element k is constructed in raw memory at the place of index start + k |
| ImplicitProducer.DeliveredOnce | external/cameron314/concurrentqueue.h:2607-2657 | each step delivers at most one element, never one delivered before, and removes just that element from memory |
| ImplicitProducer.FirstInFirstOut | external/cameron314/concurrentqueue.h:2527-2657 | in every run the dequeue that claims index k gets the k-th value of the completed enqueue operations |
| ImplicitProducer.NothingLost | external/cameron314/concurrentqueue.h:2527-2927 | with no operation in progress: everything below the head has been delivered, the rest is in memory, exactly the blocks all of whose elements are below the head have been freed, and the producer holds exactly the others |
| ImplicitProducer.ConsumerMovesOn | external/cameron314/concurrentqueue.h:2605-2657 | no step of a consumer that has claimed indices finds a null index, entry or block or a missing element, and it stops only after its last index |
| ImplicitProducer.ProducerMovesOn | external/cameron314/concurrentqueue.h:2529-2590 | the producer finds what it needs at every step; it stays where it is exactly at rest or when offered a block it has |
| ImplicitProducer.ProducerAsserts | external/cameron314/concurrentqueue.h:2704-2755 | the assertions at lines 2534, 2704, 2739 and 2752, and that the tail block followed at line 2816 exists |
| ImplicitProducer.NewBlockIndex | external/cameron314/concurrentqueue.h:3027-3049 | the copy loops list the old entries from the oldest on, then new ones, and put the tail on the last old one |
| ImplicitProducer.DestroyAll | external/cameron314/concurrentqueue.h:2485-2509 | run at rest, the destructor destroys exactly the elements from head to tail, in order, and returns the blocks left |
| ImplicitProducer.DestroyedAreLeft | external/cameron314/concurrentqueue.h:2473-2509 | these are exactly the elements in memory and the blocks held, each once |
| BlockPool.RunKeepsInv | external/cameron314/concurrentqueue.h:3104-3162 | any number of threads and sub-queues sharing the initial pool and the free list keep, together, the invariants of every sub-queue and of the list, and every block in one place |
| BlockPool.BlocksApart | external/cameron314/concurrentqueue.h:3144-3162 | no block is in two sub-queues, and none of a sub-queue's is on the free list, being added to it, in a thread's hands or still in the initial pool |
| BlockPool.GrantedIsFree | external/cameron314/concurrentqueue.h:3104-3153 | what `requisition_block` returns is held by no sub-queue and no other thread |
| BlockPool.NoBlockLost | external/cameron314/concurrentqueue.h:3115-3135 | with no thread inside the pool, a block has been handed out if and only if it is on the free list, in exactly one sub-queue or destroyed; only dynamically allocated blocks are destroyed |
| ProducerPool.RunKeepsInv | external/cameron314/concurrentqueue.h:3275-3338 | every interleaving of threads that get and release producers keeps the list acyclic and every producer in one place |
| ProducerPool.TicketHasProducer | external/cameron314/concurrentqueue.h:3292-3298 | the assertion at line 3297: a pool ticket is used once and still has its producer |
| ProducerPool.ListedOnce | external/cameron314/concurrentqueue.h:3307-3320 | each producer is on the list at most once, and a listed one is active exactly if it has an owner |
| ProducerPool.OwnedByOne | external/cameron314/concurrentqueue.h:3281-3303 | a thread is given a producer only if nobody owns it; only its owner gives it up |
| ProducerPool.EveryProducerAccounted | external/cameron314/concurrentqueue.h:3314-3320 | with no call in progress `producerCount` is the length of the list, and every producer is either on it or in the unused part of the pool |
| ProducerPool.DestroyProducers | external/cameron314/concurrentqueue.h:881-898 | the two loops of the destructor destroy the listed producers, then those of the unused tickets |
| ProducerPool.DestroysEachOnce | external/cameron314/concurrentqueue.h:879-898 | run at rest they destroy every producer ever made exactly once |
| MpmcQueue.RunKeepsInv | external/rigtorp/MPMCQueue.h:163-251 | every interleaving of `emplace`, `try_emplace`, `pop` and `try_pop` keeps tickets, turns and slots in step |
| MpmcQueue.OwnedByOne | external/rigtorp/MPMCQueue.h:166-185 | each ticket is in the hands of at most one thread |
| MpmcQueue.SlotOwnedByOne | external/rigtorp/MPMCQueue.h:170-171 | two threads never construct, move from, destroy or publish the same slot at once |
| MpmcQueue.SlotLifetime | external/rigtorp/MPMCQueue.h:87-101 | construction finds raw storage, a move finds the element pushed with that ticket, destruction a moved-from object |
| MpmcQueue.TurnAlternates | external/rigtorp/MPMCQueue.h:271-273 | the turn of a slot only ever grows by one, from 2 lap by the push and from 2 lap + 1 by the pop of its ticket |
| MpmcQueue.PoppedIsPushed | external/rigtorp/MPMCQueue.h:163-251 | the value popped with ticket t is the t-th value accepted |
| MpmcQueue.TryEmplaceAppends | external/rigtorp/MPMCQueue.h:180-184 | `try_emplace` takes effect at its CAS: there is room, and the contents grow at the end |
| MpmcQueue.TryPopTakesFirst | external/rigtorp/MPMCQueue.h:236-241 | `try_pop` takes effect at its CAS: it gets the first element |
| MpmcQueue.TryEmplaceFails | external/rigtorp/MPMCQueue.h:186-192 | if it returns false there was a moment during this very call when the head was h and the pop of ticket h - capacity was not complete |
| MpmcQueue.TryPopFails | external/rigtorp/MPMCQueue.h:243-249 | if it returns false there was a moment during this very call when the tail was t and the push of ticket t was not complete |
| MpmcQueue.SlotsAtRest | external/rigtorp/MPMCQueue.h:80-85 | with no call in progress the slots with odd turns are exactly those of the tickets in [tail, head) and hold their values; all others are raw |
| MpmcQueue.DestroySlots | external/rigtorp/MPMCQueue.h:152-155 | the destructor destroys the objects in the slots with odd turns, each once, and no others |
| MpmcQueue.DestroysEachOnce | external/rigtorp/MPMCQueue.h:152-157 | run at rest that is each element accepted and not popped, exactly once, and there is an object in each slot destroyed |
| SpscQueue.CachesStayInOrder | external/rigtorp/SPSCQueue.h:103-139 | readCache <= read <= writeCache <= write <= readCache + capacity - 1 at every step of one producer and one consumer, and the four index variables are these counters modulo the number of slots |
| SpscQueue.RefinesBoundedQueue | external/rigtorp/SPSCQueue.h:103-190 | every interleaving is a run of a bounded queue: elements are added at the end and removed from the front, `try_emplace` is refused only while the queue is full and `front` only while it is empty |
| SpscQueue.FrontIsFirst | external/rigtorp/SPSCQueue.h:167-176 | the pointer `front` has returned points to the first element as long as the consumer holds it |
| SpscQueue.SlotLifetime | external/rigtorp/SPSCQueue.h:136-184 | no live slot is overwritten and no dead one destroyed |
| SpscQueue.PoppedInOrder | external/rigtorp/SPSCQueue.h:103-190 | what has been popped is a prefix of the values of the calls that were not refused, in order |
| SpscQueue.SizeIsExact | external/rigtorp/SPSCQueue.h:192-199 | `size` computed from the indices between steps is the number of elements |
| SpscQueue.RoomAsAsked | external/rigtorp/SPSCQueue.h:58-89 | the constructor makes room for what was asked for, and at least one element |
| SpscQueue.Drain | external/rigtorp/SPSCQueue.h:91-94 | the destructor destroys what was not popped, in order, and leaves every slot empty |
| ChunkedEncoding.PackIsExact | external/uWebSockets/ChunkedEncoding.h:32-40 | the packed 64-bit state determines where the decoder is, except that it does not tell whether the size field is over |
| ChunkedEncoding.DigitsAccepted | external/uWebSockets/ChunkedEncoding.h:47-56 | exactly which characters are taken for digits, and that hexadecimal ones get their value |
| ChunkedEncoding.FieldIsRead | external/uWebSockets/ChunkedEncoding.h:45-68 | over hexadecimal digits the state tracks the base-16 value exactly, without disturbing the flags, as long as it is below 2^60, and becomes the error state otherwise |
| ChunkedEncoding.SizeLine | external/uWebSockets/ChunkedEncoding.h:43-79 | a size line is accepted if and only if its value is below 2^60, and then asks for value + 2 bytes, or announces the end if it is 0 |
| ChunkedEncoding.ConsumeHexNumber | external/uWebSockets/ChunkedEncoding.h:43-79 | the loops follow the byte machine |
| ChunkedEncoding.GetNextChunk | external/uWebSockets/ChunkedEncoding.h:104-191 | each call terminates, follows the byte machine, and returns exactly the data of the bytes it consumed; it returns nothing only at the end of the data, the body, or an error |
| ChunkedEncoding.DecodeFragment | external/uWebSockets/ChunkedEncoding.h:194-233 | iterating over a fragment emits what the byte machine emits and leaves what it leaves |
| ChunkedEncoding.RoundTrip | external/uWebSockets/ChunkedEncoding.h:109-187 | decoding the section 7.1 encoding of any chunks, followed by any bytes, emits the content and one end marker, ends with state 0, and leaves exactly the following bytes |
| ChunkedEncoding.HexIsExact | external/uWebSockets/ChunkedEncoding.h:61-66 | every number has a hexadecimal form that is read back exactly, so that every content can be encoded |
| ChunkedEncoding.IndependentOfFragmentation | external/uWebSockets/ChunkedEncoding.h:43-79 | splitting a stream into fragments anywhere makes no difference, to any beginning of the stream, if and only if no character above 32 comes late in a size line |
| ChunkedEncoding.SplitLineExample | external/uWebSockets/ChunkedEncoding.h:45-72 | an input for which it makes one: the size line `5 5` is read as 5, or as 85 if split behind the blank |
| ChunkedEncoding.FragmentsRoundTrip | external/uWebSockets/ChunkedEncoding.h:104-191 | for encoded bodies, however they and what follows are split: the content, one end marker, state 0, and exactly the encoded body used |
| ChunkedEncoding.DecodeFragments | external/uWebSockets/ChunkedEncoding.h:104-233 | decoding fragment by fragment with `ChunkIterator` does that: same events, same final state, same bytes left |
| AsyncSocket.BackPressure.Erase | external/uWebSockets/AsyncSocketData.h:36-43 | the view loses just the prefix, whether or not the buffer is compacted |
| AsyncSocket.BackPressure.Resize | external/uWebSockets/AsyncSocketData.h:55-57 | the view grows by zeros, whatever is waiting to be removed |
| AsyncSocket.LoopData.Put | external/uWebSockets/LoopData.h:98-100 | appends to what is corked |
| AsyncSocket.AsyncSocket.Cork | external/uWebSockets/AsyncSocket.h:133-142 | terminates exactly if the cork buffer is in use by another socket; otherwise no byte moves |
| AsyncSocket.AsyncSocket.Write | external/uWebSockets/AsyncSocket.h:236-323 | the stream sent ++ backpressure ++ own cork grows by exactly the accepted prefix, for every answer of the system; a write that is not optional accepts everything, except if and only if it overflows a non-empty cork of its own and the system does not take all that was corked, and then nothing |
| AsyncSocket.AsyncSocket.Uncork | external/uWebSockets/AsyncSocket.h:327-350 | the same stream law for flushing the cork and writing behind it; the cork is free afterwards |
| AsyncSocket.WriteBehindOneByte | external/uWebSockets/AsyncSocket.h:327-344 | that exception at work: behind one corked byte, 16384 bytes are accepted if the system takes the byte and none if it does not |
| AsyncSocket.AsyncSocket.GetSendBuffer | external/uWebSockets/AsyncSocket.h:155-190 | reserves the requested bytes at the very end of the stream; when it does so in the cork buffer, and what the caller is told to do |
| AsyncSocket.AsyncSocket.Fill | external/uWebSockets/AsyncSocket.h:162-188 | filling the reserved buffer changes just the end of the stream |
| AsyncSocket.Perform | external/uWebSockets/AsyncSocket.h:133-350 | one call on one of many sockets of a loop changes its stream by what it accepted and moves no byte of any other socket |
| AsyncSocket.Serve | external/uWebSockets/AsyncSocket.h:133-350 | any calls on any sockets: each stream is, in order, what the calls on that socket accepted |
| AsyncSocket.GrownAt | external/uWebSockets/AsyncSocket.h:155-350 | so sent ++ backpressure ++ cork of socket k is what it was, followed by what its own calls accepted, and nothing else |

## Left out

- Weak memory orders, fences, alignment and padding: every step is sequentially consistent.
- Liveness: that a spinning or retrying call ever ends is not stated; all theorems are about what has happened by some moment.
- The failure path of `enqueue_bulk` of an explicit producer (lines 2134-2162): the model's producer stays where it is when a bulk enqueue finds no room or memory, because that path restores the slot count but keeps the injected blocks linked, and the slot count no longer is the length of the ring.
- Elements whose constructors or assignments throw, and the rollbacks for them.
- `MAX_SUBQUEUE_SIZE` other than its default, and block sizes other than 32.
- The hash table from thread ids to implicit producers, thread-exit notification, tokens, `swap`, move construction, and the memory statistics.
- Block indices of more than 2^58 entries: their allocation is taken to fail.
- `NoWrapAround`: runs in which a consumer sleeps between its load of the overcommit and its second load of the tail until the counters have moved by 2^63 are excluded, because there the comparison of 64-bit words is wrong. Wrapping counters themselves are modelled.
- The pool's counter of blocks taken from the initial pool does not wrap, and a destroyed block's memory is not given out again under the same number.
- `dequeue_bulk` with `max` 0 takes no block-level steps.
- Freeing the memory of block indices and of blocks; the destructors are modelled up to which elements they destroy and which blocks and producers they give back.
- More than 2^31 threads inside the free list at once, and pools and threads of 2^32 or more together: both would overflow a 32-bit counter.
- Tickets of `MPMCQueue` that wrap around `size_t`, its `size` and `empty`, and allocation.
- `SPSCQueue::size` called from a third thread, capacities near `SIZE_MAX`, and a `pop` that does not follow the caller's own non-null `front`.
- Chunk extensions and the contents of trailers, apart from what the byte machine says of them. Fragments have fewer than 2^32 bytes, as the cast at line 178 requires, and decoding is not resumed after an error or the end.
- The bit operations on the packed state are modelled by division and remainder on naturals below 2^64.
- `us_socket_write` may take any prefix. Closed sockets, `corkUnchecked`, `uncorkWithoutSending`, throttling, addresses, and lengths that do not fit in an `int` are not modelled, and `reserve` has no effect on contents.
- Of LoopData only the cork buffer, its offset and the corked socket are modelled.
- The applications, the telemetry code and the wrappers around third-party libraries: configuration, printing and foreign calls.
