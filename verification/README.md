# A verified model of a deduplicating chunk store

The server takes chunks from upload sessions, stores each distinct chunk once in 4 MB
containers, hands full containers to a writer thread over a lock-free queue, and restores
chunks from the container files through an LRU cache. This project models that path in Dafny
and proves what it promises, together with the concurrent primitives that the repository
bundles. `dafny verify dfyconfig.toml` checks everything.

## How the parts fit

* **The queue.** `SpscQueue` is `ReaderWriterQueue` as a step machine, one step for each
  shared load or store, with the stale copies `localFront` and `localTail`. `SpscProof` keeps
  an invariant over every step and refines the machine to a FIFO sequence; `SpscRuns` states
  it for whole runs, and `QueueExact` says for which constructed queues it is true at all.
  `QueueLayout` and `QueueCapacity` cover the constructor and its arithmetic, `QueueMasks` the
  masks of all blocks in all runs, and `QueueProgress` that every call returns.
* **On top of it.** `WriterShutdown` runs the receiver and writer threads of one session on
  that machine; `Semaphore` and `BlockingQueue` are the semaphore and the blocking queue.
  `WriterProgress`, `SemaphoreProgress` and `BlockingProgress` show that each gets to its end.
* **Other lock-free parts.** `FreeList` and `DequeueCounters`, for any number of threads;
  `DequeueWindow` shows that their window is the exact one, and `SemaphoreExact` says run by
  run when the semaphore conserves.
* **Upload.** `ContainerFormat` (printer and parser), `Packing` and `Dedup` (what storing a
  chunk means, on values), `StorageCore` and `PlainIndex` (the classes that do it in arrays
  and maps, proved against those), `DataReceiver` (one session's messages), `DedupStore` (all
  sessions interleaved, with the global deduplication invariant and restarts), `Pipeline` (the
  same with every session's queue and threads in place, proved to be a run of `DedupStore`), and
  `PipelineProgress` (all sessions can end from anywhere).
* **Restore.** `LruSpec` and `LruCache`, `ReadCache`, `RestoreIndex`, `RecvDecoder`; and
  `EndToEnd`, which puts upload and restore together.
* **Smaller cores.** `IndexFile` and `StatFile` (what a restart goes through), `ClientLocks`,
  `CompressGen`.

Concurrent code is modelled under sequential consistency. Randomness, container names, file
contents, network messages and the hash are parameters.

## Assumptions

* The hash is any function to 32 bytes; the restore theorem needs it to be collision-free on
  the chunks that were sent.
* Each `CreateUUID` result is new (include/define.h:170 draws eight random letters).
* A chunk is at most `MAX_CHUNK_SIZE` bytes, a restore batch at most `sendChunkBatchSize_`
  entries (the size of the entry array, src/Util/clientVar.cc:251), and the read cache has at
  least one slot.
* `chunkNum` of a new container is 0. `InitUploadBuffer` sets the two sizes but not the count
  (src/Util/clientVar.cc:89-92), so the model's constructor sets it.
* A free list has fewer than 2^31 - 2 threads; when a `dequeue` draws its count, at most 2^63
  others have paid back since it read the overcommit or are in flight
  (`DequeueCounters.MaxLag`; `DequeueWindow.WindowIsExact` shows that this is the exact bound).
* The statistics counters of the server stay below 2^64.
* The server is restarted only when its sessions are over.
* MAX_BLOCK_SIZE is a power of two, as the constructor of the queue asserts.

## Where the code and its promises part

* A `ReaderWriterQueue` constructed for 0 elements has a one-slot block in which "full" and
  "empty" look alike. With `enqueue`, which may allocate, an assertion then fails
  (`QueueExact.ZeroSizedQueueFails`); `QueueExact.SafeExactlyWhen` gives the exact condition.
* `LightweightSemaphore::signal` asserts only `count >= 0`, but `signal(0)` wakes a sleeping
  waiter without adding anything (`Semaphore.EmptySignalBreaks`,
  `SemaphoreExact.ConservesFromHereExactlyWhen`).
* The index file cannot hold an empty key, where loading stops, nor a key or value of 2^31
  bytes, whose size is negative as an `int` (`IndexFile.EmptyKeyLosesAll`,
  `IndexFile.HugeValueFails`, `IndexFile.RoundTripExactlyWhen`). Fingerprints are 32 bytes and
  names 8, so the server's own index survives (`EndToEnd.IndexSurvivesRestart`).
* A fingerprint that is not indexed is only logged (src/Server/recvDecoder.cc:146); the restore
  then ends at a missing container file or uses an iterator past the end. The model stops at
  either, and proves that it does exactly then (`RecvDecoder.Decoder.ProcessRecipeBatch`).
* `ConcurrentQueue::dequeue` notes that its counters may overflow and that the logic still holds
  (include/messageQueue/concurrentqueue.h:1990-1995). It holds exactly within a window: a
  thread that stalls while 2^63 + 1 others pay back takes an element that is not there
  (`DequeueWindow.UntimelyRunFails`, `DequeueWindow.WindowIsExact`).
* A second connection of a client waits for the first while holding the lock of the lock
  table, so it stops all new connections of all clients (`ClientLocks.WaitingBlocksEveryone`).
  It cannot deadlock (`ClientLocks.SomebodyCanMove`).
* `InsertToCache` must not be called for a cached name: a slot is then lost, or shared by two
  names (`ReadCache.ReadCache.InsertToCache`). Its only caller looks first.

## Model

| member | source | states |
|---|---|---|
| SpscProof.ProducerKeeps | include/messageQueue/readerwriterqueue.h:525-630 | every step of `inner_enqueue` keeps the ring invariant and appends to the FIFO exactly when it publishes a tail, whatever the consumer is doing |
| SpscProof.ConsumerKeeps | include/messageQueue/readerwriterqueue.h:280-369 | every step of `try_dequeue` and `peek` keeps the ring invariant and removes the oldest element exactly when it publishes a front |
| SpscRuns.RunIsFifo | include/messageQueue/readerwriterqueue.h:280-630 | from any good queue, every run keeps: enqueued = dequeued followed by what is stored |
| SpscRuns.QueueIsFifo | include/messageQueue/readerwriterqueue.h:280-630 | in every interleaving the dequeued values are a prefix of the enqueued ones, no assertion fails, no slot is overwritten or read unwritten, and a peek shows the next value to be dequeued |
| SpscRuns.ConstructedInv | include/messageQueue/readerwriterqueue.h:103-157 | the constructor's ring satisfies the invariant and is empty |
| SpscRuns.RejectionJustified | include/messageQueue/readerwriterqueue.h:546-623 | `try_enqueue` returns false only if at some instant of that call the queue held at least the requested number of elements |
| SpscRuns.EmptyJustified | include/messageQueue/readerwriterqueue.h:307-366 | `try_dequeue` returns false only if the queue was empty at some instant of that call |
| SpscRuns.SawFullHappened | include/messageQueue/readerwriterqueue.h:546-623 | what the producer remembers of a full block was true at an instant of the same call |
| SpscRuns.SawEmptyHappened | include/messageQueue/readerwriterqueue.h:307-366 | what the consumer remembers of an empty queue was true at an instant of the same call |
| SpscRuns.NoRoomMeansLoaded | include/messageQueue/readerwriterqueue.h:116-121 | a queue whose tail block is full and whose next block is the consumer's holds what its layout promises |
| QueueProgress.WaitFree | include/messageQueue/readerwriterqueue.h:280-630 | wait-freedom: in every run, whatever the other thread does, an enqueue returns within 11 steps of its own and a dequeue or peek within 13 |
| QueueProgress.EnqueueIsNotRefused | include/messageQueue/readerwriterqueue.h:590-620 | `enqueue`, which may allocate, is never refused, and fails only when memory runs out |
| QueueExact.ZeroSizedQueueFails | include/messageQueue/readerwriterqueue.h:114-151 | a concrete run in which a queue constructed for 0 elements fails an assertion |
| QueueExact.SafeExactlyWhen | include/messageQueue/readerwriterqueue.h:114-151 | all runs are safe if and only if at least one element was requested or nothing is allocated |
| QueueLayout.CeilToPow2 | include/messageQueue/readerwriterqueue.h:638-650 | the bit trick gives the least power of two at or above its argument, and 0 when that does not fit 64 bits |
| QueueLayout.LayoutHolds | include/messageQueue/readerwriterqueue.h:114-151 | both layouts hold the requested size; with several blocks, (blocks - 1) * (blockSize - 1) is enough |
| QueueLayout.LayoutIs | include/messageQueue/readerwriterqueue.h:114-151 | a single block has exactly the least power of two at or above the requested size plus one; otherwise there are as few blocks of the maximal size as hold the request with one left aside |
| QueueMasks.EveryIndexIsMasked | include/messageQueue/readerwriterqueue.h:546-621 | in every run every block, allocated ones included, has a power of two as its size, and masking with `sizeMask` is wrapping, for all its indices and for the local copies the threads are about to use |
| QueueMasks.AllocatedSizes | include/messageQueue/readerwriterqueue.h:590-598 | the j-th block allocated has the initial size times 2^j, up to the maximum |
| QueueLayout.MaskIsWrap | include/messageQueue/readerwriterqueue.h:487-493 | masking a wrapped 64-bit difference of indices is their distance around the block |
| QueueLayout.MaskIsMod | include/messageQueue/readerwriterqueue.h:468 | `& sizeMask` is reduction modulo a power of two |
| QueueCapacity.LinkBlocks | include/messageQueue/readerwriterqueue.h:123-140 | the constructor's loop links the blocks into one ring |
| QueueCapacity.Construct | include/messageQueue/readerwriterqueue.h:103-157 | the constructor builds the queue from which all runs start |
| QueueCapacity.MaxCapacity | include/messageQueue/readerwriterqueue.h:506-517 | the walk counts every block of the ring once, and ends |
| QueueCapacity.NewQueueHasCapacity | include/messageQueue/readerwriterqueue.h:497-517 | a new queue reports at least the requested capacity |
| WriterShutdown.WriterSavesAll | src/Server/dataWriter.cc:47-85 | containers turn up at any time; what is saved is always a prefix of them; when the writer returns, all of them, the last partial one included, were saved once and in order, and every block is empty |
| WriterShutdown.RunKeeps | include/messageQueue.h:52-119 | push, done flag, emptiness test and pop keep the handshake invariant in every interleaving |
| WriterShutdown.SizeIsExact | include/messageQueue/readerwriterqueue.h:482-495 | with the producer idle the sum over the blocks is the number of elements |
| WriterProgress.IsEmptyIsExact | include/messageQueue.h:110-119 | when the walk over the blocks ends, the writer takes the queue for empty exactly if it is |
| WriterProgress.WriterReturns | src/Server/dataWriter.cc:56-78 | after any run of a session, once the client has hung up, the two threads can go on until the writer returns with every container saved |
| WriterProgress.WriterReturnsAlone | src/Server/dataWriter.cc:58-77 | with `done_` set and the queue empty the writer returns by itself, within a number of steps that depends only on the number of blocks |
| WriterProgress.ReceiverGetsFree | include/messageQueue.h:64-80 | whatever the receiver has to push, it gets through with it |
| WriterProgress.ZeroSizedNeverReturns | include/messageQueue.h:64-80 | the requested size must be at least 1: on a queue for no element nothing is ever saved, and the writer never returns once anything was offered |
| Semaphore.StepKeeps | include/messageQueue/atomicops.h:634-707 | each access of waiter and signaller keeps: count, wake-ups and half-finished waits add up to signals less won waits |
| Semaphore.SemaphoreConserves | include/messageQueue/atomicops.h:634-707 | in every interleaving with timeouts the count is at least -1, won waits never exceed signals, and a failed wait takes none |
| Semaphore.EmptySignalBreaks | include/messageQueue/atomicops.h:699-707 | a concrete run in which `signal(0)` lets a wait succeed with nothing signalled |
| Semaphore.ConservesExactlyWhen | include/messageQueue/atomicops.h:699-707 | conservation holds on all runs if and only if every signal counts at least 1 |
| SemaphoreExact.SurplusIsEmptyWakes | include/messageQueue/atomicops.h:634-707 | in every run, with any signals, wake-ups too many plus waits too many are exactly the `signal(0)` calls that met a sleeper |
| SemaphoreExact.QuietRunConserves | include/messageQueue/atomicops.h:634-707 | a run in which no `signal(0)` meets a sleeper conserves |
| SemaphoreExact.ConservesFromHereExactlyWhen | include/messageQueue/atomicops.h:699-707 | from any point of any run, all continuations with signals of at least 1 conserve if and only if no `signal(0)` has met a sleeper and none is under way |
| SemaphoreProgress.GivesUpOnlyIfNone | include/messageQueue/atomicops.h:655-683 | in every interleaving a wait gives up only at an instant at which all that was signalled has been taken |
| SemaphoreProgress.WaitSucceeds | include/messageQueue/atomicops.h:634-683 | from any point inside a wait, with more signalled than taken and no signal under way, the waiter wins within four steps of its own |
| SemaphoreProgress.SignalReturns | include/messageQueue/atomicops.h:699-707 | a signal returns after two steps with all it carries added, and posts exactly if the waiter was asleep |
| BlockingQueue.InnerDequeueSucceeds | include/messageQueue/readerwriterqueue.h:774-928 | in every interleaving, with peeks in between, the dequeue after a won wait succeeds, so no assertion of the blocking queue fails |
| BlockingQueue.PeekIsHarmless | include/messageQueue/readerwriterqueue.h:911-914 | a peek, which takes no token, leaves elements and semaphore as they are and shows the oldest element |
| BlockingQueue.NotEmptyWhileDequeuing | include/messageQueue/readerwriterqueue.h:849-890 | after a won wait the queue has an element until it is taken |
| BlockingProgress.DequeueReturns | include/messageQueue/readerwriterqueue.h:849-890 | while an element is there, a consumer inside a dequeue operation takes the oldest one after a bounded number of its own steps |
| BlockingProgress.PeekShows | include/messageQueue/readerwriterqueue.h:906-914 | while an element is there, a peek shows the oldest one after a bounded number of steps |
| FreeList.StepKeeps | include/messageQueue/concurrentqueue.h:1449-1528 | every step of every thread keeps: a node is exactly one of owned, listed, parked for its last reference holder, or claimed by one thread, and its word counts its references |
| FreeList.NoNodeHasTwoTakers | include/messageQueue/concurrentqueue.h:1463-1501 | in every run each node handed out was added after it was last handed out, and the flag assertion holds |
| FreeList.NothingIsLost | include/messageQueue/concurrentqueue.h:1449-1528 | when no operation is under way every node is owned or on the chain from the head, once, and reference words are right |
| FreeList.LinkIsCurrent | include/messageQueue/concurrentqueue.h:1477-1483 | the link read before the head CAS is still the node's link, and on success the new head is the chain's second node (no ABA) |
| FreeList.NothingOnlyIfEmpty | include/messageQueue/concurrentqueue.h:1463-1501 | `try_get` returns null only if the list was empty at some instant of that very call |
| FreeList.GetAlone | include/messageQueue/concurrentqueue.h:1463-1501 | wherever the other threads are, `try_get` running alone takes the first node of a list that is not empty in eight steps |
| FreeList.AddAlone | include/messageQueue/concurrentqueue.h:1449-1461 | `add` running alone puts its node in front of the list if nobody holds a reference to it, and otherwise leaves it to the last who does |
| DequeueCounters.CircularLessMeans | include/messageQueue/concurrentqueue.h:452-465 | the wrapped comparison is true exactly when the second true count is ahead by 1 to 2^63 - 1, modulo 2^64 |
| DequeueCounters.StepKeeps | include/messageQueue/concurrentqueue.h:1964-2054 | each access keeps: counts drawn split into winners, losers and undecided, and each winner is covered by the tail |
| DequeueCounters.PaybacksBound | include/messageQueue/concurrentqueue.h:1967-1992 | a draw is within the window if the paybacks since the thread's read of the overcommit, and one for each other thread, are |
| DequeueCounters.IndicesAreDistinctAndBelowTail | include/messageQueue/concurrentqueue.h:1964-2054 | in every run within the window, with any number of dequeuers, the k-th success takes index k, wrapped, while more than k elements are enqueued; the head never passes the tail |
| DequeueWindow.UntimelyRunFails | include/messageQueue/concurrentqueue.h:1966-2054 | one beyond the window it is false: a run of three threads, with 2^63 + 1 races, in which more indices are taken than elements were added |
| DequeueWindow.WindowIsExact | include/messageQueue/concurrentqueue.h:1966-2054 | with at most w dequeues paying back between a thread's read and its draw, or in flight at the draw, no run takes more indices than elements were added, if and only if w is at most 2^63 |
| DequeueCounters.EnqueueAssertion | include/messageQueue/concurrentqueue.h:1880-1884 | the assertion of `enqueue` about head and tail holds |
| DequeueCounters.AtRestTestIsExact | include/messageQueue/concurrentqueue.h:2557-2568 | when no dequeue is under way overcommits are all paid back and the opening test is exact |
| DequeueCounters.DequeueAlone | include/messageQueue/concurrentqueue.h:1964-2054 | when no other dequeue is under way, a dequeue takes the next index exactly when an element is there, and fails otherwise |
| Bytes.BigEndianRoundTrip | src/Server/storageCore.cc:73-83 | shifting out and adding up the four bytes of a word gives it back |
| Bytes.CopyInto | src/Server/storageCore.cc:85-90 | a copy changes exactly its slice |
| ContainerFormat.ParseSerialised | src/Server/recvDecoder.cc:328-345 | parsing any buffer that starts with a serialised container gives the count and, for each chunk, its fingerprint, length, and an absolute offset whose slice is the chunk |
| ContainerFormat.ChunksTile | src/Server/storeOCall.cc:30-47 | the chunks lie one after the other from the header to the end |
| ContainerFormat.ContainerLayout | src/Server/storageCore.cc:73-90 | which bytes hold the count, and each chunk's fingerprint, offset and length |
| Packing.WriteFits | src/Server/storageCore.cc:54-71 | containers stay below the maximum size across rollovers, and an empty one never rolls over |
| Packing.RollsOverExactlyWhen | src/Server/storageCore.cc:54-71 | a container is pushed if and only if the next chunk would bring it to the maximum size |
| Packing.WritePacks | src/Server/storageCore.cc:54-98 | every container but the open one would have reached the maximum size with the first chunk of the next |
| Packing.WriteAppends | src/Server/storageCore.cc:45-98 | whatever the rollovers, a write adds its chunk after all others and moves none |
| Packing.FlushStores | src/Server/dataReceiver.cc:125-131 | after the last flush all chunks of the session are in the queue, in order |
| StorageCore.ClientVar.constructor | src/Util/clientVar.cc:87-92 | a new client has an empty container of the given name |
| StorageCore.ClientVar.WriteContainer | src/Server/storageCore.cc:45-98 | the arrays hold the header and body of the chunks written, a rollover, which happens exactly when the chunk would bring the container to the maximum size, pushes it, and the name returned is the chunk's container |
| StorageCore.PutEntry | src/Server/storageCore.cc:86-90 | the three copies make one header entry |
| StorageCore.ClientVar.Append | src/Server/storageCore.cc:72-94 | copying the chunk and its header entry extends both arrays as the format says |
| StorageCore.ClientVar.OcallWriteContainer | src/Server/storeOCall.cc:25-51 | what is pushed is the open container's name and its serialised bytes |
| StorageCore.ClientVar.PushLast | src/Server/dataReceiver.cc:125-130 | the last container is pushed unless it is empty |
| Dedup.RecordParsed | src/Index/plainIndex.cc:71-75 | a record is read back from any buffer that starts with its batch |
| Dedup.RecipeSlice | src/Index/plainIndex.cc:124-126 | entry `i` of a recipe is its `i`-th 32-byte slice |
| PlainIndex.PlainIndex.SaveChunk | src/Server/storageCore.cc:108-121 | the chunk is written and the written totals count it |
| PlainIndex.PlainIndex.ProcessOne | src/Index/plainIndex.cc:77-92 | what happens under the index lock, from whatever state other sessions left, is exactly one upload of a chunk |
| PlainIndex.PlainIndex.ProcessOneBatch | src/Index/plainIndex.cc:47-102 | a batch has the effect of uploading its chunks one by one: new ones are saved, indexed and counted, others leave everything as it is; the buffer is cleared |
| PlainIndex.PlainIndex.ProcessRecipeBatch | src/Index/plainIndex.cc:104-145 | the recipe is overwritten by one status byte for each entry, 0 exactly for indexed fingerprints and 1 for the others, and nothing else changes |
| DataReceiver.Run | src/Server/dataReceiver.cc:46-139 | a session uploads all chunks of its messages in order, answers each query from the index of that moment, and ends with everything in the queue and the done flag set; the logical counters grow by the announced file size and chunk number |
| DataReceiver.UploadAppend | src/Server/dataReceiver.cc:57-72 | how chunks are cut into batches makes no difference |
| DataReceiver.SessionPacks | src/Server/dataReceiver.cc:57-131 | when a session is over it has pushed no empty container, and every one but the last was full: the first chunk of the next would have brought it to the maximum size |
| DataReceiver.SessionIsMoves | src/Server/dataReceiver.cc:57-131 | a session is a run of moves of the interleaved server, ending with the one by which it hangs up |
| DedupStore.StepKeeps | src/Index/plainIndex.cc:77-92 | every move of every session keeps the invariant: an indexed fingerprint is in the container the index names, once, nowhere else among open, queued and saved containers, and its bytes hash to it |
| DedupStore.RunKeeps | src/Index/plainIndex.cc:69-97 | so it is in every run of any number of interleaved sessions, with restarts in between |
| DedupStore.DrainedIsRestorable | src/Server/dataWriter.cc:92-107 | once all sessions have hung up and drained, every container is a file with the right bytes and everything indexed is on disk |
| DedupStore.StoredIsSent | src/Index/plainIndex.cc:81-89 | what is stored under a sent chunk's fingerprint is that chunk |
| DedupStore.IndexedExactlySent | src/Index/plainIndex.cc:81-92 | a fingerprint is indexed exactly when some session sent a chunk with it |
| DedupStore.AnswerIsExact | src/Index/plainIndex.cc:124-137 | in every run the status of a fingerprint is 0 if some session has sent a chunk with it before, and 1 otherwise |
| DedupStore.QueryThenUpload | src/Index/plainIndex.cc:124-137 | under any interleaving a recipe ends up fully indexed exactly when every entry answered 1 has been sent |
| DedupStore.RestartKeeps | src/Index/absIndex.cc:20-61 | restarting a drained server, with its index and its counters loaded from their files, changes nothing but that no session is left, and keeps the invariant |
| DedupStore.CountersAreExact | src/Index/plainIndex.cc:86-89 | in every run, restarts included, the unique counters are the number and total size of all distinct chunks ever sent, and the index has as many fingerprints |
| DedupStore.CounterIsIndexSize | src/Index/plainIndex.cc:86-88 | the unique chunk counter is the number of fingerprints in the index, even if chunks collide |
| StatFile.LongRoundTrip | src/Index/absIndex.cc:34-38 | the eight bytes of a 64-bit counter give it back |
| StatFile.StatsRoundTrip | src/Index/absIndex.cc:34-58 | five 64-bit counters written to the statistics file and read back, in the same order, are the same five |
| StatFile.StatLayout | src/Index/absIndex.cc:54-58 | which bytes of the file hold which counter |
| PlainIndex.PlainIndex.constructor | src/Index/absIndex.cc:20-41 | a new index has the counters of the statistics file, zeros if there is none, over the database's contents; what the storage core has written starts at 0 |
| PlainIndex.PlainIndex.Close | src/Index/absIndex.cc:47-61 | the destructor leaves a file from which a new index loads the same counters |
| LruSpec.RunIsLru | include/lruCache.h:129-227 | after any operations: distinct keys, most recently used first, each with its last inserted value; only keys used before all the others are missing; the size is within the limit |
| LruSpec.EvictedOnlyForRoom | include/lruCache.h:213-227 | after any operations, an inserted key that was not removed is missing only if at least `maxSize` other keys have been used since; without a limit, never |
| LruCache.Cache.Insert | include/lruCache.h:129-142 | map and list of nodes stay in agreement, and the contents change as the list model says |
| LruCache.Cache.TryGet | include/lruCache.h:143-168 | the value found is the stored one and its key moves to the front; a missing key changes nothing |
| LruCache.Cache.Remove | include/lruCache.h:176-186 | exactly that key goes |
| LruCache.Cache.Prune | include/lruCache.h:213-227 | at the hard limit only the most recent `maxSize` keys stay |
| LruCache.Cache.PruneValue | include/lruCache.h:203-210 | the value of the least recently used key |
| LruCache.Cache.Contains | include/lruCache.h:187-191 | membership of the contents |
| ReadCache.ReadCache.InsertToCache | src/Util/readCache.cc:50-65 | for any name: the contents, the slots counted as used and the pool after the call; and names keep distinct slots that start with their files if and only if the name was not cached, or was the one evicted |
| ReadCache.ReadCache.ReadFromCache | src/Util/readCache.cc:87-91 | what is read starts with the container's file |
| ReadCache.ReadCache.ExistsInCache | src/Util/readCache.cc:74-79 | membership of the cache |
| ReadCache.InsertSafeExactlyWhen | src/Util/readCache.cc:52-64 | for a name that is cached and not the one evicted, a slot is lost or shared by two names; otherwise slots stay distinct |
| ReadCache.InsertOk | src/Util/readCache.cc:52-64 | overwriting the victim's slot before its key is pruned does no harm |
| ReadCache.GroupIsCached | src/Server/recvDecoder.cc:257-300 | after the containers of a group were asked for, no more than there are slots, the cache has them all, the last one first |
| RestoreIndex.IndexConstruct | src/Server/recvDecoder.cc:324-349 | the loops build the index of all entries of the containers held |
| RestoreIndex.IndexFinds | src/Server/recvDecoder.cc:334-345 | if no fingerprint repeats, each is found with the offset and length that its own container has |
| RestoreIndex.IndexOnlyHas | src/Server/recvDecoder.cc:334-345 | nothing is found that is in none of the containers |
| RecvDecoder.SlotAndEntryAgree | src/Server/recvDecoder.cc:181-189 | the entry found by fingerprint and the container chosen by name belong together, so the slice is the chunk |
| RecvDecoder.Decoder.GetReqContainers | src/Server/recvDecoder.cc:246-305 | each container held starts with its file, from cache or disk, and is then the most recently used of the cache; it fails exactly when a file is missing |
| RecvDecoder.Decoder.Step | src/Server/recvDecoder.cc:159-175 | a group is closed exactly when its entries are in 16 different containers, or at the last entry |
| RecvDecoder.Decoder.RecoverOneChunk | src/Server/recvDecoder.cc:99-111 | one length-prefixed record is appended to the message |
| RecvDecoder.Decoder.ReadWanted | src/Server/recvDecoder.cc:142-153 | all fingerprints are taken out of the shared buffer before it is overwritten |
| RecvDecoder.Decoder.SendGroup | src/Server/recvDecoder.cc:175-205 | a group of at most 16 containers yields its chunks in order; it fails, with nothing sent, exactly when one of its fingerprints is not indexed |
| RecvDecoder.Decoder.ProcessRecipeBatch | src/Server/recvDecoder.cc:120-226 | a batch is answered if and only if all its fingerprints are indexed: by exactly its chunks in order, within one message's item and buffer limits, and an empty end message; otherwise nothing is sent |
| RecvDecoder.Decoder.Run | src/Server/recvDecoder.cc:68-88 | batches are answered up to the first that is not fully indexed, the cache surviving between them |
| EndToEnd.SentCanBeRestored | src/Server/recvDecoder.cc:120-226 | after any drained run, the fingerprints of any sent chunks make a batch whose answer is those chunks |
| EndToEnd.RestoreUploads | src/Server/recvDecoder.cc:42-90 | after any interleaved uploads have drained, restoring any recipes of uploaded chunks sends exactly the original bytes in recipe order |
| EndToEnd.DownloadSession | src/Util/clientVar.cc:230-254 | the same for a download session that makes its own buffers and cache |
| Pipeline.WorldIsServer | src/Server/serverOptThread.cc:196-243 | sessions whose receiver and writer threads share a lock-free queue, interleaved at every access, do what the simpler server does |
| Pipeline.WritersDrain | src/Server/serverOptThread.cc:231-240 | when all writers have returned, that server is drained and everything sent is on disk |
| PipelineProgress.EverybodyReturns | src/Server/serverOptThread.cc:196-243 | from every reachable state, with any number of sessions at any point, all clients can hang up and all writers return, with nothing new received |
| PipelineProgress.EveryChunkIsTaken | src/Server/dataReceiver.cc:57-72 | a client that has not hung up is never turned away: its next chunk is taken in and indexed |
| EndToEnd.RestoreAfterUploads | src/Server/recvDecoder.cc:42-90 | end to end, nothing assumed of the queues: once all writers have returned, a download session sends exactly the original bytes in recipe order |
| EndToEnd.ReplyDecodes | src/Server/recvDecoder.cc:102-108 | the receiver can cut each chunk out of the message |
| EndToEnd.AnswerQuery | src/Index/plainIndex.cc:104-145 | after any run, the bytes that a query leaves in the buffer are 0 exactly for fingerprints of chunks that were sent, and 1 for the others |
| EndToEnd.IndexSurvivesRestart | src/App/daeServer.cc:42-63 | after any run, destroying index and database and constructing them again from their two files gives the same fingerprints and counters, whatever the order of writing: exactly the state after the restart move |
| IndexFile.InMemoryDatabase.Close | src/Database/inMemoryDatabase.cc:28-46 | the file is the items in the order of enumeration, sizes converted to `int` |
| IndexFile.InMemoryDatabase.OpenDB | src/Database/inMemoryDatabase.cc:55-104 | the loop ends on every file and loads only non-empty keys and sizes below 2^31; of a saved file it loads all items before the first empty key |
| IndexFile.RoundTripExactlyWhen | src/Database/inMemoryDatabase.cc:28-104 | closing a database and opening its file gives the same map, whatever the order, if and only if no key is empty and all sizes are below 2^31 |
| IndexFile.EmptyKeyLosesAll | src/Database/inMemoryDatabase.cc:82-85 | a saved map with an empty key enumerated first is opened as an empty one |
| IndexFile.HugeValueFails | src/Database/inMemoryDatabase.cc:41-43 | a saved map with a value of 2^31 bytes is not opened as it was |
| ClientLocks.OneSessionPerClient | src/Server/serverOptThread.cc:105-150 | in every run no two threads serve the same client at once |
| ClientLocks.SomebodyCanMove | src/Server/serverOptThread.cc:108-122 | no deadlock |
| ClientLocks.EverybodyGetsServed | src/Server/serverOptThread.cc:87-153 | from every reachable state all threads can finish, in exactly as many moves as there is work left |
| ClientLocks.MovesCount | src/Server/serverOptThread.cc:108-150 | every move that is not a wait uses up one unit of work |
| ClientLocks.WaitingBlocksEveryone | src/Server/serverOptThread.cc:110-115 | while a second connection of a client waits, no new connection gets further |
| ClientLocks.WaitsExactlyWhen | src/Server/serverOptThread.cc:108-122 | in every run a connection waits at the table exactly while another one of the same client is served, and before it exactly while somebody is at the table |
| ClientLocks.AllServedAtOnce | src/Server/serverOptThread.cc:117-121 | connections of different clients can all be served at the same time |
| CompressGen.CompressGen.GenerateLengths | src/Util/compressGen.cc:74-91 | each frequency counts the draws of its length; it fails exactly when a draw is out of range |
| CompressGen.CompressGen.NextLength | src/Util/compressGen.cc:114-122 | the greatest length left is found; frequencies and literals change only by a refill, which happens exactly when all are spent, once |
| CompressGen.CompressGen.LZGenerateData | src/Util/compressGen.cc:100-149 | it fills exactly `size` bytes by the steps that the draws determine (literals drawn then, or the start of the round's drawn literals, of the greatest length left in the round, clipped only by what is left to fill), if and only if the rounds this takes draw no length out of range; otherwise it stops at the round that does |
| CompressGen.StuckFailsAll | src/Util/compressGen.cc:82-85 | if the round that has to begin now draws a length out of range, no sequence of steps fills the bytes with its rounds in range |
| CompressGen.OneOutput | src/Util/compressGen.cc:100-149 | the draws determine all steps, so nothing else can be written |
| CompressGen.RoundsAreUsedUp | src/Util/compressGen.cc:114-124 | when a round ends each length was used exactly as often as it was drawn |
| CompressGen.LengthsDescend | src/Util/compressGen.cc:114-124 | within a round lengths only get shorter |
| CompressGen.StepsAreWhole | src/Util/compressGen.cc:125-145 | only the last step is cut short, and a copy never follows a copy directly |

## Left out

- Fairness: progress is stated as bounds on a thread's own steps, or as the turns that lead to the end; that the scheduler grants them is not modelled.
- Weak memory: fences and memory orders are not modelled; every step is sequentially consistent.
- Updates in place of the concurrent structures: the queue, semaphore, free list, counters and lock table are values that a step function changes, because their threads interleave between accesses.
- Lifetimes: element destructors and freeing of memory appear only as the state of a queue slot; move constructors and exceptions of the queue are not modelled.
- `pop` of the queue: the same accesses as `try_dequeue` without the copy out.
- Queue sizes near 2^63: `size + 1` must be representable as a power of two in 64 bits.
- `ConcurrentQueue` beyond its free list and counters: blocks, block index, bulk operations, producer list and thread-id table.
- DequeueCounters.IndicesAreDistinctAndBelowTail: says nothing of runs beyond the window of 2^63; `DequeueWindow.WindowIsExact` shows that no wider window will do.
- RecvDecoder.Decoder.SendGroup: the containers held are a sequence of buffers and not an array of pointers, so aliasing among them is not captured; the offset and size of an entry are locals.
- LruCache.Cache.Insert: list nodes are handles into a map, not pointers; `clear` and `cwalk` are not modelled.
- TLS, certificates, OpenSSL hashing and ciphers, JSON configuration, logging, timing, and statistics other than the counters of the index.
- LevelDB, the database factory, and the recipe files with `RecipeSender`: thin I/O.
- DataReceiver.Run: is for a session during which no other session touches the index (interleaved sessions are `PlainIndex.PlainIndex.ProcessOne`, one chunk at a time, and the runs of `DedupStore` and `Pipeline`); messages other than chunks and queries change nothing in the model, and an unknown message type, which ends the program, does not occur.
- QueueCapacity.MaxCapacity: walks a ring that does not change meanwhile; a call from the consumer's thread during an allocation is not modelled.
- IndexFile.InMemoryDatabase.Close: takes it that a stream asked to write a negative number of bytes writes nothing any more, which the language leaves open; the round trip fails either way.
- The numeric distribution of the generator's lengths and literals: `pow` and the random generator are replaced by arbitrary values.
