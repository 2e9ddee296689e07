# Dogee in Dafny

Dogee is a C++ library for distributed shared memory: objects live in memcached, every node caches
blocks of them, and threads on all nodes accumulate vectors, run map-reduce and take checkpoints
together. This project models the stateful parts of it and proves what they promise.

Sockets are FIFO queues, memcached is a map, and threads are interleaved steps. Code that changes
things in place is a class or a method with loops, proved against functions; the protocols, where
several nodes interleave, are step systems with invariants over every run. The methods of the classes
and the steps of the systems use the same functions, so the two levels fit together.

| file | what it is about |
|---|---|
| `Words.dfy`, `Sums.dfy`, `Counting.dfy`, `Options.dfy` | 32-bit words and blocks, sums of vectors, counting flags, values that may be absent |
| `Partition.dfy` | how a vector is split over the nodes |
| `Chunks.dfy`, `Sender.dfy`, `DataSyncNode.dfy` | the accumulator's code on one node: cutting, sending, receiving |
| `Fates.dfy`, `FlushedSegment.dfy` | what becomes of each element when a node flushes its segment through its cache |
| `Rounds.dfy` | the round protocol that accumulator and map-reduce share |
| `Accumulator.dfy`, `AccumulatorTheorems.dfy`, `AccumulatorLayout.dfy`, `RoundValues.dfy` | the accumulator on all nodes: what the shared array holds after each round |
| `FlushPlans.dfy`, `EverySum.dfy` | flushes through caches in any state, and when they leave the sum whatever the vectors are |
| `SendLoop.dfy`, `Progress.dfy` | when the send loop sends everything, and when everybody can return |
| `SenderSteps.dfy`, `NodeSteps.dfy` | the code on one node is a user and a node of the system: its calls are sequences of the system's steps |
| `BlockProtocol.dfy`, `Coherence.dfy` | the directory protocol as one block sees it |
| `Directory.dfy`, `DirectoryTheorems.dfy` | the protocol with all blocks and queues, and what holds of its runs |
| `Overlaps.dfy`, `CacheLimits.dfy` | which overlapping operations, and which write misses, go wrong |
| `Masks.dfy`, `DirectoryHome.dfy` | a home's handlers over its bit masks, against the steps of the protocol |
| `Recency.dfy`, `LocalCache.dfy`, `CacheChunks.dfy` | one node's cache: replacement, renews, accesses of any length |
| `Objects.dfy`, `ChunkStorage.dfy`, `WordStorage.dfy`, `StorageBackends.dfy` | the two memcached backends and the memory both refine |
| `Checkpoint.dfy`, `CheckpointNode.dfy`, `CheckpointCodec.dfy` | crash consistency, one node's code for it, and the contents of a checkpoint file |
| `Serializer.dfy`, `MapReduceBatches.dfy`, `MapReduce.dfy` | map-reduce: codec, batches, the whole system |
| `LocalBarrier.dfy` | the barrier of one node's threads |

`dfyconfig.toml` lists all files, so `dafny verify dfyconfig.toml` checks the project.

## Main results

* **Accumulator.** In every run, whatever the interleaving, chunking and mix of modes, when a user's
  call returns, and until every user has called again, each element of the shared array is what its owner's
  flush makes of the sum of all users' vectors of that round (`AccumulatorTheorems.ArrayAfterRound`,
  `RoundValues.ArrayIsValue`). With the guard of the send loop, all vectors are summed right, in all runs and
  rounds, if and only if every flush stores every element (`EverySum.EverySumIffStored`; for given vectors,
  `RoundValues.AlwaysSumIff`), that is, if and only if in every flush every block of
  the segment is homed elsewhere, or resident when its turn comes, or holds a single word of the segment
  (`EverySum.EverySumIffKept`). Without a directory cache this is always so (`EverySum.NoCacheSums`). With a
  positive threshold each stored component is off by at most the threshold per user on another node
  (`AccumulatorTheorems.OutputIsClose`).
* **Progress.** If the guard of the send loop holds, from every reachable state a user can return without
  anybody making a new call, if and only if nobody is behind it (`Progress.UserReturns`,
  `Progress.EverybodyReturns`).
* **Rounds.** Users never mix rounds, and the step that ends a round wakes each user exactly once
  (`Rounds.RoundsNeverMix`, `Rounds.CompletionWakesEachOnce`).
* **Directory.** The many-block system, seen from any block, is the one-block protocol
  (`Directory.SystemRefines`). From it follow, for every run: the directory covers all copies and is exact
  when nothing is in flight; every word read is zero or was put there; and, when a put overlaps nothing on its
  block and a write miss at the home carries one word, every read returns the latest completed put. Of the ways
  in which a block's clients may overlap, no other one gives that (`Overlaps.SafeIff`).
* **Renews.** Whatever happens to the cache between a renew's lookup and its key check, a renew does what it
  would do as one step, taken at its key check or, doing nothing, at some moment in between
  (`LocalCache.RenewIsAtomic`).
* **Storage.** Both backends give, for every sequence of operations inside objects, the answers of a set
  of flat zero-initialised objects (`StorageBackends.Indistinguishable`).
* **Checkpoints.** Through any number of crashes and restarts, the files that `.master` names exist on all nodes and
  stem from one barrier round, except, and exactly, at one moment while the master closes
  (`Checkpoint.CheckpointsAreConsistent`).
* **Map-reduce.** What reaches `DoReduce` on all nodes together is, as a multiset, what `DoMap` emits over
  all inputs (`MapReduce.ReduceConserves`).

## Where the code falls short of what it seems to promise

The model follows the code. For each of these a lemma says exactly when the code does what it should.

* The send loop counts an empty own segment twice (`Dogee/DogeeAccumulator.cpp:551` and `:559-564`), so it
  may wait before it has sent everything; the round then never ends. It always sends everything if and
  only if each user's own segment is non-empty or the vector is empty: `SendLoop.SendLoopExact`,
  `AccumulatorLayout.GuardIsOwnStart`. What a call that does return has computed does not depend on it
  (`RoundValues.ArrayIsValue`).
* Senders and receivers compute the split in 32 bits (`Dogee/DogeeAccumulator.cpp:134-144` and `:536-565`). They
  agree exactly for fewer than 2^27 nodes: `Partition.AgreedIffFewNodes`.
* A renew that arrives while a miss for the block is under way is dropped
  (`Dogee/DogeeDirectoryCache.cpp:29-42`); a get overlapping a put can leave a stale copy for good
  (`Overlaps.OverlapLeavesStaleCopy`), and two overlapping puts can leave copies that differ
  (`Overlaps.PutWithPutUnsafe`). Clients that allow neither always read the latest completed put, and no other
  policy is safe: `Overlaps.SafeIff`.
* A write miss at the home itself passes length 1 (`Dogee/DogeeDirectoryCache.cpp:315`). One miss stores the
  whole put exactly when the words after the first had their values already: `CacheLimits.MissStoresPatch`.
  Hence `putchunk` of the cache loses all but the first word of each piece that misses at its own home. It is the
  flat write exactly when the lost words had their values already: `CacheChunks.FlatIff`; `CacheChunks.ColdPutLosesWords`
  is an input that fails, and `CacheChunks.NothingLost` a check of the blocks that excludes it.
* The accumulator flushes through this `putchunk` (`Dogee/DogeeAccumulator.cpp:342`). Elements in blocks that are
  homed at the flushing node and not resident are lost, but for the first word of the block
  (`FlushedSegment.FateExactly`). `EverySum.EverySumIffKept` is the exact condition on the blocks for the sums to be
  right, `EverySum.ColdSumIsWrong` a run that ends with a wrong one.
* `putchunk` of the block-keyed store computes its bounds in 32 bits. It is right exactly when none of
  them wraps: `ChunkStorage.RightIffFits`. The cache's `putchunk` does the same in 64 bits:
  `CacheChunks.HeadOkIffFits`.
* The batch offset of the word-keyed `MemcachedGetChunk` wraps for lengths close to 2^32; the last batch is then
  taken for a full one. Some pass of the loop does this exactly when the batches do not fit 32 bits:
  `WordStorage.LastBatchOverruns`.
* `remove_checkpoint_files` removes the master's own files before the `.master` file that names them
  (`Dogee/DogeeCheckpoint.cpp:27-42`). A crash in between, and only there, makes the restart fail:
  `Checkpoint.RestartFailsIff`, `Checkpoint.ClosingCrashLosesCheckpoint`.
* The dump and restore loops never end for objects of more than 2^32 - 8192 words: `CheckpointCodec.WrapsIffTooLarge`.
* Strings come back exactly if they contain no NUL: `Serializer.RoundTrip`.

## Model

| member | source | states |
|---|---|---|
| Partition.SenderReceiverAgree | Dogee/DogeeAccumulator.cpp:122-152 | for all vector sizes up to the limit and fewer than 2^27 nodes, the segment a node computes for itself and the one each sender computes for it (lines 536-565) start at the same word and end at the same word, and one is empty when the other is |
| Partition.AgreedIffFewNodes | Dogee/DogeeAccumulator.cpp:134-144 | senders and receivers agree on every segment if and only if there are fewer than 2^27 nodes or nothing to split |
| Partition.SegmentsPartition | Dogee/DogeeAccumulator.cpp:552-565 | every word of the vector lies in exactly one segment, and no segment reaches beyond the vector |
| Partition.SegmentsKeepElementsWhole | Dogee/DogeeAccumulator.cpp:536-565 | segments start and end on element boundaries, so no two-word element is split |
| Partition.NonEmptyIsPrefix | Dogee/DogeeAccumulator.cpp:559-564 | the nodes with a non-empty segment come first; node 0 has one unless the vector is empty |
| Chunks.KeptIsClose | include/DogeeAccumulator.h:81-86 | threshold 0 changes no value; a positive one moves a value by less than itself |
| Chunks.MakeSparseArray | include/DogeeAccumulator.h:72-95 | the loop covers the elements up to the first that no longer fits and emits exactly the non-zero kept ones, in order, with their indices |
| Chunks.PrepareBuffer | include/DogeeAccumulator.h:102-130 | for the mode chosen, the chunk is the one `NextChunk` specifies |
| Chunks.SparseItemsSum | include/DogeeAccumulator.h:77-93 | summed per element, the items of a sparse chunk are the kept values of exactly the scanned range |
| Chunks.NextChunkCovers | include/DogeeAccumulator.h:72-130 | every chunk, in either mode, advances by at least one whole element and never past the segment, has at most 16384 bytes, passes the receiver's bound asserts, and adds exactly the kept elements it advances over |
| Chunks.DoAccumulateDense | include/DogeeAccumulator.h:278-286 | adds each value to its element of the buffer and touches no other |
| Chunks.DoAccumulateSparse | include/DogeeAccumulator.h:288-296 | adds to each element the sum of the items that carry its index |
| Sender.OpenSegments | Dogee/DogeeAccumulator.cpp:551-565 | all segment bounds, a final message to each other node whose segment is empty, and `done` as the code counts it, the own empty segment included |
| Sender.TilesAppend | Dogee/DogeeAccumulator.cpp:610-624 | a chunk put behind the earlier ones still tiles the segment: no gap, no overlap, only the one that reaches the end carries the thread id |
| Sender.ScanOnce | Dogee/DogeeAccumulator.cpp:599-627 | one pass sends each unfinished writable node exactly its next chunk and nobody else anything |
| Sender.EverythingSent | Dogee/DogeeAccumulator.cpp:586 | when `done` reaches the node count and the guard holds, every segment is sent to its end |
| Sender.SendAll | Dogee/DogeeAccumulator.cpp:566-628 | for sockets that become writable in any order and any choice of modes, what each node was sent tiles its segment; if the loop ends and the guard holds, to the end, with one final message |
| Sender.SendVector | Dogee/DogeeAccumulator.cpp:533-628 | the whole call up to the wait: it cuts the segments that the receivers expect and sends tiles of them |
| DataSync.DataSyncNode.constructor | Dogee/DogeeAccumulator.cpp:122-152 | a new node owns the segment of `Partition`, its buffer is zero and nothing is counted |
| DataSync.DataSyncNode.AddData | Dogee/DogeeAccumulator.cpp:315-328 | the buffer gains exactly the message's contribution |
| DataSync.DataSyncNode.PartialDone | Dogee/DogeeAccumulator.cpp:264-283 | the master's count, wait list and wake-ups are those of the step system |
| DataSync.DataSyncNode.AccumulateMsg | Dogee/DogeeAccumulator.cpp:310-362 | all fields, the shared array, the report and the wake-ups after one message: data first; a final message counts and joins the wait list; the last one flushes the segment, each element as the state of the cache decides, clears the buffer and reports |
| NodeSteps.HandleMessage | Dogee/DogeeAccumulator.cpp:310-362 | handling the message at the head of a queue takes the object from node n of a reachable state to node n of the state after the delivery; it reports and wakes whom the delivery does |
| NodeSteps.WokenAre | Dogee/DogeeAccumulator.cpp:271-280 | the users the handler wakes are exactly those who have one more wake-up under way after the delivery |
| SenderSteps.SendVectorIsPath | Dogee/DogeeAccumulator.cpp:533-629 | from any reachable state with the user idle, entering the call and then steps of this user alone lead to a state in which it has sent each node exactly what the loop's log says, and waits if the loop's condition failed |
| FlushedSegment.FateExactly | Dogee/DogeeAccumulator.cpp:338-343 | a flush through the cache loses exactly the elements in blocks homed at the node and not resident when their turn comes; of the first element of such a block one word is stored |
| FlushedSegment.ElementFares | Dogee/DogeeAccumulator.cpp:342 | after putchunk of the segment's words, memory holds all new words of a stored element and all old words of a missed one |
| FlushedSegment.TornFares | Dogee/DogeeDirectoryCache.cpp:315 | of an element of two words that is torn, the first word is new and the second old, and its value is the one the two words make |
| FlushedSegment.FlushWords | Dogee/DogeeAccumulator.cpp:342 | the call of putchunk leaves every element of the segment as its fate says |
| Rounds.StepInv | Dogee/DogeeAccumulator.cpp:310-362 | every step (call, send, deliver, report, wake, return) keeps the round invariant |
| Rounds.RoundsNeverMix | Dogee/DogeeAccumulator.cpp:330-360 | at every point of every run nobody has returned from a round somebody has not called yet, calls are at most one apart, and each node has flushed once per finished round and at most once more |
| Rounds.ReturnedMeansReceived | Dogee/DogeeAccumulator.cpp:629 | when a user has returned, everything sent in that round has arrived, in order, and no queue holds any of it |
| Rounds.FlushMeansAll | Dogee/DogeeAccumulator.cpp:338-345 | a node that flushes has seen every message of every user of this round |
| Rounds.RoundEndMeansAll | Dogee/DogeeAccumulator.cpp:271-280 | when the done count reaches the node count, every node has flushed in this round and every user is in it |
| Rounds.CompletionWakesEachOnce | Dogee/DogeeAccumulator.cpp:264-283 | that step finds each user on the wait list, gives each exactly one wake-up, its only one, and empties count and list |
| Rounds.SomethingInFlight | Dogee/DogeeAccumulator.cpp:310-362 | while all users wait with everything sent, some message or report is still under way |
| Accumulator.ChunkInBounds | include/DogeeAccumulator.h:280-294 | a chunk cut for node k satisfies node k's asserts |
| Accumulator.StepsAreReady | Dogee/DogeeAccumulator.cpp:586-628 | in every reachable state the index arithmetic and the protocol can do what the code does next |
| Accumulator.FlushedIsSum | Dogee/DogeeAccumulator.cpp:338-344 | what a node writes when it flushes is the sum of all users' vectors as sent, on its segment |
| Accumulator.StepInv | Dogee/DogeeAccumulator.cpp:533-630 | every step of senders, nodes and network keeps the invariant that ties cursors, messages, buffers and the shared array together, whatever each flush does to each element |
| AccumulatorTheorems.ArrayAfterRound | Dogee/DogeeAccumulator.cpp:310-362 | threshold 0: when a user has returned from its round-r call and some user has not called again, each element is what its owner's flush made of the sum of all round-r vectors |
| AccumulatorTheorems.OutputIsSum | Dogee/DogeeAccumulator.cpp:310-362 | in that situation, if the flushes of the round store every element, the shared array is the elementwise sum of all round-r vectors; for the vectors at hand it is so exactly if each element that was not stored comes to have its value all the same |
| AccumulatorTheorems.OutputIsClose | include/DogeeAccumulator.h:81-86 | threshold t > 0: the value flushed for each component is within t times the number of users not on the owning node; a component that is stored has this value, any other is what the flush makes of it |
| RoundValues.ArrayIsValue | Dogee/DogeeAccumulator.cpp:310-362 | the shared array after round r depends on the start values, the vectors and the fates of the flushes, not on the schedule |
| RoundValues.LossShows | Dogee/DogeeAccumulator.cpp:338-343 | if a flush fails to store an element that needed storing, some run reaches the end of this round with a wrong value there |
| FlushPlans.FatesAre | Dogee/DogeeAccumulator.cpp:338-343 | with a cache state for every round and node, each element's fate in each round is decided by home, residency and position of its own block in its owner's flush |
| FlushPlans.StoredIffKept | Dogee/DogeeDirectoryCache.cpp:310-318 | every element of every round is stored if and only if no block of any segment comes to a write miss at its own home that carries more than one word |
| EverySum.NotStoredShows | Dogee/DogeeAccumulator.cpp:338-343 | for any start array and any element that some flush does not store there are vectors for which a run ends with a wrong sum |
| EverySum.EverySumIffStored | Dogee/DogeeAccumulator.cpp:310-362 | with the guard and threshold 0, from any start array: every run leaves the sum after every round, for all vectors, if and only if every flush stores every element |
| EverySum.EverySumIffKept | Dogee/DogeeAccumulator.cpp:338-343 | for flushes through caches: so if and only if in every flush every block of the segment is homed elsewhere, or resident when its turn comes, or holds a single word of the segment |
| EverySum.NoCacheSums | include/DogeeStorage.h:167-170 | without a directory cache all vectors are summed right, wherever the users run |
| EverySum.ColdSumIsWrong | Dogee/DogeeAccumulator.cpp:342 | one node with an empty cache and one user: the first round ends with zero where the sum is one |
| AccumulatorTheorems.AssertsNeverFire | include/DogeeAccumulator.h:278-296 | in every run the receivers' bound asserts hold for the next message of every queue |
| AccumulatorLayout.LayoutOk | Dogee/DogeeAccumulator.cpp:536-565 | the segments the source computes are a legal configuration of the step system |
| AccumulatorLayout.BuffersMatch | Dogee/DogeeAccumulator.cpp:132-147 | each receiver's buffer covers exactly the segment the senders fill |
| AccumulatorLayout.GuardIsOwnStart | Dogee/DogeeAccumulator.cpp:559-564 | the guard of the send loop as a caller can check it: the own segment starts inside the vector, or the vector is empty |
| SendLoop.SendLoopExact | Dogee/DogeeAccumulator.cpp:551-628 | in every run each waiting user has sent all its final messages, if and only if every user's own segment is non-empty or the vector is empty |
| SendLoop.BadRun | Dogee/DogeeAccumulator.cpp:559-564 | a run in which a user with an empty own segment waits without having sent everything |
| SendLoop.StuckForever | Dogee/DogeeAccumulator.cpp:629 | such a user stays in its wait for ever |
| SendLoop.NoDeadlock | Dogee/DogeeAccumulator.cpp:586-629 | with the guard, while all users are inside a call, some step of the code is possible (that the steps lead somewhere is the next two rows) |
| Progress.UserReturns | Dogee/DogeeAccumulator.cpp:551-629 | with the guard, from every reachable state finitely many steps without a new call take a user out of its call, if and only if no user has made fewer calls |
| Progress.EverybodyReturns | Dogee/DogeeAccumulator.cpp:551-629 | and take all users out of their calls, if and only if all have made the same number |
| BlockProtocol.DirStep | Dogee/DogeeDirectoryCache.cpp:123-262 | every step in every interleaving keeps the relation of sharer mask, copies and messages under way |
| BlockProtocol.CopyMeansBit | Dogee/DogeeDirectoryCache.cpp:148-278 | a node with a copy has its bit set and no write-back under way |
| BlockProtocol.QuietMaskIsExact | Dogee/DogeeDirectoryCache.cpp:123-145 | with nothing in flight the mask is the set of nodes that hold the block |
| BlockProtocol.ProvenanceStep | Dogee/DogeeDirectoryCache.cpp:16-45 | races included, every step keeps: each word anywhere is zero or was put at its place |
| Coherence.CoherentStep | Dogee/DogeeDirectoryCache.cpp:72-262 | while a put overlaps no other operation on the block (gets may overlap gets), every step keeps copies, renews, backend and completed puts in agreement |
| Coherence.ReadReturnsLatest | Dogee/DogeeDirectoryCache.cpp:550-599 | a read that is about to return has the block as the completed puts left it |
| Directory.SystemRefines | Dogee/DogeeDirectoryCache.cpp:72-535 | every step of the system with all blocks and shared queues is, for each block, one step of the one-block protocol or none |
| Directory.ReplyIsExpected | Dogee/DogeeDirectoryCache.cpp:294-306 | the reply a client takes is about its own block and of the kind it waits for |
| DirectoryTheorems.DirectoryKnowsCopies | Dogee/DogeeDirectoryCache.cpp:385-453 | in every run a resident block has its bit set at its home and no write-back from that node under way |
| DirectoryTheorems.QuietDirectoryIsExact | Dogee/DogeeDirectoryCache.cpp:123-145 | in every run, with nothing in flight, each mask is exactly the resident set, and blocks nobody holds have no entry |
| DirectoryTheorems.NeverFaulted | Dogee/DogeeDirectoryCache.cpp:300-305 | no run reaches the bad-address branches of homes or clients |
| DirectoryTheorems.PutsWereStarted | Dogee/DogeeDirectoryCache.cpp:470-535 | the history of puts consists of the puts the run's clients began |
| DirectoryTheorems.ReadsComeFromPuts | Dogee/DogeeDirectoryCache.cpp:537-600 | in every run, races included, each word a read returns is zero or some earlier put carried it for that address |
| DirectoryTheorems.LatestIsLastPut | Dogee/DogeeDirectoryCache.cpp:470-535 | what `latest` records is, by definition over the run's steps, the last completed put that covers the word, or zero |
| DirectoryTheorems.ReadsReturnLatest | Dogee/DogeeDirectoryCache.cpp:280-378 | in every run in which a put overlaps nothing on its block and a write miss at the home carries one word, gets, other blocks and evictions going on freely, each word read is the latest completed put's, or zero |
| Masks.MaskUpdates | Dogee/DogeeDirectoryCache.cpp:136-169 | setting or clearing a bit of a mask adds or removes exactly that node |
| Masks.ZeroMeansNobody | Dogee/DogeeDirectoryCache.cpp:137-140 | a mask is zero if and only if nobody shares the block |
| Masks.NarrowFits | Dogee/DogeeDirectoryCache.cpp:136 | a mask of n nodes fits a word of n bits |
| DirectoryHome.Home.ServerWriteback | Dogee/DogeeDirectoryCache.cpp:123-145 | the home's masks, backend and sockets afterwards are those after the system's step; the entry goes when its mask becomes zero |
| DirectoryHome.Home.ServerReadMiss | Dogee/DogeeDirectoryCache.cpp:221-262 | the same for a read miss: the reader joins the sharers and gets the backend's block |
| DirectoryHome.Home.Renew | Dogee/DogeeDirectoryCache.cpp:94-113 | shifting through the mask sends one renew to every sharer but the writer and nothing to others |
| DirectoryHome.Home.ServerWrite | Dogee/DogeeDirectoryCache.cpp:72-121 | the handler as a whole does what the system's steps do in turn: store, one renew per sharer, acknowledge |
| DirectoryHome.Home.ServerWriteMiss | Dogee/DogeeDirectoryCache.cpp:148-219 | the same for a write miss: store, renew the old sharers, add the writer, answer with the new block |
| DirectoryHome.WriteOutcome | Dogee/DogeeDirectoryCache.cpp:83-120 | the system's steps for a write add up to: patch stored, every sharer but the writer renewed once, writer answered, directory unchanged |
| DirectoryHome.MissOutcome | Dogee/DogeeDirectoryCache.cpp:159-218 | and for a write miss: patch stored, sharers renewed once, writer added and answered with the patched block |
| Overlaps.OverlapLeavesStaleCopy | Dogee/DogeeDirectoryCache.cpp:29-42 | a run with a get overlapping a put that ends quietly, directory exact, and leaves a stale copy |
| Overlaps.PutWithPutUnsafe | Dogee/DogeeDirectoryCache.cpp:470-535 | if two puts may overlap, some run has a read that does not return the latest completed put |
| Overlaps.LongMissUnsafe | Dogee/DogeeDirectoryCache.cpp:315 | if a put that misses at its own home may carry more than one word, so it does |
| Overlaps.SafeIff | Dogee/DogeeDirectoryCache.cpp:16-599 | a policy of overlaps and miss lengths lets every read of every run return the latest completed puts if and only if it allows no get with a put, no two puts and no such miss |
| CacheLimits.MissStoresPatch | Dogee/DogeeDirectoryCache.cpp:310-344 | a write miss leaves in the backend the whole put if and only if it is not local or the words after the first had their values |
| CacheLimits.LocalMissLosesWords | Dogee/DogeeDirectoryCache.cpp:315 | a put of two words whose second word is lost |
| Recency.AfterFaithful | Dogee/DogeeDirectoryCache.cpp:408-440 | the list of resident keys is always ordered by last use |
| Recency.ResidentIffRecent | Dogee/DogeeDirectoryCache.cpp:408-440 | a key is resident if and only if fewer other keys than the capacity were used since its last use |
| Recency.VictimIsOldest | Dogee/DogeeDirectoryCache.cpp:411-420 | the key to be evicted is the resident one whose last use is oldest |
| LocalCache.BlockCache.constructor | include/DogeeDirectoryCache.h:366-387 | all blocks are keyless and free |
| LocalCache.BlockCache.FindOldest | Dogee/DogeeDirectoryCache.cpp:411-420 | the scan returns a block in use with the smallest stamp, or -1 if there is none below the maximum |
| LocalCache.BlockCache.ScanFindsFirst | Dogee/DogeeDirectoryCache.cpp:421 | in a full cache the assertion holds and the scan's block is the least recently used one |
| LocalCache.BlockCache.GetBlock | Dogee/DogeeDirectoryCache.cpp:385-453 | takes a free block if there is one and else the victim; index, keys, stamps, queue and the write-back follow |
| LocalCache.BlockCache.Get | Dogee/DogeeDirectoryCache.cpp:537-600 | returns the resident words on a hit and the fetched ones on a miss; changes residency and order as least recently used replacement does; all other blocks keep their words; index and keys stay inverse, resident and free blocks together stay the capacity |
| LocalCache.BlockCache.Put | Dogee/DogeeDirectoryCache.cpp:470-535 | the same for puts: a hit patches the copy, a miss takes the home's answer |
| LocalCache.BlockCache.FindForRenew | Dogee/DogeeDirectoryCache.cpp:22-26 | the lookup gives the block that holds the key now, or none, and changes nothing |
| LocalCache.BlockCache.ApplyRenew | Dogee/DogeeDirectoryCache.cpp:27-42 | on whatever the cache has become since, the block found is patched if and only if it still has the key and is not locked; the contents change at this key only |
| LocalCache.BlockCache.ServerRenew | Dogee/DogeeDirectoryCache.cpp:16-45 | both parts without interruption: in the middle of a miss or not, a renew patches the block of its own key and no other |
| LocalCache.AppliedContents | Dogee/DogeeDirectoryCache.cpp:29-36 | in every valid cache state, whatever block the lookup had found, the key check lets the renew change the contents of its own key only, and only where that block holds it |
| LocalCache.KeyCheckMatters | Dogee/DogeeDirectoryCache.cpp:31 | a block swapped out and reused after the lookup: without the key check the renew would overwrite the other key's words |
| LocalCache.RenewIsAtomic | Dogee/DogeeDirectoryCache.cpp:16-45 | after any gets, puts, evictions and other renews between lookup and key check, the renew does what a whole renew would do at the moment of its key check, or it does nothing and at some moment in between a whole renew would have done nothing |
| LocalCache.UseKeepsOrder | Dogee/DogeeDirectoryCache.cpp:385-453 | a use keeps the cache consistent and moves the key order exactly as `Recency` says |
| LocalCache.UseKeepsContents | Dogee/DogeeDirectoryCache.cpp:385-453 | a use changes the contents at its key and removes the victim's, and nothing else |
| LocalCache.VictimLastUse | Dogee/DogeeDirectoryCache.cpp:408-421 | after any history of gets and puts the victim's last use is older than that of every other resident key |
| CacheChunks.HeadOkIffFits | Dogee/DogeeDirectoryCache.cpp:642-657 | the first piece stays inside its block and the range if and only if the range does not run over the address space |
| CacheChunks.ObjectAccessFits | Dogee/DogeeDirectoryCache.cpp:639-648 | field plus length within 32 bits is enough, in every object but the last |
| CacheChunks.ChunkCache.PutChunk | Dogee/DogeeDirectoryCache.cpp:637-678 | the per-block puts together are one flat write of the range but for exactly the words that are lost: those behind the first in a piece that misses at its own home when its turn comes |
| CacheChunks.FlatIff | Dogee/DogeeDirectoryCache.cpp:310-318 | so they are the flat write if and only if every lost word had its value already |
| CacheChunks.NothingLost | Dogee/DogeeDirectoryCache.cpp:310-318 | in particular if each block of the range is resident or homed elsewhere when its turn comes |
| CacheChunks.ColdPutLosesWords | Dogee/DogeeDirectoryCache.cpp:637-678 | two words put into one block of an empty cache at its home: the second is lost, and a get returns zero for it |
| CacheChunks.ChunkCache.GetChunk | Dogee/DogeeDirectoryCache.cpp:691-728 | the per-block gets together are one flat read of the range |
| CacheChunks.ReadBack | Dogee/DogeeDirectoryCache.cpp:637-728 | what was put reads back if and only if every lost word had its value already, and reads elsewhere do not see the put |
| ChunkStorage.RightIffFits | Dogee/DogeeMemcachedStorage.cpp:386-434 | with its 32-bit bounds putchunk stores each word in its field and touches nothing else, if and only if no bound wraps |
| ChunkStorage.ChunkStore.PatchBlock | Dogee/DogeeMemcachedStorage.cpp:401-434 | the head and tail cases change exactly their part of one block |
| ChunkStorage.ChunkStore.PutChunk | Dogee/DogeeMemcachedStorage.cpp:384-436 | for any offset and length within 32 bits that fit, exactly the range changes |
| ChunkStorage.ChunkStore.DoGetChunk | Dogee/DogeeMemcachedStorage.cpp:440-470 | whatever the order of the multi-get's answers, the buffer gets the range's words |
| ChunkStorage.ChunkStore.GetChunk | Dogee/DogeeMemcachedStorage.cpp:472-499 | the same across batches of 15000 words |
| ChunkStorage.ChunkStore.GetBlock | Dogee/DogeeMemcachedStorage.cpp:503-529 | the block a field lies in, zero where nothing was put |
| ChunkStorage.ChunkStore.Get | Dogee/DogeeMemcachedStorage.cpp:346-352 | the word of the flat memory |
| ChunkStorage.ChunkStore.Del | Dogee/DogeeMemcachedStorage.cpp:320-334 | removes the blocks the object's size covers and its record, and nothing else |
| WordStorage.WroteWords | Dogee/DogeeMemcachedStorage.cpp:177-189 | the per-word puts, key by key, are one flat write |
| WordStorage.WordStore.PutChunk | Dogee/DogeeMemcachedStorage.cpp:177-189 | stores each word under its own key |
| WordStorage.WordStore.FetchBatch | Dogee/DogeeMemcachedStorage.cpp:80-100 | one batch is read right whatever order the answers come in |
| WordStorage.WordStore.GetChunk | Dogee/DogeeMemcachedStorage.cpp:73-103 | batches of 490 words together read the range |
| WordStorage.BatchFits | Dogee/DogeeMemcachedStorage.cpp:78-83 | where the batches fit 32 bits no batch offset wraps |
| WordStorage.LastBatchOverruns | Dogee/DogeeMemcachedStorage.cpp:78-83 | some pass that the loop makes takes a short batch for a full one, past the end of the buffer, if and only if the batches do not fit 32 bits |
| StorageBackends.ChunkPut | Dogee/DogeeMemcachedStorage.cpp:384-436 | the block-keyed store goes on representing the objects after a put |
| StorageBackends.WordPut | Dogee/DogeeMemcachedStorage.cpp:177-189 | so does the word-keyed one |
| StorageBackends.ChunkDelete | Dogee/DogeeMemcachedStorage.cpp:320-334 | deleting an object leaves no block of it behind and all others as they were |
| StorageBackends.ChunkRun | Dogee/DogeeMemcachedStorage.cpp:320-529 | every sequence of operations inside objects gets the answers of flat objects |
| StorageBackends.WordRun | Dogee/DogeeMemcachedStorage.cpp:177-298 | the same for the word-keyed backend |
| StorageBackends.Indistinguishable | Dogee/DogeeMemcachedStorage.cpp:51-529 | started empty, the two backends answer every such sequence alike |
| Checkpoint.StepInv | Dogee/DogeeCheckpoint.cpp:113-194 | every step, crash and restart included, keeps the invariant that ties files, counts, locks, barrier positions and `.master` together |
| Checkpoint.RecoverableIffNotDangling | Dogee/DogeeCheckpoint.cpp:158-165 | in an invariant state recovery finds all files, of one round, if and only if the master is not half closed |
| Checkpoint.CheckpointsAreConsistent | Dogee/DogeeCheckpoint.cpp:113-194 | after any run with crashes and restarts, if `.master` says m then every node has file m, all written in that round; except, and exactly, while the closing master has removed its own file but not `.master` |
| Checkpoint.RestartFailsIff | Dogee/DogeeCheckpoint.cpp:86-111 | a restart trips the missing-file assertion if and only if the crash came at that moment |
| Checkpoint.RotationSparesPointed | Dogee/DogeeCheckpoint.cpp:146-148 | rotation never removes the file `.master` names |
| Checkpoint.FileReady | Dogee/DogeeCheckpoint.cpp:167-194 | when all threads wait in the first half, every slave node has written its file of this round and counted on, and the thread that did so still owns the lock |
| Checkpoint.ClosingCrashLosesCheckpoint | Dogee/DogeeCheckpoint.cpp:27-42 | a run that reaches the failing restart |
| CheckpointNode.Node.constructor | Dogee/DogeeCheckpoint.cpp:158-165 | without a `.master` file a fresh process is in the cluster's start state |
| CheckpointNode.Node.MasterCheckCheckPoint | Dogee/DogeeCheckpoint.cpp:158-165 | the number in `.master`, or -1 without the file |
| CheckpointNode.Node.DoRestart | Dogee/DogeeCheckpoint.cpp:86-95 | counts on from the number in `.master`; the assertion holds if and only if the node's file is there, and does whenever recovery finds all files |
| CheckpointNode.Node.DoCheckPoint | Dogee/DogeeCheckpoint.cpp:113-151 | lock, file, `.master`, removal and count afterwards are those after the system's steps; only the thread that finds the lock free takes the checkpoint |
| CheckpointNode.Node.ResetCheckpointLock | Dogee/DogeeCheckpoint.cpp:153-191 | the thread that took the lock, and no other, frees it |
| CheckpointNode.Node.RemoveCheckpointFiles | Dogee/DogeeCheckpoint.cpp:27-42 | the three removals, last file, file before it, `.master`, in the system's order |
| CheckpointNode.TakenIs | Dogee/DogeeCheckpoint.cpp:117-150 | DoCheckPoint in one go: file n written, `.master` saying n on the master, file n-2 gone, count n+1 |
| CheckpointCodec.WrapsIffTooLarge | Dogee/DogeeCheckpoint.cpp:51 | the loop counter wraps to zero before the end if and only if the size is above 2^32 - 8192 |
| CheckpointCodec.DumpSharedMemory | Dogee/DogeeCheckpoint.cpp:44-60 | appends key, size, flag and all words, across the batches |
| CheckpointCodec.RestoreSharedMemory | Dogee/DogeeCheckpoint.cpp:61-83 | consumes exactly one record, gives the object back and leaves every other object as it was |
| CheckpointCodec.DumpAll | Dogee/DogeeCheckpoint.cpp:126-134 | the file holds the master's globals, the count and one record per object, in order |
| CheckpointCodec.RestoreAll | Dogee/DogeeCheckpoint.cpp:96-107 | reads them all back and stops where the application's own data starts |
| CheckpointCodec.RestoredHolds | Dogee/DogeeCheckpoint.cpp:78-80 | words put back plus the new record make the object, and no other object notices |
| CheckpointCodec.DumpAndRestore | Dogee/DogeeCheckpoint.cpp:44-134 | dumping any list of objects and restoring into an empty store gives back every key, size, flag and word and reads exactly what was written |
| LocalBarrier.LBarrier.CountDown | include/DogeeLocalSync.h:68-78 | count, generation and who need not wait, after one arrival |
| LocalBarrier.LBarrier.MustWait | include/DogeeLocalSync.h:79-80 | in every reachable state a waiting thread's test sends it back to wait exactly while some thread has not arrived in its round |
| LocalBarrier.WaitsForTheRest | include/DogeeLocalSync.h:71-80 | the generation number a waiting thread remembers is outdated if and only if every thread has arrived in its round, wrap-around of the number included |
| LocalBarrier.CallInv | include/DogeeLocalSync.h:68-81 | each arrival keeps the invariant and completes the round exactly when it is the last |
| LocalBarrier.RoundsStayClose | include/DogeeLocalSync.h:58-88 | under any scheduling and any spurious wake-ups the threads' rounds differ by at most one and the count stays between 1 and its reset value |
| LocalBarrier.NobodyLeavesEarly | include/DogeeLocalSync.h:72-80 | a thread leaves round r only when every thread has arrived in r |
| LocalBarrier.NoDeadlock | include/DogeeLocalSync.h:72-80 | never do all threads wait for ever |
| Serializer.EncodesLocal | include/DogeeSerializerImpl.h:29-63 | a value's encoding depends on its own words only |
| Serializer.Serialize | include/DogeeSerializerImpl.h:29-93 | writes an encoding of `GetSize` words at any position and no byte outside it |
| Serializer.DeserializeString | include/DogeeSerializerImpl.h:94-102 | the assertion holds if and only if the string has no NUL; then it comes back, and the terminator stays inside its words |
| Serializer.Deserialize | include/DogeeSerializerImpl.h:34-102 | from an encoding of nested vectors, ints and strings reads the value and exactly its size, if and only if no string has a NUL |
| Serializer.RoundTrip | include/DogeeSerializerImpl.h:10-103 | writing and reading at any buffer position gives the value back, consumes exactly its size and leaves all words outside alone; it succeeds if and only if the strings are NUL-free |
| MapReduceBatches.MapInput.PrepareBuf | include/DogeeMR.h:125-149 | the batch is the next pairs, one after the other, at most the allowed number; it makes progress if and only if the next pair fits a buffer |
| MapReduceBatches.MapLoop | Dogee/DogeeAccumulator.cpp:696-733 | if every pair fits a buffer the loop ends and the batches are the input, every pair once and in order, each sent to a node |
| MapReduceBatches.BatchesAreInput | include/DogeeMR.h:120-151 | batches that follow each other from the first pair concatenate to the input |
| MapReduceBatches.DecodePair | include/DogeeMR.h:34-41 | gives key and value back and consumes exactly their words |
| MapReduceBatches.MapBatch | include/DogeeMR.h:95-108 | decodes each pair of a batch once, in order, and collects exactly what `DoMap` emits for them |
| MapReduceBatches.ReduceNode.Emit | include/DogeeMR.h:46-50 | one more emitted pair is collected, under its key |
| MapReduceBatches.ReduceNode.BaseDoReduce | include/DogeeMR.h:68-84 | one `DoReduce` per key; together they get exactly what was collected, and the map is empty afterwards |
| MapReduce.StepInv | Dogee/DogeeAccumulator.cpp:633-751 | every step of Map, decoding, Reduce and their reports keeps pairs conserved and the two phases apart |
| MapReduce.ReduceStartsComplete | Dogee/DogeeAccumulator.cpp:633-664 | when a Reduce starts, every pair of every input has been decoded on exactly one node, exactly once, and the counters it shares with Map are clean |
| MapReduce.ReduceConserves | Dogee/DogeeAccumulator.cpp:285-308 | when a Reduce returns, the pairs handed to `DoReduce` on all nodes are, as a multiset, what `DoMap` emits over all inputs |
| MapReduce.EmittedOrder | include/DogeeMR.h:100-107 | what a collection of pairs emits does not depend on the order they are decoded in |

## Left out

- DirectoryTheorems.ReadsReturnLatest: holds for runs in which a put overlaps no other operation on its block and a put that misses at its own home carries one word, because without either the code does not give it (`Overlaps.SafeIff`).
- DirectoryTheorems.DirectoryKnowsCopies: one client thread per node, because `getblock` gives up the queue lock before it sends the write-back (`Dogee/DogeeDirectoryCache.cpp:434-437`), and at most 64 nodes, as masks have 64 bits.
- Directory.SystemRefines: a node's calls into its own home go through the same queues as remote ones, and requests and renews, which share a connection per direction in the source, travel in separate queues. Both only add interleavings. At this level the block to evict is any resident one; which one it is, is the matter of `LocalCache`.
- DirectoryHome.Home.ServerWrite: handled without interruption here; the interleavings are the matter of `Directory`. Masks are natural numbers, bit by bit (`Masks.NarrowFits` gives the width), and the failure status of the backend's `getblock` is not modelled.
- LocalCache.BlockCache.Get: one client thread, so the branch for a block that another thread is already fetching is not taken; and clock stamps below 2^32 - 1, as the replacement scan ignores blocks with the largest stamp.
- LocalCache.BlockCache.Put: as for `Get`.
- CacheChunks.ChunkCache.PutChunk: one client with nothing else going on at its blocks; how a piece reaches the other nodes is the matter of `Directory`. The status, which the source leaves unset when nothing fails, is not modelled.
- CacheChunks.HeadOkIffFits: only object key 2^32 - 1 can run over the end of the address space.
- AccumulatorTheorems.OutputIsSum: exact reals in place of floating point, the adding accumulator, vectors of up to 2^27 words, and fewer than 2^27 nodes (`Partition.AgreedIffFewNodes`). Nobody else writes the array, and other nodes' copies of it are the matter of `Directory`.
- EverySum.EverySumIffKept: as for `OutputIsSum`. The state of a node's cache at a flush is a parameter, one per round and node. The words of a two-word element are a parameter, too, of which only is asked that different words are different values.
- AccumulatorTheorems.OutputIsClose: as for `OutputIsSum`.
- DataSync.DataSyncNode.AccumulateMsg: the state of the cache at the flush is a parameter; vectors above the limit, for which the source leaves the node without a buffer, are not modelled.
- LocalCache.RenewIsAtomic: as for `Get`, one client thread; the renew runs on its own thread, between any two of the client's steps. The steps themselves are not cut any finer.
- Chunks.PrepareBuffer: `IsProfitableToCompress` is a free choice of mode per chunk.
- Sender.SendAll: `select` errors are not modelled; which sockets are writable in each pass is a parameter.
- ChunkStorage.ChunkStore.PutChunk: memcached's own failures and evictions, and the statuses they cause, are not modelled.
- WordStorage.WordStore.GetChunk: `getblock` of the word-keyed store, the same batch read of 32 words, has no member of its own.
- StorageBackends.Indistinguishable: accesses inside objects only; outside them a block-keyed store keeps words that `del` does not find.
- Checkpoint.CheckpointsAreConsistent: the master has one entering thread (a second one breaks the scheme), file writes are durable and atomic, a crash takes the whole cluster down, and slaves restart with the number the master sends. A checkpoint object has been set. The barrier is the contract of `Readme.md:274`.
- CheckpointCodec.DumpAll: the number of objects is not bounded by the `int` that holds it. Which global variables the dump covers (`include/DogeeBase.h:738-743`) is not modelled.
- CheckpointCodec.RestoreSharedMemory: `InitSharedConst` and the application's own serialisers are not modelled; their data is the rest of the file.
- Serializer.Deserialize: scalars are 32-bit integers, because the scalar `Deserialize` takes an `int&`; sizes are not bounded by the 32-bit type that holds them.
- MapReduce.ReduceConserves: no Map call overlaps a Reduce, as the interface asks; `DoMap` is a function of the pair, and `DoGlobalReduce` is not modelled.
- MapReduceBatches.MapLoop: that every pair fits a buffer is required, because the loop does not end otherwise (`MapReduceBatches.MapInput.PrepareBuf`).
- Accumulators with other operations than addition: the same protocol, another fold.
- Snapshot consistency across nodes while some node still writes: slaves dump before the first barrier.
- Sockets, handshakes, connection set-up and the second server thread per connection: one server loop per peer, so that messages of a connection are handled in order.
- Remote events, barriers and wake-ups: a wake-up arrives, once. Timeouts are left out.
- `LSpinBarrier`: it is no barrier when entered again at once (`include/DogeeLocalSync.h:100-113`).
- Counters, `CopyTo` and `CopyFrom`, the 64-bit overloads (calls with twice the length), the `Ref` and `Value` templates, configuration and the examples.
