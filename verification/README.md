# Storage helpers: a verified model

This project models the parts of the storage helpers library that carry an
algorithm or a protocol, and proves what they promise:

- **The key-value adapter** presents flat files on an object store. `BlockStore`
  defines the flat file a set of block objects stands for, `KeyValueStorage` the
  operations of the adapter as methods on the store and its locks, `BlockLocks`
  the concurrent per-block tasks as a state machine, `KeyCodec` the names of the
  objects, `BatchedDeletion` how the storage clients delete many of them, and
  `Leftovers` what tasks that outlive their call can still do. The
  main results: a write, read, truncation or deletion acts on the objects as it
  would on one zero-padded byte array, whatever order its tasks run in; and any
  interleaving of locked tasks is equivalent to a serial order that respects real
  time, never deadlocks, ends, and leaves no lock behind.
- **The buffered file handle** combines a coalescing write-behind buffer
  (`WriteBuffering`, `MultiWrite`) and a two-block prefetching read cache
  (`ReadCaching`). `BufferedHandle` runs them as one state machine with the flush
  timer, underlying writes and underlying reads interleaved freely; an underlying
  write may write any front part of its buffer and report anything. The main
  results are read-your-writes over every run, and in `QuietReads` the exact
  condition under which a handle with no write outstanding reads a given file
  right from then on. `RepeatedReads` shows that reading on rebuilds the file;
  `FailedBatch` and `ShortWrite` are concrete runs that go wrong, `BrokenBlock` what
  becomes of a failed fetch. `MemoryGuard` is the shared memory accounting.
- **The flat operation scheduler** (`FlatOpScheduling`) is the double-buffered
  queue with a single drain: exactly once, in lock order, no lost wakeup.
- **Maximum bipartite matching** (`BipartiteMatching`) is the search behind
  gmock's unordered matchers: one augmenting search per left node gives a maximum
  matching.

The methods of the write buffer, the read cache and the memory guard are proved
equal to the functions of the old state that the runs are made of. The block
tasks of the adapter have the effect and the answer that `BlockLocks` gives a
task in a serial order; its other methods, the drain of the scheduler and the
matching are proved directly against what they compute. Clocks, measured bandwidth
and latency, expiry of cached blocks, the executor's order, failures of storage
calls and the moment at which asynchronous calls complete are parameters or
nondeterministic steps.

## Where the code falls short of what it promises

The model follows the code. Each shortfall has its exact condition, a concrete
input or run, or both.

- Truncation on a random-access storage does not cut the last object: the storage
  overwrites a front part of it and keeps the rest
  (`BlockStore.TruncationExact`, `BlockStore.TruncationKeepsTail`).
- The batches of `deleteObjects` all start at the first key, so lists of more
  than 1000 keys are not deleted (`BatchedDeletion.DeletesAllExactly`,
  `BatchedDeletion.LastBlockStays`). An unlinked or truncated file keeps the
  blocks past the first batch (`BatchedDeletion.UnlinkCompleteExactly`,
  `BatchedDeletion.TruncationCompleteExactly`).
- A write returns with the first error of its block tasks while others have not
  begun; such a task may overwrite what is written after the failure
  (`Leftovers.ByteStaysExactly`, `Leftovers.LeftoverOverwrites`).
- Block numbers above 999999 wrap around when they are turned into names. Names
  stay unique, the reverse listing order ends there
  (`KeyCodec.ReverseListingRange`).
- A failed batch of buffered writes does not clear the read cache, so that a later
  read can return bytes the file no longer holds
  (`FailedBatch.FailedBatchServesStaleData`, `QuietReads.ReadsRightExactly`).
- A fetch that failed stays in the cache, never expires, and answers every read it
  covers with its old error (`ReadCaching.BrokenFoundExactly`,
  `BrokenBlock.BrokenBlockSticks`, `BrokenBlock.OneFailureStays`).
- A short underlying write is confirmed as a success: fsync returns and the bytes
  are gone (`ShortWrite.ShortWriteLosesData`, `QuietReads.ReadsRightExactly` with
  the expected file).
- `multiwrite` stops early when more, not less, than expected was written
  (`MultiWrite.AllWrittenExactly`, `MultiWrite.ExcessStopsTheChain`).
- The memory guard adds without regard to overflow, and the tests in
  `releaseBuffers` compare unsigned values with zero, so they always succeed
  (`MemoryGuard.ExactlyWhenGuarded`, `MemoryGuard.SecondHandleWraps`).
- The documented prefetch size after h hits is min * base ^ h, at most max. The
  code takes one power less and cuts it to a whole number
  (`ReadCaching.SizeAsDocumentedExactly`, `ReadCaching.FirstBlockIsSmaller`).

## Model

| member | source | states |
|---|---|---|
| BipartiteMatching.MaxBipartiteMatchState.constructor | deps/gmock/src/gmock-matchers.cc:200-204 | starts with empty flow, which is mutually referent |
| BipartiteMatching.MaxBipartiteMatchState.TryAugment | deps/gmock/src/gmock-matchers.cc:259-285 | succeeds exactly when a simple augmenting path avoids the seen nodes, and then pushes flow along one; failure changes no link and leaves the seen nodes closed under residual edges |
| BipartiteMatching.MaxBipartiteMatchState.Search | deps/gmock/src/gmock-matchers.cc:222-230 | the search from an unused node either grows the matching by one edge or proves the node a dead end; earlier dead ends stay dead, no other node changes between used and unused |
| BipartiteMatching.MaxBipartiteMatchState.SearchAll | deps/gmock/src/gmock-matchers.cc:222-230 | after one search per left node every unused one is a dead end of the final links |
| BipartiteMatching.MaxBipartiteMatchState.Compute | deps/gmock/src/gmock-matchers.cc:207-238 | returns a matching in node order that no matching of the graph exceeds, although each left node is searched once |
| BipartiteMatching.FindPairing | deps/gmock/src/gmock-matchers.cc:328-357 | true exactly when some matching covers every right node |
| BipartiteMatching.PushedLinks | deps/gmock/src/gmock-matchers.cc:277-281 | pushing flow restores mutual reference except at the start node's former partner, turns only the start node from unused to used and rewires only nodes of the path |
| BipartiteMatching.PushExtends | deps/gmock/src/gmock-matchers.cc:277-281 | linking a node to the head of an augmented path gives an augmented path from that node |
| BipartiteMatching.ExhaustedHasNoPath | deps/gmock/src/gmock-matchers.cc:243-252 | a failed search proves that no augmenting path leaves the node |
| BipartiteMatching.RelinkedGrowsFlow | deps/gmock/src/gmock-matchers.cc:243-247 | one augmentation from an unused node adds exactly one edge |
| BipartiteMatching.AugmentingAvoidsClosed | deps/gmock/src/gmock-matchers.cc:210-221 | no later augmentation crosses into the nodes reached by failed searches, so searching each left node once is enough |
| BipartiteMatching.FlowIsMatching | deps/gmock/src/gmock-matchers.cc:232-236 | the links form a matching of the graph |
| BipartiteMatching.FlowIsMaximum | deps/gmock/src/gmock-matchers.cc:206-221 | when every unused left node is a dead end no matching is larger than the flow |
| BipartiteMatching.FullMatchingCovers | deps/gmock/src/gmock-matchers.cc:332-333 | a matching is as large as the right side exactly when it covers it |
| KeyCodec.StoullOfDigits | src/keyValueHelper.h:65-65 | decimal text within 64 bits is read back as its value |
| KeyCodec.StripKeepsName | src/keyValueHelper.h:110-117 | a prefix survives the removal of leading slashes exactly when it holds another character |
| KeyCodec.KeyRoundTrip | src/keyValueHelper.h:46-66 | getObjectId undoes getKey for every 64-bit number and every prefix with a non-slash character, for which alone a key exists |
| KeyCodec.KeyInjective | src/keyValueHelper.h:46-55 | keys are equal exactly for the same number and the same prefix up to leading slashes |
| KeyCodec.KeyOrderReversed | src/keyValueHelper.h:51-54 | up to 999999 the listing order of keys is the reverse of the numbers' order |
| KeyCodec.ReverseListingRange | src/keyValueHelper.h:24-25 | the reverse order of all numbers up to a last one holds exactly when that one is at most 999999 |
| FlatFile.FillToSize | src/keyValueAdapter.cc:53-63 | zeros are appended up to the size, the given bytes stay in front |
| FlatFile.ReadAt | src/keyValueHelper.h:68-76 | returns the part of the requested range that exists |
| FlatFile.WritesCoalesce | src/buffering/writeBuffer.h:88-91 | two adjacent writes equal one write of their concatenation, gaps and empty writes included |
| BlockStore.GetBlockId | src/keyValueAdapter.cc:15-20 | the block that contains the offset |
| BlockStore.GetBlockOffset | src/keyValueAdapter.cc:22-27 | the distance into that block, below the block size |
| BlockStore.PiecesMeet | src/keyValueAdapter.cc:113-136 | neighbouring tasks meet without gap or overlap and have different blocks |
| BlockStore.PartitionLocates | src/keyValueAdapter.cc:113-136 | a position lies in the written range exactly when the task of its block covers it |
| BlockStore.WriteOnePiece | src/keyValueAdapter.cc:119-131 | each task writes its own block only, in whatever order tasks are taken |
| BlockStore.WrittenFlatFile | src/keyValueAdapter.cc:94-136 | blocks written task by task are the flat file with the range replaced, except where a task failed |
| BlockStore.ReadOnePiece | src/keyValueAdapter.cc:284-300 | appending a zero-filled block read extends the flat file's bytes read so far |
| BlockStore.ReadYourWrite | src/keyValueAdapter.cc:94-312 | reading a written range gives back the buffer, for every offset, size and block size |
| BlockStore.TruncationSteps | src/keyValueAdapter.cc:206-246 | cutting one block and deleting the doomed ones truncates every block |
| BlockStore.TruncatedByte | src/keyValueAdapter.cc:202-246 | which bytes truncation keeps and which it clears, for every size and current size |
| BlockStore.TruncationExact | src/keyValueAdapter.cc:189-253 | if nothing lies beyond the current size, truncation is the flat file's truncation: always on stores that replace objects, and on random-access stores exactly when the rest of the cut block was zero |
| BlockStore.TruncationKeepsTail | src/keyValueAdapter.cc:226-236 | a concrete file whose truncation on a random-access store keeps a cut-off byte |
| BlockStore.UnlinkLeavesNothing | src/keyValueAdapter.cc:164-187 | deleting the objects up to size / blockSize leaves none, when no data lies beyond the size |
| KeyValueStorage.KeysInjective | src/keyValueHelper.h:46-55 | the blocks of a file have pairwise distinct keys |
| KeyValueStorage.OtherFilesAreForeign | src/keyValueHelper.h:46-55 | no key of another file is a key of this one |
| KeyValueStorage.FetchBlock | src/keyValueAdapter.cc:36-51 | a missing object reads as empty, other errors pass through |
| KeyValueStorage.KeyValueAdapter.Merge | src/keyValueAdapter.cc:351-374 | the trimmed, filled and re-extended buffer is the fetched block overwritten at the offset |
| KeyValueStorage.KeyValueAdapter.WriteBlock | src/keyValueAdapter.cc:335-389 | a write task overwrites its part of its object and nothing else, or fails, having stored or not; its lock is released either way |
| KeyValueStorage.KeyValueAdapter.LockedWrite | src/keyValueAdapter.cc:342-388 | full blocks, random-access puts and read-modify-write all have the effect of one overwrite, also when the put stores and then throws |
| KeyValueStorage.KeyValueAdapter.Split | src/keyValueAdapter.cc:108-136 | the tasks tile the range, each within its block |
| KeyValueStorage.KeyValueAdapter.RunWrites | src/keyValueAdapter.cc:113-138 | tasks taken in any order leave the same blocks, once all have ended; the write fails exactly when a task does |
| KeyValueStorage.KeyValueAdapter.RunWrite | src/keyValueAdapter.cc:119-131 | one more task of the range is written, or failed before its put stored |
| KeyValueStorage.KeyValueAdapter.Write | src/keyValueAdapter.cc:94-150 | once its tasks have ended the flat file has the range replaced except in blocks whose task failed without storing, other bytes and files are unchanged, objects stay within the block size, no lock stays held |
| KeyValueStorage.KeyValueAdapter.ReadBlock | src/keyValueAdapter.cc:314-333 | a read task returns what its object holds of the range and releases its lock |
| KeyValueStorage.KeyValueAdapter.ReadPiece | src/keyValueAdapter.cc:284-289 | a read task's result is zero filled to its size |
| KeyValueStorage.KeyValueAdapter.RunReads | src/keyValueAdapter.cc:273-302 | tasks taken in any order give the flat file's bytes once joined in block order; the read fails exactly when a task does |
| KeyValueStorage.KeyValueAdapter.Read | src/keyValueAdapter.cc:262-312 | exactly the requested number of bytes, each the flat file's byte |
| KeyValueStorage.KeyValueAdapter.KeysToDelete | src/keyValueAdapter.cc:207-215 | lists the keys of the blocks from the first past the new end to the last old one, in order and each once |
| KeyValueStorage.KeyValueAdapter.ListedAreDoomed | src/keyValueAdapter.cc:207-215 | a block's key is listed exactly when the block lies past the new end and within the old one |
| KeyValueStorage.KeyValueAdapter.Unlink | src/keyValueAdapter.cc:164-187 | after success an object of the file is left exactly when its number is above currentSize / blockSize or the current size was zero; no other file is touched, even on failure |
| KeyValueStorage.KeyValueAdapter.CutObject | src/keyValueAdapter.cc:227-242 | one object is cut or zero filled under its lock, which is released even on failure |
| KeyValueStorage.KeyValueAdapter.CutLastBlock | src/keyValueAdapter.cc:202-242 | the block that holds the new last byte is cut or filled, for aligned, unaligned and zero sizes |
| KeyValueStorage.KeyValueAdapter.DeleteDoomed | src/keyValueAdapter.cc:206-246 | the blocks past the new end are deleted and no others |
| KeyValueStorage.KeyValueAdapter.Truncate | src/keyValueAdapter.cc:189-253 | every block becomes what truncation leaves of it; after a failure each block is as it was or truncated; no other file is touched and no lock stays held |
| BlockStore.InterruptedSteps | src/keyValueAdapter.cc:226-246 | a truncation whose deletion is interrupted leaves no block half done |
| BatchedDeletion.RemoveBatch | src/cephRadosHelper.cc:182-196 | removes the keys of a batch in order, up to the first removal that throws |
| BatchedDeletion.DeleteObjects | src/cephRadosHelper.cc:169-198 | a call that returns has removed the first 1000 keys of the list and no others, a call that throws a part of them; it returns exactly when no removal throws |
| BatchedDeletion.DeletesAllExactly | src/cephRadosHelper.cc:178-182 | of distinct keys all are reached exactly when there are at most 1000 |
| BatchedDeletion.DeletionReaches | src/s3Helper.cc:280-288 | which of the listed blocks stay behind: those from the thousandth on |
| BatchedDeletion.UnlinkCompleteExactly | src/keyValueAdapter.cc:175-180 | unlinking, by the list it makes, leaves nothing of any file exactly when no existing block lies past the given size or is numbered from 1000 |
| BatchedDeletion.TruncationCompleteExactly | src/keyValueAdapter.cc:206-246 | truncation, by the list it makes, deletes every block past the new end exactly when none of those that exist comes after the first 1000 |
| BatchedDeletion.SmallFilesAreUnlinked | src/keyValueAdapter.cc:175-180 | a file whose data ends by the given size is unlinked completely if that size is at most 1000 blocks, block-aligned and sparse files included |
| BatchedDeletion.LastBlockStays | src/swiftHelper.cc:239-246 | of 1001 listed blocks of any file the last is not deleted |
| BlockLocks.ExclusiveStep | src/keyValueAdapter.cc:342-388 | a key is locked exactly while one task holds it |
| BlockLocks.PutOverwrites | src/keyValueAdapter.cc:346-381 | a put of a merged or full block equals a direct overwrite of the current object |
| BlockLocks.FetchedStep | src/keyValueAdapter.cc:351-376 | between a task's fetch and its put no other task changes the object |
| BlockLocks.TasksSerialize | src/keyValueAdapter.cc:314-389 | in every state of every interleaving of reads and writes the storage and all answers are those of a serial execution of the tasks that took effect, each once; objects stay within the block size |
| BlockLocks.LocksAreReleased | src/keyValueAdapter.cc:321-388 | only tasks under way hold locks; when all have ended, failed ones included, no key is locked |
| BlockLocks.SomeTaskAdvances | src/keyValueAdapter.cc:342-343 | the locks never deadlock: while a task has not ended some task has a step in which nothing throws |
| BlockLocks.RunsEnd | src/keyValueAdapter.cc:342-388 | every run ends within four steps a task, and one that cannot go on has ended all its tasks |
| BlockLocks.OrderRespectsTime | src/keyValueAdapter.cc:342-388 | a task that took effect before another took its lock precedes it in the serial order |
| BlockLocks.UntouchedByte | src/keyValueAdapter.cc:335-389 | a byte no task writes keeps its value in every serial order |
| BlockLocks.WrittenByteSurvives | src/keyValueAdapter.cc:335-389 | a byte written by one task ends up as written, in every serial order |
| BlockLocks.DisjointWritesSurvive | src/keyValueAdapter.cc:113-136 | writes to disjoint ranges, of one block or many, all survive every interleaving: the flat file holds their buffers |
| Leftovers.ByteStaysExactly | src/keyValueAdapter.cc:113-148 | in every state of every run a stored byte survives all that may still happen exactly when every task that has not yet read or written its object, and covers the byte, writes that value |
| Leftovers.UnspentWrites | src/keyValueAdapter.cc:335-389 | a task that has not yet written, even one still waiting for a lock another holds, can be the next to write its bytes |
| Leftovers.AgreeingStep | src/keyValueAdapter.cc:335-389 | no step makes a task able to write again, and a step changes a byte only to what its task writes there |
| Leftovers.LeftoverOverwrites | src/keyValueAdapter.cc:138-148 | a concrete run: a write fails on one block, a later write of its other block has ended, and the first write's task may still overwrite it |
| MultiWrite.Multiwrite | src/storageHelper.cc:99-129 | the value and the writes made are those of the continuations run one after another, the first error ending the chain |
| MultiWrite.AllWrittenExactly | src/storageHelper.cc:110-123 | every buffer is written in list order exactly when no prefix of the reports is ahead of the buffers |
| MultiWrite.ExcessStopsTheChain | src/storageHelper.cc:116-117 | a concrete first report of one byte too many leaves the second buffer unwritten without an error |
| MultiWrite.MultiwriteComplete | src/storageHelper.cc:99-129 | when no write reports more than its buffer the early return is never taken and the result is the sum of the reports, the total length for full writes |
| WriteBuffering.WriteBuffer.constructor | src/buffering/writeBuffer.h:55-69 | starts empty |
| WriteBuffering.WriteBuffer.AppendBuffer | src/buffering/writeBuffer.h:86-94 | a write continues the last buffer or starts a new one |
| WriteBuffering.WriteBuffer.PushBuffer | src/buffering/writeBuffer.h:130-188 | everything buffered becomes one batch at the end of the chain with a pending confirmation |
| WriteBuffering.WriteBuffer.ConfirmDownTo | src/buffering/writeBuffer.h:203-226 | pops the shortest front part of the confirmations that brings the pending bytes to the threshold, and never reads an empty queue |
| WriteBuffering.WriteBuffer.Fsync | src/buffering/writeBuffer.h:106-113 | nothing stays buffered and every unconfirmed batch is awaited |
| WriteBuffering.WriteBuffer.WriteAtOffset | src/buffering/writeBuffer.h:77-104 | reports the whole size and leaves at most the maximum buffered |
| WriteBuffering.AppendAccounted | src/buffering/writeBuffer.h:86-94 | buffering keeps the counters equal to the sums of their queues |
| WriteBuffering.PushAccounted | src/buffering/writeBuffer.h:134-142 | pushing keeps the counters and empties the buffer |
| WriteBuffering.AppendMeansWrite | src/buffering/writeBuffer.h:88-91 | a buffered write adds exactly that write to the outstanding ones |
| WriteBuffering.PushKeepsOutstanding | src/buffering/writeBuffer.h:137-142 | pushing changes nothing about what is outstanding |
| WriteBuffering.EmptyBuffersMeanNothing | src/buffering/writeBuffer.h:134-135 | buffers that are not pushed because they are empty have no effect |
| WriteBuffering.ExcessIsShortest | src/buffering/writeBuffer.h:209-215 | the popped confirmations are the fewest that suffice |
| WriteBuffering.SyncLeavesNothing | src/buffering/writeBuffer.h:106-113 | after fsync no confirmation is left behind and the awaited batches are consecutive up to the last |
| WriteBuffering.WriteAccounted | src/buffering/writeBuffer.h:93-104 | at most the maximum stays buffered whatever bandwidth was measured |
| WriteBuffering.WriteMeansWrite | src/buffering/writeBuffer.h:77-104 | a write, flushed or not, adds exactly that write to the outstanding ones |
| WriteBuffering.AfterAll | src/buffering/writeBuffer.h:249-258 | after any sequence of writes, flushes and fsyncs the counters are the sums of their queues |
| WriteBuffering.CoalescingPreservesMeaning | src/buffering/writeBuffer.h:86-94 | emitted batches in order, then the buffers, give the file of the original writes one by one |
| ReadCaching.ReadCache.constructor | src/buffering/readCache.h:65-79 | starts empty |
| ReadCaching.ReadCache.ClearStaleEntries | src/buffering/readCache.h:141-146 | drops the expired front blocks |
| ReadCaching.ReadCache.PopUntilCurrent | src/buffering/readCache.h:111-112 | drops front blocks until one holds the offset |
| ReadCaching.ReadCache.Miss | src/buffering/readCache.h:108-115 | the block size changes, other blocks are dropped, the range is fetched if none is left |
| ReadCaching.ReadCache.Deliver | src/buffering/readCache.h:206-216 | a fetch that completes inline keeps the block serving the offset |
| ReadCaching.ReadCache.Read | src/buffering/readCache.h:81-120 | the block waited for exists and was requested over a range that reaches the offset |
| ReadCaching.FirstReaching | src/buffering/readCache.h:299-304 | the first cached block that holds the offset |
| ReadCaching.ResizedSound | src/buffering/readCache.h:306-331 | the block size is zero or within its limits |
| ReadCaching.PrefetchBounded | src/buffering/readCache.h:169-176 | a prefetch stays within the block size and the continuous range, and when none is made |
| ReadCaching.BlockSizeFormula | src/buffering/readCache.h:312-331 | after k + 1 slow sequential misses the block size is min * floor(base ^ k), at most max |
| ReadCaching.SizeAsDocumentedExactly | include/helpers/storageHelperCreator.h:97-104 | after h > 0 hits the block has the documented size min * base ^ h, at most max, exactly when min is 0, base is 1 or floor(base ^ (h - 1)) already brings it to max |
| ReadCaching.FirstBlockIsSmaller | include/helpers/storageHelperCreator.h:97-104 | with min 10, max 100 and base 2 the first block has 10 bytes where 20 are documented |
| ReadCaching.LookupSound | src/buffering/readCache.h:88-115 | at most two blocks in order, and the front one serves the offset, so the non-empty assertions hold |
| ReadCaching.PrefetchSound | src/buffering/readCache.h:163-183 | the second block starts at or after the end of the first and is requested over no more than the block size and the continuous range |
| ReadCaching.LookupFront | src/buffering/readCache.h:96-119 | the block that is waited for holds the offset or is a fetch of exactly the requested range |
| ReadCaching.LookupFinds | src/buffering/readCache.h:96-112 | a cached block that holds the offset is the one waited for, be it the first or the second |
| ReadCaching.BrokenFoundExactly | src/buffering/readCache.h:96-119 | a read waits for a block whose fetch has already failed exactly when the cache is not flagged and such a block in it covers the offset, whatever has expired |
| ReadCaching.ArriveSound | src/buffering/readCache.h:207-216 | data shorter than requested keeps the blocks in order |
| ReadCaching.LookupKeeps | src/buffering/readCache.h:88-115 | a flagged cache contributes no block; what remains was cached before or is a new fetch |
| ReadCaching.ServeSlices | src/buffering/readCache.h:269-295 | the trims select the requested slice of the block |
| ReadCaching.ServeIsPrefix | src/buffering/readCache.h:247-297 | a block that holds the file's bytes serves a front part of the requested slice, non-empty unless the file ends before the offset |
| BufferedHandle.SyncedQueueEmpty | src/buffering/writeBuffer.h:209-225 | when everything an fsync awaits is confirmed no batch is left |
| BufferedHandle.BookedStep | src/buffering/writeBuffer.h:130-226 | every step keeps all popped confirmations completed or awaited, and nothing buffered during fsync and read |
| BufferedHandle.MeantStep | src/buffering/writeBuffer.h:146-188 | every step keeps the expected file equal to the underlying one with the outstanding writes applied, as long as each buffer is written in full |
| BufferedHandle.CachedStep | src/buffering/readCache.h:81-120 | every step keeps the cache sound and the block being read serving its offset |
| BufferedHandle.CoherentStep | src/buffering/writeBuffer.h:160-181 | every step keeps an unflagged cache equal to the underlying file while no write is under way |
| BufferedHandle.ReadingUpToDate | src/buffering/bufferAgent.h:151-156 | while a read is under way the underlying file is the expected one, unless a buffer was not written in full |
| BufferedHandle.HandleStaysSound | src/buffering/bufferAgent.h:143-185 | in every reachable state the counters are exact, the cache has at most two ordered blocks, and a read has no write outstanding |
| BufferedHandle.ReadYourWrites | src/buffering/bufferAgent.h:143-185 | in every run an answered read is a front part of the underlying file's slice, non-empty before its end, unless a batch failed since the last clear; and of the slice of the file with all earlier writes applied, if besides every write was made in full |
| QuietReads.ReadsRightExactly | src/buffering/bufferAgent.h:151-157 | from every reachable state with no write outstanding, all answers of all write-free continuations are reads of a given file exactly when the underlying file is that file and the cache is flagged or each cached block holds a front part of it, is broken, or is an undisturbed fetch |
| QuietReads.HarmlessReadsRight | src/buffering/readCache.h:88-119 | a flagged or harmless cache stays harmless and serves only the file's bytes |
| QuietReads.OtherFileShows | src/buffering/bufferAgent.h:166-176 | if the underlying file is another one, a client that syncs and reads where they part is told so |
| QuietReads.HarmfulBlockShows | src/buffering/readCache.h:96-119 | every harmful cached block, first or second, is served to some read |
| RepeatedReads.ReadsRebuildFile | src/buffering/readCache.h:219-297 | in every run consecutive answers from one file concatenate to a front part of it from the first offset on, and to all of it once there are as many answers as bytes |
| FailedBatch.FailedBatchServesStaleData | src/buffering/writeBuffer.h:160-184 | a concrete run in which a failed batch leaves a stale block in the cache that the next read returns |
| ShortWrite.ShortWriteLosesData | src/buffering/writeBuffer.h:160-181 | a concrete run in which a short write is confirmed, no batch fails, fsync returns, and what was written cannot be read |
| BrokenBlock.BrokenBlockSticks | src/buffering/readCache.h:199-217 | from every reachable state with such a block cached and no write outstanding, every answer is its error, however often the client tries, until a write, a clear or a read outside the block |
| BrokenBlock.OneFailureStays | src/buffering/readCache.h:214-216 | a concrete run in which one failed fetch leaves a readable file's first byte covered by such a block |
| MemoryGuard.BufferAgentsMemoryLimitGuard.constructor | src/buffering/bufferAgent.h:40-45 | nothing is reserved at first |
| MemoryGuard.BufferAgentsMemoryLimitGuard.ReleaseBuffers | src/buffering/bufferAgent.h:85-97 | always succeeds and does what the destruction of a handle does to the counters |
| MemoryGuard.GuardAccounts | src/buffering/bufferAgent.h:128-135 | over every run of opens and destructions the counters are the live handles' maxima modulo the word size |
| MemoryGuard.GuardIsExact | src/buffering/bufferAgent.h:248-266 | when, of the totals used up first, one has a sum that does not wrap, every run keeps the limited counters exact and within their totals, and no more handles live than fit |
| MemoryGuard.ExactlyWhenGuarded | src/buffering/bufferAgent.h:63-71 | that condition is exact for all totals and maxima, read and write together: otherwise some run of opens wraps the sums and exceeds a total |
| MemoryGuard.SecondHandleWraps | src/buffering/bufferAgent.h:63-71 | two handles of 2^63 bytes each are accepted within a total of 2^64 - 1 and leave the counter at zero |
| FlatOpScheduling.FlatOpScheduler.constructor | src/flatOpScheduler.h:76-81 | starts with empty queues and no drain |
| FlatOpScheduling.FlatOpScheduler.Schedule | src/flatOpScheduler.h:33-51 | appends the operation and owes a drain exactly when none is in progress |
| FlatOpScheduling.FlatOpScheduler.VisitBatch | src/flatOpScheduler.h:68-71 | visits the used queue in order and empties it |
| FlatOpScheduling.FlatOpScheduler.ScheduleAll | src/flatOpScheduler.h:39-44 | operations scheduled during a drain owe no further drain |
| FlatOpScheduling.FlatOpScheduler.DrainQueue | src/flatOpScheduler.h:53-73 | visits everything scheduled before and during the drain in order, then clears the flag |
| FlatOpScheduling.AdvanceInv | src/flatOpScheduler.h:53-73 | every step of a drain keeps arrivals equal to visited, taken and queued operations |
| FlatOpScheduling.ExactlyOnceInOrder | src/flatOpScheduler.h:33-73 | in every interleaving each operation is visited once in lock order, at most one drain exists, a queued operation is owed one, and the used queue is empty at the loop's top |
| FlatOpScheduling.DrainVisitsAll | src/flatOpScheduler.h:53-73 | no lost wakeup: from every such state the drain ends with everything visited |

## Left out

- KeyValueStorage.KeyValueAdapter.Write: runs one write at a time, its tasks one after another in any order, with positions below 2^64, and describes a failed call as of the end of all its tasks, although `folly::collect` returns with the first error; interleaved tasks are the subject of `BlockLocks`, tasks that outlive their call of `Leftovers`.
- KeyValueStorage.KeyValueAdapter.RunWrites: describes a failed call as of the end of all its tasks, as `Write` does.
- KeyValueStorage.KeyValueAdapter.RunReads: says of a failed call that no lock stays held once all its tasks have ended; the call itself returns with the first error.
- KeyValueStorage.KeyValueAdapter.PutObject: a put that throws has stored all of its bytes or none; a random-access put that throws after storing a part is not modelled.
- BufferedHandle.ReadYourWrites: each client operation is awaited before the next, because `confirm` hands each confirmation to one operation only; overlapping operations of one handle are not modelled.
- BufferedHandle.FetchDone: an underlying read that no write disturbs stops short only at the end of the file; storages whose reads return less are not modelled.
- Other writers of the file: only this handle changes it. Truncating it through `BufferAgent`, which leaves the caches of open handles alone, or through another handle is not modelled.
- ReadCaching.ReadCache.Read: fetches complete before, between or after the cache's operations and between a fetch and the prefetch that follows it, not at every instruction of a call.
- FlatOpScheduling.ExactlyOnceInOrder: the visitor returns normally; a visitor that throws is not modelled.
- KeyValueStorage.KeyValueAdapter.DeleteObjects: deletes by the interface's contract; what the clients' batches do instead is the subject of `BatchedDeletion`.
- truncate and unlink concurrent with reads and writes: their deletions take no lock.
- `getObject` of a range past the end of an object is the empty slice; storages that answer it with an error are not modelled.
- The storage clients themselves (S3, Swift, Ceph, GlusterFS, POSIX, WebDAV, DHuS, null device, proxy): calls into foreign libraries.
- `release` and `wouldPrefetch` of a buffered handle: easy members.
- The explanations `FindPairing` writes to its listener, and the matrix class in gmock's header: the graph is a set of edges here.
- 64-bit overflow of offsets and sizes in the buffering classes, and rounding of the prefetch coefficient, which is a real number here.
- Connection pool, handshake, messages, schedulers, metrics and logging: plumbing over external libraries.
- Flag and status translation tables, and the rest of gmock and gtest: easy members.
