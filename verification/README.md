# A verified model of the miner's stateful core

This project models the exact, stateful parts of the miner and proves what they are for. It covers
five areas.

**The matrix commitment.** A keyed BLAKE3 digest of a matrix is kept as a cache of chunk values and
complete parents. The model follows the cache through full builds, dirty updates, invalidations and
trees computed elsewhere, and proves every digest equal to the one the recursive tree of section 2.1 of
the BLAKE3 paper gives (`Blake3Tree`, `ChunkDigest`, `DirtyList`, `TreeImage`, `LevelRoot`,
`MatrixHash`, `DigestRuns`, `CpuWorker`, `AttemptRuns`). The compression function is an arbitrary function;
`DigestMeaning` says what it is given, and that the digest binds the bytes if it never collides.

**The share hand-off.** A miner thread and a proof worker pass matrices through a queue. The queue is a
class (`ShareQueue`); the two threads are one transition system over its critical sections
(`ShareProtocol`), with sleeping, notification and spurious wake-ups. Ownership, freedom from deadlock and
job isolation hold in every interleaving. A run is a list of actions; a disabled action changes nothing,
so the lists cover all interleavings. `ShareDelivery` follows the shares from hit to
submission. `QueueRuns` carries any run out on the class.

**The packed GEMM and the scans.** Packing both operands and hashing block by block is proved equal to
the naive triple loop (`Layout`, `Prepack`, `TileHash`, `MacroXor`, `BlockedXor`, with `MixedRadix` for the
index arithmetic), and `TileMeaning` says what the values tell about the entries. A is
stored by rows and B by columns, so one packing description serves both: a line is a row of A or a column of B.
The out-of-order pipeline is a transition system of host and device (`ScanPipeline`, `ScanEnds` for its
termination, `ScanCounts` for its counts, `EarlyHit` for a run that leaves the hit out). The
panels are in `TileGrid` and `PanelScan`, the synchronous scan in `SyncScan`, the grids that the settings allow in `ScanSetup`, and the OpenCL scan with two launches in flight is
`MacroScan`. `Config` holds the compiled constants.

**The fee.** The ledger is a class and a function on its state (`Fee`); the client that uses it is a transition
system (`FeeRuns`, with the failover in `FeeFailover` and the rests in `FeeRests`), carried out on the class
by `FeeRuns.RunClient`. `FeeOvercount` and `FeeScan` say what the count of a scan means for the ledger. The
number of fixed pools is arbitrary.

**Numbers and text.** Long division, targets, reciprocals, nonces and noise (`Numerals`, `WideDivision`,
`StratumTarget`, `HexTarget`, `JackpotTarget`, `Reciprocal`, `Nonce`, `Noise`), and JSON framing, escaping
and the buffered reader (`JsonFrame`, `JsonText`, `NetReader`, `NetStreams`).

## What the proofs show about the code

- The header (include/cp_noise.h:75-76) describes the tree image as every level with at least 2 nodes, but
  the code lays out the single-node top level too and reads its node for the root, unless the chunk count is a
  power of two: only then do the other levels determine what is read (`LevelRoot.TopLevelNeeded`). Three
  chunks are an example. The model follows the code.
- The branches that drop a stale share (src/common/cp_share_queue.cpp:205-213 and 261-270) and the
  freeing of unreclaimed buffers (616-626) cannot be reached under the miner's use of the queue.
- In `configure` the divisibility check and the work-item limit never reject a supported tile and macro
  block.
- The synchronous oneDNN scan refuses a grid whose batches are not made of whole sub-grids; the pipelined
  scan has no such check and reports the larger count (`PanelScan.PipelinedCount`, with the exact condition).
  Batches are only clamped to their range (src/onednn/case33_gemm_onednn.cpp:114-142), so such grids can be set:
  matrices of 1024x1024 on a 32x32 kernel with `--row-period-batch 3` pass every check and count 5504 tiles for
  4096 (`ScanSetup.UnalignedIsSetUp`, `ScanSetup.UnalignedOvercounts`). The matrix size T is in exact tiles, so
  every such grid has runs, of scans that each report its count, in which a fee scan pays more than is owed; the
  surplus is dropped when the debt is clamped at 0 (`FeeScan.ExactIfAligned`, `FeeScan.OvercountOverpays`). On
  the grid above every fee scan does (`FeeScan.UnalignedOverpays`).
- A pipelined scan with a hit may leave the hit's own panel out of its count (`ScanCounts.HitIsCounted`, and
  `EarlyHit.HitMayGoUncounted` for the run): its jackpot can raise the shared flag before the read of the
  panel before lands.
- `add_be_u64` is addition modulo 2^512 exactly when the step plus the lowest byte is below 2^64.
- `uint32_reciprocal` is exact for every divisor that is not a power of two, and 0 for powers of two.
- A value with a byte below 0x20 is escaped so that the framing holds, but the reader refuses to decode it.

## What the callers owe

- `MatrixHash.Digest` takes the obligation of include/cp_noise.h: bytes changed since the last call on the
  same buffer lie in chunks of the listed offsets. `CpuWorker` discharges it, and `AttemptRuns` for whole runs,
  given that nobody else writes the signal buffers between two attempts.
- Chunk counts are below 2^31, as the `int` that holds them requires.
- For a whole run, `DigestRuns.Honest` asks for the chunks written since the last call that used the cache, when
  that call had the same buffer, length and key. A message of at most one chunk does not use the cache.
- The fee results assume one matrix size T for the run and 100 T below 2^64. Scans may count any number of
  tiles; each result says which counts it needs.
- `Nonce.SearchNonces` takes an extranonce of at most 32 bytes, as src/common/cp_qpow_pool.cpp:122 ensures.

## Model

| member | source | states |
|---|---|---|
| Blake3Tree.LeftLenIsPowerOfTwo | src/common/cp_noise.c:896-906 | the left subtree of the recursive tree has the largest power of two of chunks below the whole, the split of section 2.1 of the BLAKE3 paper |
| Blake3Tree.StackIsTree | src/common/cp_noise.c:917-946 | folding the subtree tops with one more chunk from the right gives the recursive tree of all chunks |
| Blake3Tree.TopsAreTree | src/common/cp_noise.c:1121-1150 | the complete-subtree tops of any chunk count that is not a power of two fold to the recursive tree |
| Blake3Tree.PowerOfTwoRoot | src/common/cp_noise.c:1132-1138 | for a power of two the two nodes below the top give the recursive root |
| Blake3Tree.PromoteKeepsTree | src/common/cp_noise.c:896-946 | pairing the nodes of one level, the odd one carried up, leaves the recursive tree value unchanged |
| ChunkDigest.PopCountSuccessor | src/common/cp_noise.c:841-849 | how the set-bit count changes from one chunk counter to the next |
| ChunkDigest.MergeNeeded | src/common/cp_noise.c:899-900 | the stack is too long exactly when its last two entries are siblings |
| ChunkDigest.FullyMerged | src/common/cp_noise.c:896-906 | a stack with nothing left to merge is the list of subtree tops |
| ChunkDigest.MergeCvStack | src/common/cp_noise.c:896-906 | merging leaves exactly popcount(counter) entries, the tops of the complete subtrees so far |
| ChunkDigest.PushChunkCv | src/common/cp_noise.c:908-915 | after pushing chunk i the stack has popcount(i) + 1 entries, the lazily merged stack of i + 1 chunks |
| ChunkDigest.FoldStack | src/common/cp_noise.c:934-943 | the final loop merges the stack from right to left |
| ChunkDigest.StackFits | src/common/cp_noise.c:923 | the stack never outgrows its fixed array |
| ChunkDigest.RootFromChunkCvs | src/common/cp_noise.c:917-946 | for every chunk count of at least 2 the lazy stack gives the recursive tree root; below that it is refused |
| ChunkDigest.KeyedMatrixDigestChunks | src/common/cp_noise.c:551-592 | the full digest of the zero-padded bytes, its error cases, and the single-chunk case |
| DigestMeaning.ChunkValues | src/common/cp_noise.c:571-588 | every chunk is compressed under the key with its own number as the counter, from its own bytes and zeros after the end |
| DigestMeaning.OneChunk | src/common/cp_noise.c:556-567 | a message of one chunk is hashed on its own, padded with zeros |
| DigestMeaning.TwoChunks | src/common/cp_noise.c:917-946 | two chunks: the root compression of their two values in order |
| DigestMeaning.DigestIsTree | src/common/cp_noise.c:917-946 | any more: the root compression over a tree with the chunks as leaves in order, left subtrees as large as a power of two allows, and a parent compression at every inner node |
| DigestMeaning.DigestBinds | src/common/cp_noise.c:551-592 | if no compression collides, equal digests of equally long messages mean equal bytes |
| DirtyList.CollectChunks | src/common/cp_noise.c:1082-1086 | the chunks of the listed offsets, those past the end dropped |
| DirtyList.Deduplicate | src/common/cp_noise.c:1088-1091 | in-place removal of adjacent duplicates keeps exactly the elements |
| DirtyList.ParentsOf | src/common/cp_noise.c:1103-1110 | halving the list in place keeps it sorted without duplicates and loses no dirty parent |
| LevelRoot.TopLevel | src/common/cp_noise.c:1210-1215 | the top level has exactly one node |
| LevelRoot.GatherTops | src/common/cp_noise.c:1123-1131 | one node per set bit of the chunk count is read, highest first, from the level of that bit, whatever the levels hold |
| LevelRoot.TopsReadAreTops | src/common/cp_noise.c:1123-1131 | on the levels of a tree the nodes read are the tops of its complete subtrees |
| LevelRoot.OpenSingleTop | src/common/cp_noise.c:1132-1138 | a lone top is replaced by its two children, any other stack is left alone |
| LevelRoot.StackReadIsTree | src/common/cp_noise.c:1132-1148 | the fold of what is then on the stack is the recursive tree, for every chunk count from 2 on |
| LevelRoot.Root | src/common/cp_noise.c:1121-1150 | the root read from any correct levels is the recursive tree root |
| LevelRoot.TopLevelNeeded | src/common/cp_noise.c:1121-1150 | what is read depends on levels of at least two nodes only, if and only if the chunk count is a power of two |
| LevelRoot.FirstTop | src/common/cp_noise.c:1123-1131 | the first node on the stack is the single node of the top level |
| LevelRoot.ThreeChunksNeedTop | src/common/cp_noise.c:1210-1228 | three chunks need their single-node level |
| MatrixHash.CleanChunksAgree | src/common/cp_noise.c:1083-1099 | only chunks in the dirty list can have changed their chaining value |
| MatrixHash.CleanParentsAgree | src/common/cp_noise.c:1103-1117 | only halves of dirty indices can have changed one level up |
| MatrixHash.PearlMatrixHash.AllocLevels | src/common/cp_noise.c:1021-1032 | every level gets its exact length; failure is reported |
| MatrixHash.PearlMatrixHash.BuildParents | src/common/cp_noise.c:1035-1048 | all parents above a correct level 0 are correct |
| MatrixHash.PearlMatrixHash.Build | src/common/cp_noise.c:1050-1062 | a fresh cache is the tree of the buffer |
| MatrixHash.PearlMatrixHash.ListDirtyChunks | src/common/cp_noise.c:1070-1092 | the dirty list is the sorted set of chunks of the offsets, or an allocation failed |
| MatrixHash.PearlMatrixHash.RefreshParents | src/common/cp_noise.c:1103-1117 | recomputing only the parents of dirty nodes makes every level the tree of the new bytes |
| MatrixHash.PearlMatrixHash.Update | src/common/cp_noise.c:1070-1119 | a cache of the old bytes becomes the cache of the new ones when the offsets cover the changes; the count is that of distinct dirty chunks |
| MatrixHash.PearlMatrixHash.FromCvs | src/common/cp_noise.c:1186-1206 | adopting chunk values computed elsewhere leaves a correct cache and the full digest |
| MatrixHash.PearlMatrixHash.FromTree | src/common/cp_noise.c:1230-1263 | adopting a tree computed elsewhere does too |
| MatrixHash.RootOfTree | src/common/cp_noise.c:1230-1247 | without a hash object the root is read from the tree in place |
| MatrixHash.ReuseNeedsItsSubject | src/common/cp_noise.c:1160-1172 | a cache is reused exactly for its own buffer, length and key, and not when offsets are missing |
| MatrixHash.Digest | src/common/cp_noise.c:1152-1184 | the full keyed digest of the current bytes, reused cache or not; a failed call leaves no cache behind |
| TreeImage.TreeLevelOffset | src/common/cp_noise.c:1217-1223 | the offset of a level in the flat tree image |
| TreeImage.LevelsDoNotOverlap | src/common/cp_noise.c:1217-1223 | levels start at multiples of 4, never overlap and are padded by fewer than 4 nodes |
| TreeImage.ImageHoldsTree | src/common/cp_noise.c:1217-1228 | an image laid out at these offsets holds every level of the tree |
| DigestRuns.RunCalls | src/common/cp_noise.c:994-1263 | in every sequence of writes, digests, invalidations and rebuilds over any buffers, lengths and keys that lists the chunks written since the last call on the same subject, every returned digest is the full keyed digest of its bytes at that moment |
| CpuWorker.RowOffsets | src/cpu/cp_cpu_worker.cpp:228-234 | the worker lists five offsets for a rewritten row |
| CpuWorker.RowIsCovered | src/cpu/cp_cpu_worker.cpp:228-234 | those offsets cover every byte of the row, for every row |
| CpuWorker.CpuWorker.RewriteSignal | src/cpu/cp_cpu_worker.cpp:214-234 | after the row or the whole matrix is rewritten the dirty list covers what changed since the last attempt |
| CpuWorker.CpuWorker.Commit | src/cpu/cp_cpu_worker.cpp:226-243 | the commitment is the full digest whatever the cache was, through failed allocations |
| CpuWorker.CpuWorker.PrepareAttempt | src/cpu/cp_cpu_worker.cpp:182-284 | every attempt that succeeds commits to the full keyed digest of the signal matrix, across key changes and failures; missing buffers and entropy, a cancelled draw and later failures have their results, and what the worker then remembers of the buffer is exact |
| CpuWorker.DrawnMeaning | src/common/cp_noise.c:324-373 | a draw puts its values into the row or the front of the matrix and leaves every other byte |
| AttemptRuns.RunAttempts | src/cpu/cp_cpu_worker.cpp:182-284 | in every run of attempts on any buffers, sizes and jobs, with any cancellations and failures, every commitment is the full keyed digest of the signal as it then stands, and each failure has its cause |
| ShareQueue.EnqueueHitConserves | src/common/cp_share_queue.cpp:616-637 | handing matrices over, with the freeing of unreclaimed ones, neither loses nor duplicates a buffer |
| ShareQueue.EnqueueWitnessConserves | src/common/cp_share_queue.cpp:565-576 | a share with a witness takes no buffer along |
| ShareQueue.CpShareQueue.Begin | src/common/cp_share_queue.cpp:450-461 | a job begins: its context and key, and nothing else |
| ShareQueue.CpShareQueue.End | src/common/cp_share_queue.cpp:463-472 | the end of a job clears its flag before the wait for the queue to drain |
| ShareQueue.CpShareQueue.Finish | src/common/cp_share_queue.cpp:403-407 | the worker has one share less in hand |
| ShareQueue.CpShareQueue.RaiseShutdown | src/common/cp_share_queue.cpp:430-433 | the shutdown flag and nothing else |
| ShareQueue.TakeFrontConserves | src/common/cp_share_queue.cpp:395-397 | taking the front share moves its buffers to the worker |
| ShareQueue.ReturnMatricesConserves | src/common/cp_share_queue.cpp:103-133 | returning matrices moves each to its slot or frees it, in every combination |
| ShareQueue.TakeReturnedConserves | src/common/cp_share_queue.cpp:509-516 | reclaiming moves returned buffers to the caller |
| ShareQueue.FreeEverythingConserves | src/common/cp_share_queue.cpp:438-446 | destroying the queue frees everything it still owns exactly once |
| ShareQueue.CpShareQueue.PushHit | src/common/cp_share_queue.cpp:606-638 | the critical section that enqueues a share with its matrices, or refuses |
| ShareQueue.CpShareQueue.PushWitness | src/common/cp_share_queue.cpp:565-576 | the critical section that enqueues a share with a witness, or refuses |
| ShareQueue.CpShareQueue.Take | src/common/cp_share_queue.cpp:390-398 | the worker takes the front share or sees the shutdown |
| ShareQueue.CpShareQueue.Return | src/common/cp_share_queue.cpp:103-133 | the three cases of a returned buffer, for both matrices |
| ShareQueue.CpShareQueue.Reclaim | src/common/cp_share_queue.cpp:485-517 | missing buffers are taken from the slots, held ones are left |
| ShareQueue.CpShareQueue.FreeAll | src/common/cp_share_queue.cpp:438-446 | pending shares and returned buffers are freed |
| QueueRuns.RunThreads | src/common/cp_share_queue.cpp:383-640 | the two threads, in every interleaving, carried out by calls on one queue object: its fields are those of the protocol, and when the miner is gone it and the miner have freed exactly the launch buffers |
| ShareProtocol.SetupMeaning | src/common/cp_mine.cpp:126-165 | what the flags of a job come to, in terms of the backend and the command line |
| ShareProtocol.MinerKeepsInv | src/common/cp_mine.cpp:72-438 | every step of the miner in any state of the system keeps the invariant |
| ShareProtocol.WorkerKeepsInv | src/common/cp_share_queue.cpp:200-408 | every step of the proof worker keeps it |
| ShareProtocol.OneOwner | src/common/cp_share_queue.cpp:103-146 | in every interleaving all places together hold exactly the buffers made at launch, and none is freed before the end |
| ShareProtocol.NothingStaleAtHandOver | src/common/cp_share_queue.cpp:616-626 | the branch that frees returned buffers at a hand-over is never needed |
| ShareProtocol.BuffersBackBetweenJobs | src/common/cp_mine.cpp:424-428 | after the end of a job the miner holds again what it lent |
| ShareProtocol.FreedOnce | src/common/cp_mine.cpp:52-62 | when the process has ended each buffer has been freed exactly once |
| ShareProtocol.EndIsReachable | src/common/cp_mine.cpp:52-62 | a run to that end exists for every setup |
| ShareProtocol.MinerWritesOnlyItsOwn | src/common/cp_mine.cpp:197-208 | while the miner writes or hands over the matrices the worker has none of them |
| ShareProtocol.SharesOfTheirJob | src/common/cp_share_queue.cpp:200-381 | in every run each proof is built and submitted under the job context in which its share was found, from the buffers made at launch, and no share is dropped as stale |
| ShareDelivery.EveryShareIsDelivered | src/common/cp_share_queue.cpp:200-408 | in every interleaving in which the worker meets no failure, the shares put into the queue are each proved and then submitted exactly once, under their own job and in order |
| ShareDelivery.EveryHitIsEnqueued | src/common/cp_mine.cpp:308-420 | in every interleaving in which no hit is stopped, each hit of a scan puts exactly one share of the job being mined into the queue |
| ShareDelivery.AttemptScans | src/common/cp_mine.cpp:193-271 | in every run an attempt that is not stopped reaches its scan, at once or after a reclaim that brings back all it needs |
| ShareDelivery.SomeShareIsSubmitted | src/common/cp_share_queue.cpp:200-408 | every setup that can hand shares over has a run in which a share is proved and submitted |
| ShareDelivery.NothingIsEnqueued | src/common/cp_mine.cpp:372-382 | unless the setup can hand shares over: then no hit ever does |
| ShareProtocol.NoDeadlock | src/common/cp_share_queue.cpp:463-517 | until the process has ended one of the two threads can step, without spurious wake-ups |
| ShareProtocol.ReadyStays | src/common/cp_share_queue.cpp:485-507 | what the miner waits for stays true until the miner moves |
| ShareProtocol.MinerIsServed | src/common/cp_share_queue.cpp:383-408 | a waiting miner is awake with its condition true after at most seven steps of the worker, however they turn out |
| Layout.Layout.Configure | src/opencl/case32_layout.cpp:82-121 | accepts exactly the supported tiles with the default or a supported macro block, and changes nothing otherwise: the divisibility and work-item checks never reject |
| Layout.Layout.BlocksFill | src/opencl/case32_layout.cpp:32-49 | in every selectable layout register tiles fill hash tiles, hash tiles fill macro blocks, strips fill packed blocks, and at most 512 work items result |
| Layout.TilesNest | src/opencl/case32_layout.cpp:123-125 | a hash tile is a whole number of register tiles, a macro block of hash tiles, and has at least 32 cells |
| MacroXor.SelectableLayoutsScan | src/opencl/case32_layout.cpp:82-121 | every layout that configure can select meets the preconditions of packing and hashing |
| Prepack.PackingIsBijective | src/opencl/case32_prepack.cpp:170-198 | the packed index is a bijection between the matrix and [0, lines * K) |
| Prepack.PackedDigits | src/opencl/case32_prepack.cpp:179-193 | a packed position determines its six digits |
| Prepack.StripStart | src/opencl/case32_prepack.cpp:184-190 | the offset expression of the packing and hashing loops is the start of the strip |
| Prepack.PackPanel | src/opencl/case32_prepack.cpp:12-40 | a panel holds the groups of its lines in order |
| Prepack.PrepackCoalesced | src/opencl/case32_prepack.cpp:170-230 | the coalesced packing puts every matrix entry at its packed index |
| Prepack.PrepackAll | src/opencl/case32_prepack.cpp:42-60 | the plain packing does so for macro blocks of one register tile |
| Prepack.PackedHoldsMatrix | src/opencl/case32_prepack.cpp:200-230 | every entry of the matrix is found in the packed operand |
| TileHash.DotFitsInt32 | src/opencl/case32_prepack.cpp:119-126 | 32-bit accumulators hold every partial sum below a depth of 2^17 |
| TileHash.CellsXorSideBySide | src/opencl/case32_prepack.cpp:466-473 | the values of tiles side by side combine to that of the wider tile |
| TileHash.XorTileHost | src/opencl/case32_prepack.cpp:97-103 | the exclusive or of the cells as 32-bit words |
| TileMeaning.WordMeaning | src/opencl/case32_prepack.cpp:97-103 | the word of a 32-bit accumulator is its two's complement, and different accumulators have different words |
| TileMeaning.EntryCounts | src/opencl/case32_prepack.cpp:115-128 | an entry of A adds its change times the matching entry of B to the dot products of its own row once its depth is reached, and nothing to any other |
| TileMeaning.OneCellCounts | src/opencl/case32_prepack.cpp:130-149 | if all dot products of a tile but one agree, its value changes exactly if that one does: no cell and no bit is left out |
| TileMeaning.OneProduct | src/opencl/case32_prepack.cpp:105-149 | one nonzero product of entries: the tile in which its row and column cross has its word as value from the milestone that reaches its depth on, and 0 before |
| MacroXor.AdvanceMilestone | src/opencl/case32_prepack.cpp:115-128 | every entry of C advances by one milestone of its dot product |
| MacroXor.ReferenceMilestoneTileXor | src/opencl/case32_prepack.cpp:105-149 | the naive loop leaves the milestone value of every hash tile |
| MacroXor.HashesDetermineOutput | src/opencl/case32_prepack.cpp:141-147 | the tile slots cover the output, so it is determined by the tile values |
| BlockedXor.PackedGroup | src/opencl/case32_prepack.cpp:423-430 | the blocked loop finds each group of a register tile where it looks |
| BlockedXor.AddPanel | src/opencl/case32_prepack.cpp:413-442 | a panel adds exactly its steps of depth to every cell |
| BlockedXor.PartXorAdds | src/opencl/case32_prepack.cpp:466-473 | the next register tile extends the value of its hash tile, also for two 4x4 tiles in a 4x8 hash tile |
| BlockedXor.HashRegisterTile | src/opencl/case32_prepack.cpp:393-476 | one register tile through all milestones updates only the slots of its hash tile |
| BlockedXor.HashMacroBlock | src/opencl/case32_prepack.cpp:386-479 | one macro block completes all of its hash tiles and touches no other slot |
| BlockedXor.ReferenceMacroTileXorCoalesced | src/opencl/case32_prepack.cpp:377-481 | the blocked loop over packed operands leaves the milestone value of every hash tile |
| BlockedXor.CompareScans | src/opencl/case32_prepack.cpp:105-481 | packing and hashing block by block gives the naive result, for all matrices, shapes and sizes |
| ScanPipeline.AsksRightly | src/onednn/case33_gemm_onednn.cpp:1488-1509 | the event slots give every command the dependency it needs |
| ScanPipeline.JackpotsJudgeTheirPanel | src/onednn/case33_gemm_onednn.cpp:1433-1510 | in every execution order the events allow, jackpot i judges exactly the output of GEMM i, and GEMM i + 2 has not started while it runs |
| ScanPipeline.FoundSlotIsQuiet | src/onednn/case33_gemm_onednn.cpp:1517-1529 | the host looks at a found slot only when its read is done and none that could overwrite it is pending |
| ScanPipeline.ScanReportsHits | src/onednn/case33_gemm_onednn.cpp:1483-1598 | a scan that succeeds reports a hit exactly when some panel has one, and without one has counted every panel, whatever the panels count |
| ScanCounts.HitIsCounted | src/onednn/case33_gemm_onednn.cpp:1483-1598 | a successful run with a hit reports the count of the panels up to the first with a hit, which is itself left out if its jackpot ran before the host looked at the panel before it |
| EarlyHit.HitMayGoUncounted | src/onednn/case33_gemm_onednn.cpp:1483-1598 | for all tile counts, two panels with a hit in the second only have a run that succeeds, finds the hit and counts the first panel alone |
| ScanEnds.NoHang | src/onednn/case33_gemm_onednn.cpp:1483-1598 | until the scan has returned some action of host or device changes the state, at most 10 n + 3 actions do in any run, and a run with that many has returned |
| ScanEnds.CanReturn | src/onednn/case33_gemm_onednn.cpp:1483-1598 | from every state a run goes on to the return, successfully if nothing has failed so far |
| ScanPipeline.Run | src/onednn/case33_gemm_onednn.cpp:1433-1598 | every interleaving of host and device keeps the pipeline invariant |
| TileGrid.PanelsPartition | src/onednn/case33_gemm_onednn.cpp:1447-1463 | every tile of the grid is in exactly one panel |
| TileGrid.ComputeTileGrid | src/onednn/case33_gemm_onednn.cpp:321-341 | a panel counts whole sub-grids along both sides, in either walk order |
| TileGrid.CountIsExact | src/onednn/case33_gemm_onednn.cpp:1690-1773 | the scan counts every tile exactly once if and only if each side is one chunk or a multiple of the sub-grid and no thread shares its work; otherwise it counts more |
| SyncScan.ScanForShare | src/onednn/case33_gemm_onednn.cpp:1690-1773 | the synchronous scan finds a hit exactly when a panel has one and then reports the count of all panels up to the first with a hit; it succeeds without one only with an exact count, and reports nothing when a cancellation or a failing panel cuts it short |
| SyncScan.SomeFirstHit | src/onednn/case33_gemm_onednn.cpp:1690-1773 | there is a first panel with a hit exactly if some panel has one |
| MacroScan.EnqueueDue | src/opencl/case33_gemm_ocl.cpp:865-905 | what a slot will hold once the queue has run is the verdict on all blocks up to the launch its read follows |
| MacroScan.ScanMacroBlocks | src/opencl/case33_gemm_ocl.cpp:851-943 | two launches in flight on an asynchronous in-order device: however fast it runs, the answer is exact; without a hit every macro block is counted, with one all blocks up to the end of the batch that holds the first; only a cancellation or a failing call ends the scan otherwise, with all but the last batch counted; and no read is left behind |
| PanelScan.ListPanels | src/onednn/case33_gemm_onednn.cpp:1446-1463 | the panel list: origins, sizes and counts of all panels, row by row |
| PanelScan.PanelsCount | src/onednn/case33_gemm_onednn.cpp:1446-1463 | the panels together count what the synchronous scan counts |
| PanelScan.PipelinedCount | src/onednn/case33_gemm_onednn.cpp:1433-1598 | every pipelined run that returns successfully without a hit reports that count, at least the number of tiles, and equal to it if and only if both sides are aligned and no thread shares its work |
| PanelScan.PipelinedHitCount | src/onednn/case33_gemm_onednn.cpp:1433-1598 | the same in panels of the grid: never more than the whole grid counts |
| PanelScan.PipelinedCountReached | src/onednn/case33_gemm_onednn.cpp:1433-1598 | such a run exists on every grid without a hit |
| ScanSetup.SetupDims | src/onednn/case33_gemm_onednn.cpp:233-319 | the grid that accepted settings give, with hash tiles cut from the register tile and clamped batches; if the register tile is a whole grid of hash tiles it is a valid one with at least 64 rows and 16 columns |
| ScanSetup.GridMeaning | src/onednn/case33_gemm_onednn.cpp:233-319 | the tiles of the grid fill the matrix and the register tile, and the batch options are taken over within 1 to 4096 |
| ScanSetup.PeriodsFit | src/onednn/case33_gemm_onednn.cpp:311-316 | the check of the matrix sizes against the periods never refuses whole matrix units |
| ScanSetup.UnalignedIsSetUp | src/onednn/case33_gemm_onednn.cpp:233-319 | the smallest matrices on a 32x32 kernel with a row batch of 3 pass every check |
| ScanSetup.UnalignedOvercounts | src/onednn/case33_gemm_onednn.cpp:114-142 | that grid of 4096 tiles counts 5504 |
| Fee.Ledger.SetTilesPerMatrix | src/common/cp_fee.cpp:185-204 | the first size seeds the debt |
| Fee.Ledger.Authorized | src/common/cp_fee.cpp:206-209 | the session is charged to the wallet wanted at its authorization |
| Fee.Ledger.PrepareMatrix | src/common/cp_fee.cpp:217-242 | a due cycle is skipped, or starts at the pool the backoff selects |
| Fee.Ledger.Note | src/common/cp_fee.cpp:255-279 | work is charged by the wallet it was authorized under, saturating at both ends |
| Fee.NoteMeaning | src/common/cp_fee.cpp:255-279 | fee work pays 100 tiles each down to 0 and ends the cycle below 100 matrices, user work adds up to the largest 64-bit number, nothing else changes |
| Fee.Ledger.ChoosePool | src/common/cp_fee.cpp:299-311 | the session goes to a fixed pool exactly when the fee is due and one is left |
| Fee.Ledger.GotJob | src/common/cp_fee.cpp:313-322 | a first job of a fee session marks the pool as good |
| Fee.Ledger.EndSession | src/common/cp_fee.cpp:324-359 | a fee session without a job moves on, and gives the cycle up after the last pool |
| FeeRuns.AttemptKeepsLedger | src/common/cp_mine.cpp:169-308 | an attempt of any size keeps the balance of the ledger, what saturation swallows included |
| FeeRuns.RunClient | src/common/cp_pool_session.cpp:187-201 | every run of the client can be carried out by calls on one ledger object, whose fields are then those of the run that the results speak of |
| FeeRuns.DebtIsBalanced | src/common/cp_fee.cpp:113-279 | in every run, whatever the scans count: debt + 100 fee tiles + 100 T settled cycles + lost user tiles = 50 T + user tiles + overpaid fee |
| FeeRuns.FeeIsConserved | src/common/cp_fee.cpp:113-279 | in every run with scans of at most T tiles: debt = 50 T + user tiles - 100 fee tiles - 100 T settled cycles, below 101 T, without clamping, so the fee stays within a constant of 1% |
| FeeOvercount.ExactUpToOneMatrix | src/common/cp_fee.cpp:255-279 | no run ever saturates if and only if no scan counts more than T tiles, be it runs whose scans count at most a tiles or runs whose scans all count exactly a |
| FeeRuns.LargeAttemptsOverpay | src/common/cp_fee.cpp:255-279 | with larger scans no user work is lost, and a fee attempt overpays if and only if 100 times its tiles exceed the debt, so whenever 100 tiles reach 100 T + a |
| FeeOvercount.SteadyRunOverpays | src/common/cp_fee.cpp:255-279 | for every count a above T there is a run whose scans all count a and whose first fee scan pays at least 50 (a - T) more than is owed |
| FeeOvercount.EveryFeeScanOverpays | src/common/cp_fee.cpp:255-279 | with scans that all count a, and 99 a at least 100 T, every fee scan of every run pays at least 99 a - 100 T + 1 more than is owed |
| FeeScan.ExactIfAligned | src/onednn/case33_gemm_onednn.cpp:1433-1598 | the fee ledger is exact in every run whose scans report the grid's own count if and only if the grid is aligned and no thread shares its work; the same for runs whose scans report at most that |
| FeeScan.OvercountOverpays | src/onednn/case33_gemm_onednn.cpp:1433-1598 | every other grid has a run, of scans that report its count, in which a fee scan pays at least 50 times the surplus of a scan too much |
| FeeScan.UnalignedOverpays | src/common/cp_fee.cpp:255-279 | on the grid that passes the checks and counts 5504 tiles for 4096, every fee scan of every run pays at least 135297 tiles more than is owed |
| FeeRuns.SessionsAgree | src/common/cp_pool_session.cpp:305-331 | in every run, failed authorizations included, pool, password and wallet agree: a fixed fee pool sees only the fee wallet with the default password; online, work is charged to the wallet authorized |
| FeeRuns.WhatIsSent | src/common/cp_pool_session.cpp:318-323 | a session sends the fee wallet exactly while a fee cycle is active, with the default password exactly on a fixed pool |
| FeeRuns.DisabledFeeIsIdle | src/common/cp_fee.cpp:164-172 | with the fee off nothing is charged and only the user's pool is used |
| FeeFailover.FeeCycleIsSettled | src/common/cp_fee.cpp:324-359 | in every run, from any moment of a fee cycle outside mining and while no job comes: each session that ends moves to the next pool with the debt untouched, and exactly pools - index + 1 of them settle the cycle |
| FeeRests.RestsEnd | src/common/cp_fee.cpp:217-359 | in every run: after f give-ups in a row exactly min(2^(f-1), 64) due cycles are skipped and the next one starts; after f failures of all fixed pools in a row exactly as many go to the user's pool, and the next one to the first pool; a job starts the counts anew |
| Fee.BackoffDoubles | src/common/cp_fee.cpp:104-108 | failures in a row double the backoff from 1 up to 64 |
| FeeRuns.ApplyKeepsPools | src/common/cp_fee.cpp:324-359 | pool numbers stay in range and every backoff and rest at most 64, through every action |
| FeeFailover.DroppedSessionReturns | src/common/cp_fee.cpp:324-332 | in every run, a fee session that has had a job and is lost goes on at the same pool, with debt and rests untouched |
| FeeFailover.GoodPoolIsKept | src/common/cp_fee.cpp:313-342 | in every run, once a fixed pool has given a fee session its job and while no fee session ends without one, every fee session of this and all later cycles goes to that pool |
| JsonFrame.CpJsonObjectLength | src/common/cp_json_frame.cpp:3-31 | the scanning loop gives the verdict of the specification, with the length |
| JsonFrame.VerdictIsFinal | src/common/cp_json_frame.cpp:3-31 | a verdict on a prefix is to wait or final |
| JsonFrame.CompleteAtLastByte | src/common/cp_json_frame.cpp:3-31 | an object is complete exactly from its last byte on |
| JsonFrame.FrameFindsObject | src/common/cp_json_frame.cpp:3-31 | the scanner finds exactly the end of every rendered object nested at most 128 deep, whatever follows, and refuses every deeper one |
| JsonText.CpJsonEscape | include/cp_json_text.hpp:7-26 | the escaping loop writes the specified text |
| JsonText.EscapedIsQuotable | include/cp_json_text.hpp:7-26 | escaped text can stand in quotes |
| JsonText.EscapedValueKeepsFrame | include/cp_json_text.hpp:7-26 | a string value never moves the end the scanner finds for the object around it |
| JsonText.JsonDecodeStr | src/common/cp_util.cpp:206-232 | the decoding loop gives the specified value or failure |
| JsonText.EscapeRoundTrip | src/common/cp_util.cpp:206-232 | a written value is read back exactly when it has no byte below 0x20 and fits |
| JsonText.SpelledIsRead | src/common/cp_util.cpp:206-232 | every legal spelling of a text that fits, with any of the three escapes, is read as that text |
| JsonText.ReadWasSpelled | src/common/cp_util.cpp:206-232 | what is read was legally spelled up to the first quote that is not escaped: nothing else is accepted |
| JsonText.ControlIsNumbered | include/cp_json_text.hpp:7-26 | a control character is written as its number in two hexadecimal digits |
| NetReader.KeptHasRoom | src/common/cp_pool.cpp:358-368 | a reader that has not given up has room for the next read |
| NetReader.NetBuffer.Append | src/common/cp_pool.cpp:366-375 | received bytes are put behind the rest |
| NetReader.NetBuffer.PopMessage | src/common/cp_pool.cpp:225-248 | the first object is taken out of the buffer and the rest moved to its front |
| NetReader.NetBuffer.DrainAll | src/common/cp_pool.cpp:345-363 | the reader pops while it can, and gives up on a broken or full buffer |
| NetReader.SegmentationDoesNotMatter | src/common/cp_pool.cpp:334-377 | however the stream is cut into reads, the same objects are popped, the same bytes kept and the connection given up in the same cases |
| NetReader.ReadStream | src/common/cp_pool.cpp:334-377 | the reader on one buffer object: whatever the network delivers at a time, a stream has the outcome that the stream alone decides |
| NetStreams.ObjectsArePopped | src/common/cp_pool.cpp:334-377 | a stream of objects nested at most 128 deep: exactly those objects are popped, as written and in order, and the rest is kept, if and only if each with the bytes before it fits the buffer |
| NetReader.BufferSuffices | src/common/cp_pool.cpp:358-368 | the bounded buffer makes no difference if and only if every object with the bytes before it fits |
| WideDivision.RestoringStep | src/common/cp_util.cpp:400-407 | one step of restoring division is exact through the bit shifted out of the remainder |
| WideDivision.U128DivU64 | src/common/cp_qpow_mine.cpp:164-180 | quotient and remainder of a 128-bit dividend are exact when the high word is below the divisor |
| WideDivision.QpowTargetFromDifficulty | src/common/cp_qpow_mine.cpp:185-201 | the target is the floor of (2^512 - 1) / d, with 0 read as 1 |
| StratumTarget.PoolTargetFromDifficulty | src/common/cp_util.cpp:393-407 | the target is the floor of 0xFFFF * 2^208 / d for every d in 1..2^64-1 |
| HexTarget.HexToBytes | src/common/cp_util.cpp:158-178 | accepts exactly even, fitting hexadecimal text |
| HexTarget.HexDigits | src/common/cp_util.cpp:158-178 | the sixteen digits in either case, and no other characters |
| HexTarget.BinToHex | src/common/cp_util.cpp:152-156 | two lower-case digits for each byte |
| HexTarget.HexRoundTrip | src/common/cp_util.cpp:152-178 | bytes written as text are read back |
| HexTarget.BeTargetHexToLeWords | src/common/cp_util.cpp:413-423 | accepts exactly 64 digits; the words denote the number the text does |
| HexTarget.LeWordsToBeTargetHex | src/common/cp_util.cpp:425-437 | 64 digits that denote the number the words do |
| HexTarget.TargetRoundTrip | src/common/cp_util.cpp:413-437 | words written as text and read again are the same |
| JackpotTarget.ScaleTarget | src/common/cp_util.cpp:439-451 | the scaled target is min(target * factor, 2^256 - 1) for factors up to 2^32 |
| JackpotTarget.DigestBeatsTarget | src/cpu/cp_jackpot.hpp:66-72 | the comparison is that of the 256-bit numbers |
| JackpotTarget.AcceptsDigest | src/common/cp_util.cpp:459-466 | a digest is accepted exactly when its value is at most target * factor |
| Reciprocal.Uint32Reciprocal | src/onednn/case5_gemm_launch.cpp:31-40 | exact division for every divisor that is not a power of two and every source below 2^31; 0 for powers of two |
| Nonce.AddBE | src/common/cp_qpow_mine.cpp:347-356 | addition modulo 2^512 exactly if the step plus the lowest byte fits 64 bits; else 2^64 is lost |
| Nonce.BuildStartNonce | src/common/cp_qpow_mine.cpp:214-250 | the exact layout of the start nonce: extranonce, room for the stamp, salt, zero low bytes; no entropy, no nonce except in mock mode |
| Nonce.StampThreadId | src/common/cp_qpow_mine.cpp:307-319 | the stamp stands behind the extranonce |
| Nonce.Advance | src/common/cp_qpow_mine.cpp:347-356 | a thread's steps of fewer than 2^64 in all add exactly and keep the upper 56 bytes |
| Nonce.SearchNonces | src/common/cp_qpow_mine.cpp:593-681 | one start nonce, a stamped copy for each thread, and any numbers of steps: every byte of each nonce is given by extranonce, thread number, worker name and random bytes, its lower 8 bytes count the steps, and no two threads ever stand at the same nonce |
| Nonce.ThreadsAreDisjoint | src/common/cp_qpow_mine.cpp:307-334 | two threads never meet the same nonce and keep the extranonce, for every extranonce length |
| Noise.PairIsProper | src/common/cp_noise.c:192-197 | for every power-of-two rank the two indices of a pair are below the rank and differ |
| Noise.GeneratePermutationMatrix | src/common/cp_noise.c:182-200 | every column gets the pair of its word |
| Noise.GenerateUniformRow | src/common/cp_noise.c:202-219 | a row is exactly its slice of the stream of hash bytes, across digest boundaries |
| Noise.MatvecSparsePerm | src/common/cp_noise.c:221-228 | the difference of two entries fits a signed byte |
| Noise.FuseNoiseRow | src/common/cp_noise.c:789-811 | a fused row, of A or of B with or without a signal, is the exact integer sum of signal and noise and never leaves a signed byte |
| Noise.WordBytes | src/common/cp_noise.c:186-195 | the word of a column is four bytes of a digest, least significant first, eight columns to a digest |
| Noise.PairMeaning | src/common/cp_noise.c:192-197 | the first index is the word modulo the rank; the second differs from it by one more than the word's share of rank - 1 |
| Noise.MatrixNoiseMeaning | src/common/cp_noise.c:182-228 | the noise of an entry is the difference of two bytes of the row stream, modulo 64, at those two indices |
| Noise.GetRandomHash | src/common/cp_noise.c:168-176 | the message behind a digest: its number plus one in one word, and the label |
| Noise.MessageHolds | src/common/cp_noise.c:168-176 | the message has the label in its second half, the number plus one in one word, and zeros elsewhere |
| Noise.MessagesDiffer | src/common/cp_noise.c:168-176 | no two digests of permutation and rows come from the same message |
| Noise.NoisyEntry | src/common/cp_noise.c:1349-1356 | an entry of the noisy matrix is signal plus noise, or the noise alone without a signal, within a signed byte |
| Noise.AcceptedRanks | src/common/cp_noise.c:1305-1306 | the check lets exactly the powers of two from 32 up pass |
| Noise.BuildNoisy | src/common/cp_noise.c:1301-1440 | every entry of the noisy matrix is the exact sum of its signal and the noise the two hashes determine, unless the rank is refused, memory is missing or the job is cancelled at a checked row |
| Noise.BuildNoisyFromSeed | src/common/cp_noise.c:1301-1440 | the same from a seed: permutation digests carry their number in word 1, row digests in word 0 |

## Left out

- ShareQueue.MAX_DEPTH: the queue depth is 1, as src/common/cp_mine.cpp:43-44 creates it, and the protocol is
  proved for that depth. The conservation lemmas of `ShareQueue` hold for any depth.
- ShareProtocol.MinerStep: cancellation, fee switches, limits and failures are one free choice; the outcome
  code, the witness contents and the proof itself are not modelled. Destroying the queue happens between jobs,
  as the callers do.
- ShareProtocol.WorkerStep: reads of the job context outside the mutex are single steps.
- MatrixHash.Digest: `malloc` failures are parameters; OpenMP loops run in order, since their iterations write
  disjoint slots. Trees and chunk values from a device are read-only sequences.
- DirtyList.Sort: `qsort` is modelled by an insertion into a sorted sequence.
- ChunkDigest.StackFits: BLAKE3_MAX_DEPTH is 54, its value in the BLAKE3 C library, whose header is not part of
  the repository.
- CpuWorker.CpuWorker.PrepareAttempt: entropy, the row chosen and its values, where a draw is cancelled, the
  readiness of the B side and the end of the noisy matrix's construction are parameters. The debugging comparison
  with a second full digest is not modelled.
- Layout.Layout.Configure: K_DIM and R_RANK have their compiled values.
- MacroXor.ReferenceMilestoneTileXor: accumulators are unbounded; `TileHash.DotFitsInt32` shows that 32 bits hold
  them at every depth below 2^17.
- BlockedXor.ReferenceMacroTileXorCoalesced: the `offset_a128` and `use_fast_u8s8` branches and the two reference
  GEMMs that keep C instead of hashing it (src/opencl/case32_prepack.cpp:232-375).
- ScanPipeline.HostStep: profiling, and the reading of the hit's coordinates after the scan.
- TileGrid.ComputeTileGrid: assumes the register tile is a whole grid of hash tiles, which `ScanSetup.Whole`
  states of the settings.
- ScanSetup.SetupDims: the leading dimensions, the message words and the launch size it also computes.
- MacroScan.ScanMacroBlocks: whether the calls of a batch fail and how far the device gets meanwhile are
  parameters; the reading of the hit's coordinates is not modelled.
- FeeRuns.Run: Quantus charging by wall-clock time, reconnect delays, printing and the wallet strings.
- NetReader.NetBuffer.DrainAll: sockets, deadlines and the dispatch of a popped object.
- HexTarget.HexToBytes: bytes written to the output before a bad digit.
- StratumTarget.PoolTargetFromDifficulty: fractional difficulties, which use `long double`.
- JackpotTarget.AcceptsDigest: the BLAKE3 rounds and the fold of milestones into a message.
- Noise.BuildNoisy: the keyed hashes are arbitrary functions; buffers are arrays of integers in range. The loop is
  the one without OpenMP; failing allocations inside OpenMP threads are not modelled.
- Device kernels, kernel selection, walk orders, proof building, the HTTP interface and option parsing are not
  modelled.
