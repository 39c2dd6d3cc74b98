# xv6: storage, memory, processes and two small languages, verified

A Dafny model of the parts of this xv6 where the code is hardest to get right, and proofs of what it promises.

| part | files | main results |
|---|---|---|
| Write-ahead log | `LogRecovery`, `LogSystem`, `LogHistory`, `LogSafety`, `LogOverflow`, `Log` | crash atomicity of every run that fits the log; group commit; exactly which log sizes make every run safe |
| Blocks and inodes | `Blocks`, `Bitmap`, `InodeMap`, `FileBytes`, `Truncate`, `FsCode`, `FileWrite`, `LogBudget` | each block has one owner; a file is a byte sequence; exactly which blocks a write or a truncation logs, and when that exceeds an operation's budget |
| Buffer cache | `BufferCache`, `MruRing`, `Bio` | the cache is transparent in every run; pinned blocks stay; least recently released buffer is recycled |
| User heap | `HeapModel`, `HeapOps`, `Umalloc`, `HeapCanonical` | heap tiling; one `morecore` at most; `free` undoes `malloc` |
| Frames and page tables | `Paging`, `PagingSteps`, `PagingFrames`, `VmSpec`, `VmShrink`, `VmGrow`, `VmCopy`, `Vm`, `VmTheorems`, `Kalloc` | frame conservation over any number of directories; rollback; exact copies |
| Processes | `ProcModel`, `CpuOwnership`, `ProcFamily`, `ProcLife`, `ProcSafety`, `ProcTheorems`, `ProcEffects`, `ProcCode` | exit/wait protocol and CPU ownership in every interleaving; what fork, sleep, wakeup, kill, exit and wait do in every reachable state |
| Pipes | `PipeRing`, `PipeProtocol`, `PipeSafety`, `PipeAccount`, `PipeTheorems`, `PipeCode` | every call gets its bytes, in order; FIFO across counter wrap-around; no lost wakeup in this kernel; what `pipe.c` alone guarantees |
| Shell parser | `ShellSyntax`, `ShellGrammar`, `ShellLexer`, `ShellReading`, `ShellText`, `Shell`, `ShellTheorems` | the lexer finds the only tokens a line can be written with; the parser decides an unambiguous grammar; parse undoes print; in-place termination keeps every word |
| Regular expressions | `Grep` | the notation can be read in one way only; the matcher decides the declarative meaning |

Concurrency is modelled as labelled steps of a state machine (`Enabled`, `Do`, `Run`, `Exec`): a theorem about every run is an
induction over step lists of any length, with any number of processes, CPUs or operations. Code that updates state in place is a
class whose methods are proved against the functions the state machines and theorems use. What a run should have done is told by
the labels of its steps, not by a record that the steps keep themselves. A `panicked` result stands for a call to `panic`.
Parameters stand for what comes from outside: the disk, what `sbrk` returns, the kernel's `kmap`, the contents of user buffers,
and `killed`.

Where the code does not keep what one would expect of it, the exact condition is a result here:

- `log_write` tests the log's size before it takes the lock. Operations that keep to their budgets can therefore overflow the
  on-disk log exactly when it has between 2 and `LOGSIZE` blocks (`LogOverflow.OverflowExactly`). Crash safety, and that every
  read sees every write, hold in every run exactly for the other sizes (`LogOverflow.CrashSafeExactly`). `mkfs` makes the log
  `LOGSIZE` blocks. For every size both hold in the runs that keep the header within the log (`LogSafety`).
- A `log_write` that would only be absorbed can panic, exactly if the log has 2 blocks or more
  (`LogOverflow.AbsorbedCallCanPanic`).
- `mkfs` leaves a hole in the root directory exactly when its entries fill their last block (`FileBytes.RootDirectoryHole`).
- `itrunc` keeps within the `MAXOPBLOCKS` blocks of its operation on every disk of a layout exactly when the data blocks of the
  layout span fewer than `MAXOPBLOCKS` bitmap blocks (`LogBudget.TruncBudgetExactly`); the one `mkfs` makes has one.

The killed exit of `pipewrite` deserves a note. In this kernel a process marks itself killed on its way back to user space, so no
process inside `pipewrite` has the flag set, and nobody is ever stranded (`PipeTheorems.NobodyStrandedHere`). `pipe.c` itself does
not rely on that. With the flag set at any time its killed exit is harmless exactly when no write is longer than the pipe
(`PipeTheorems.KilledExitIsHarmlessExactly`).

`parseredirs` gives `>>` the same mode as `>`, and the model follows it.

## Model

| member | source | states |
|---|---|---|
| LogRecovery.HeadRoundTrip | log.c:86-112 | the header block written by write_head reads back through read_head as the same block list, whatever the block held before |
| LogRecovery.RecoverPrefix | log.c:69-82 | recovery cut after any number of its writes and started over gives the same home blocks |
| LogRecovery.RecoveryIsRestartable | log.c:115-122 | however often recovery is cut short, the one that completes gives what the first would have given, with an empty log |
| LogRecovery.CommitPrefix | log.c:193-202 | a crash after any prefix of commit's writes recovers to the old home blocks up to the last log copy and to the whole transaction from the header write on |
| LogRecovery.CrashAtomicity | log.c:69-122 | crash commit anywhere, then crash recovery any number of times: all home blocks are old or all are new, and which is decided by the header write |
| LogRecovery.CommitCompletes | log.c:193-202 | an uninterrupted commit puts the whole transaction in place and leaves the log empty |
| LogRecovery.CommitEndsInRecovery | log.c:193-202 | commit after its header write is recovery of the logged disk |
| LogSystem.AccountingKeeps | log.c:126-233 | every step keeps the reservation: lh.n plus all unspent budgets fits LOGSIZE, lh has no duplicates, committing means nobody is active; for a log of any size |
| LogSystem.AccountingRun | log.c:126-141 | the reservation holds in every run |
| LogSystem.EndAccounts | log.c:146-174 | end_op keeps the reservation and does not reach its panic |
| LogSystem.RoomWhileUnspent | log.c:126-141 | while an operation has budget left, lh.n is below LOGSIZE |
| LogSystem.LogWritePanics | log.c:214-233 | when log_write panics, exactly, for a log of any size: an adding call at size-1 entries, so never for a log larger than LOGSIZE; an absorbed call too, and in a larger log with a full header |
| LogHistory.HistoryIsTold | log.c:126-233 | in every run of a log of any size the recorded history and its durable part are what the labels tell: each log_write with the data it was called with, each end, the header write that follows one copy for each block of the group, and what a crash cuts off |
| LogHistory.AtRestAllIsDurable | log.c:146-174 | whenever nobody is between begin_op and end_op and the log is at rest, everything ever logged is durable |
| LogSafety.StepKeeps | log.c:126-233 | begin_op, both halves of log_write, end_op, each write of commit, a crash and each write of recovery keep the safety invariant of a log of any size, if the header still fits the log afterwards |
| LogSafety.RunKeeps | log.c:126-233 | the safety invariant holds in every run in which the header fits the log |
| LogSafety.EveryRunIsCrashSafe | log.c:54-233 | in every such interleaving, a crash now followed by any number of interrupted recoveries yields exactly the log_write calls of the run up to the last header write, as the labels of its steps tell them, and these consist of whole operations |
| LogSafety.ReadsSeeEveryWrite | log.c:69-82 | in every such run, outside recovery, every read gives the data of the last log_write of the block that the labels tell, also during commit; whenever the log is at rest with no operation open they are on disk |
| LogSafety.CommitterIsNeverStuck | log.c:193-202 | in every such run commit and recovery find their next write possible |
| LogSafety.CommitIsExclusive | log.c:126-174 | while somebody commits nobody is active and no operation can begin, log or end |
| LogSafety.EndNeverPanics | log.c:152-153 | the "log.committing" panic is unreachable in any run, for a log of any size |
| LogOverflow.OverflowExactly | log.c:214-229 | operations within their budgets can put more entries in the header than the log has slots if and only if the log has 2 to LOGSIZE blocks |
| LogOverflow.SafeSizes | log.c:214-229 | for every size outside 2 to LOGSIZE every run has all three guarantees, with no condition on the run |
| LogOverflow.DamageRun | log.c:178-190 | for every other size, a run within the budgets in which commit has copied a block over the first home block after the log |
| LogOverflow.DamageIsUnsafe | log.c:178-190 | after it a crash leaves a block that no prefix of the history explains, and a read misses a write |
| LogOverflow.CrashSafeExactly | log.c:126-233 | every run is crash safe, and every read sees every write, if and only if the log does not have 2 to LOGSIZE blocks |
| LogOverflow.AbsorbedCallCanPanic | log.c:218-219 | some run within the budgets panics in a call that would only be absorbed if and only if the log has 2 blocks or more |
| LogCode.Log.WriteLog | log.c:178-190 | copies the pinned blocks to the log slots, in order |
| LogCode.Log.WriteHead | log.c:102-112 | one block write: the encoded header |
| LogCode.Log.ReadHead | log.c:86-97 | lh is the decoded header block |
| LogCode.Log.InstallTrans | log.c:70-82 | copies the log slots home and unpins exactly those blocks |
| LogCode.Log.Commit | log.c:193-202 | its trace of block writes is exactly CommitWrites, which the crash theorems are about, and it ends with nothing pinned |
| LogCode.Log.RecoverFromLog | log.c:116-122 | its trace of block writes is exactly RecoverWrites |
| LogCode.Log.TryBeginOp | log.c:126-141 | admits exactly when nobody commits and the reservation fits; it is the step BeginOp |
| LogCode.Log.CheckRoom | log.c:218-221 | log_write's tests before the lock; it panics exactly when the step CheckRoom does |
| LogCode.Log.AddBlock | log.c:223-232 | absorption or append, and the pin with the new data; it is the step AddBlock |
| LogCode.Log.EndOp | log.c:146-163 | the last operation out, and only it, must commit; it is the step EndOp |
| Blocks.PutThenGet | log.c:102-112 | a word written into a block reads back |
| Blocks.BitUpdates | fs.c:65-72 | setting or clearing one bit of a bitmap byte changes that bit alone |
| Bitmap.MarkBits | fs.c:66-68 | marking a block changes its own bitmap bit and no other |
| Bitmap.MarkUsedSet | fs.c:57-95 | the set of used blocks gains or loses exactly that block |
| InodeMap.AllocOwn | fs.c:57-78 | a block balloc hands out was free and belongs to no slot; ownership is kept with it in hand |
| InodeMap.EnteredOwn | fs.c:373-400 | entering it into an empty slot gives the block its one owner |
| FileBytes.SpliceReads | fs.c:453-511 | what is read after a write: the new bytes where they went, the old ones elsewhere, and the new length |
| FileBytes.RootDirectoryHole | mkfs.c:158-163 | rounding up the root directory leaves a hole if and only if its entries fill their last block |
| FileBytes.MapDirect | fs.c:378-382 | a direct slot filled from a free block: one slot changes, contents and ownership stay |
| FileBytes.MapIndirect | fs.c:385-389 | the indirect block appears with no entries |
| FileBytes.MapEntry | fs.c:389-396 | an indirect entry filled from a free block |
| FileBytes.WrittenIsSplice | fs.c:482-511 | the rounds of writei together splice src into the contents |
| FileBytes.ProgressEnds | fs.c:482-511 | after the last round and the size update: spliced contents, other inodes unchanged, no holes, each block owned once |
| FileBytes.MappedUsed | fs.c:373-400 | mapping a slot takes exactly the blocks it needs from the free ones |
| FileBytes.NeedGrows | fs.c:482-511 | the blocks a write needs are exactly those its file grows by, indirect block included |
| FileBytes.WroteLogsStep | fs.c:490-505 | the set of blocks a round of writei logs, in terms of the disk before and after |
| FileBytes.TallyRound | fs.c:490-505 | one round of writei keeps the account of blocks logged and blocks taken |
| FileBytes.LogsBound | fs.c:482-511 | the distinct blocks a write logs are at most its data, bitmap, indirect and inode blocks |
| FileBytes.ChunkFits | file.c:127-145 | a chunk of at most ((MAXOPBLOCKS-1-1-2)/2)*512 bytes logs at most MAXOPBLOCKS distinct blocks, wherever it starts |
| LogBudget.LargerChunkExceeds | file.c:133 | for every larger chunk a file can hold there is a consistent disk on which writei takes it all and logs more than MAXOPBLOCKS distinct blocks |
| LogBudget.TruncWithin | fs.c:408-435 | itrunc logs at most the inode's block and the bitmap blocks that cover data blocks |
| LogBudget.TruncBudgetExactly | fs.c:408-435 | itrunc logs at most MAXOPBLOCKS distinct blocks on every consistent disk of a layout if and only if its data blocks span fewer than MAXOPBLOCKS bitmap blocks |
| Truncate.NextIsUsed | fs.c:82-95 | "freeing free block" is unreachable from itrunc |
| Truncate.FreeNext | fs.c:408-435 | each bfree of itrunc frees exactly the next slot's block |
| Truncate.TruncEnds | fs.c:408-435 | afterwards exactly the blocks the inode owned are free, other inodes are unchanged and ownership holds |
| FsCode.FileSystem.FindFree | fs.c:57-78 | finds the lowest free block, and none only if the disk is full |
| FsCode.FileSystem.Balloc | fs.c:57-78 | the lowest free block, marked and zeroed; panics exactly when there is none; which blocks it logs |
| FsCode.FileSystem.Bfree | fs.c:82-95 | clears one bit; panics exactly when it was clear |
| FsCode.FileSystem.Iupdate | fs.c:221-236 | the disk inode becomes the in-memory one |
| FsCode.FileSystem.Bmap | fs.c:373-400 | returns the mapped block, allocating only an empty slot, and keeps all contents and ownership; which blocks it logs; panics only out of range or with fewer free blocks than it needs |
| FsCode.FileSystem.BmapDirect | fs.c:378-382 | the direct half |
| FsCode.FileSystem.LoadIndirect | fs.c:386-390 | the indirect block, made if need be |
| FsCode.FileSystem.BmapIndirect | fs.c:383-397 | the indirect half |
| FsCode.FileSystem.NewEntry | fs.c:391-395 | a block for an empty entry |
| FsCode.FileSystem.ReadI | fs.c:453-476 | exactly the slice of the contents clipped to the size; -1 exactly for a bad offset or overflow; changes nothing, so it never allocates |
| FsCode.FileSystem.WriteI | fs.c:482-511 | the contents become the splice and every other file reads as before; -1 exactly when it does not fit, changing nothing; panics exactly when fewer blocks are free than the file grows by; exactly which blocks it logs, how many at most, and that no block changes without being logged |
| FsCode.FileSystem.Itrunc | fs.c:408-435 | frees exactly the blocks the inode owned, logs exactly their bitmap blocks and the inode's block and changes no other, and never panics |
| FileWrite.ChunkedNext | file.c:135-152 | writing chunk after chunk is writing the whole |
| FileWrite.WriteChunk | file.c:136-151 | one operation: within the log's budget, all of the chunk or nothing |
| FileWrite.WriteChunks | file.c:135-152 | stops early only at a chunk that does not fit the file |
| FileWrite.Filewrite | file.c:118-156 | the written prefix is spliced in at the offset, every other file reads as before, every operation is within the budget, no block changes outside of them, and all of it is written if and only if it fits |
| BufferCache.StepKeeps | bio.c:62-141 | bget, acquiresleep, fill, modify, pin, flush and the two parts of brelse keep: one buffer per block for dev != 0, reference counts exact, and idle clean buffers equal to the disk |
| BufferCache.StepContents | bio.c:62-141 | of all steps only a holder's modification changes what readers see, and only of its block |
| BufferCache.CacheIsTransparent | bio.c:62-141 | in every run each block reads as the plain disk with the run's modifications applied in order |
| BufferCache.InUseKeepsBlock | bio.c:81-91 | a buffer in use or pinned keeps its block; only a write back unpins, and it writes the pinned data |
| BufferCache.PinnedStays | log.c:213-233 | a buffer pinned by log_write stays through any run that does not write it back |
| BufferCache.PinPins | log.c:228-231 | log_write's pin is what makes it stay |
| BufferCache.ListIsByLastUse | bio.c:129-138 | in every run the list goes from the buffer whose count dropped to zero last to the one whose did so first |
| BufferCache.VictimIsOldest | bio.c:79-92 | in every run the recycled buffer has been idle longest of the idle clean ones |
| BufferCache.DoGetGets | bio.c:69-91 | the buffer bget hands out holds the block, is the one that held it if there was one, and has one user more; no other buffer changes |
| BufferCache.NoVictim | bio.c:81-92 | the "no buffers" panic means every buffer is in use or dirty |
| BufferCache.HeldShowsContents | bio.c:97-106 | a valid buffer shows its block's contents |
| MruRing.Unlink | bio.c:132-133 | the two pointer writes take one node out of the ring |
| MruRing.Push | bio.c:134-137 | the four pointer writes put it at the front |
| Bio.Bcache.constructor | bio.c:39-56 | binit: one ring over all buffers |
| Bio.Bcache.Search | bio.c:69-76 | finds the block's buffer in list order |
| Bio.Bcache.FindVictim | bio.c:81-91 | finds the last recyclable buffer |
| Bio.Bcache.Bget | bio.c:62-93 | returns a buffer that holds the block, with one user more: the old one, or an unused one emptied, and then the last in the list; panics exactly when neither exists |
| Bio.Bcache.Acquiresleep | sleeplock.c:22-31 | one waiter becomes the holder; it sleeps exactly while somebody else holds the lock |
| Bio.Bcache.Bread | bio.c:97-106 | bget, acquiresleep and the disk together: the caller holds a buffer with the block's contents, and every block reads as before |
| Bio.Bcache.Releasesleep | bio.c:127 | the cache step Unlock: the lock is free and the reference still counted |
| Bio.Bcache.DropRef | bio.c:129-140 | the cache step DoRelease on the linked list |
| Bio.Bcache.Brelse | bio.c:121-141 | the lock is free, one reference is gone, and a buffer nobody wants is first in the list; panics exactly on a buffer that is not locked |
| Bio.Bcache.MoveToFront | bio.c:132-137 | the list becomes the buffer followed by the rest in order |
| Bio.Bcache.Iderw | memide.c:39-60 | writes a dirty buffer, fills an invalid one; when it panics |
| Bio.Bcache.BreadFill | bio.c:97-106 | the caller gets the contents of the block |
| Bio.Bcache.Bwrite | bio.c:110-116 | the block on disk becomes the buffer's data, and the buffer is clean |
| HeapModel.FreeKeeps | umalloc.c:24-44 | insertion with both merges gives a coalesced, address-ordered ring with exactly the block's units added |
| HeapOps.FreeValid | umalloc.c:24-44 | free keeps the tiling and the data of all other blocks |
| HeapOps.TakeValid | umalloc.c:75-77 | handing out a whole node keeps the tiling |
| HeapOps.SplitValid | umalloc.c:78-82 | handing out the tail of a node keeps the tiling |
| HeapOps.GrowValid | umalloc.c:46-61 | memory from sbrk enters as one allocated block |
| Umalloc.StopsExactly | umalloc.c:30-32 | free's loop condition stops at the address-order position and nowhere else |
| Umalloc.FreeCode | umalloc.c:33-43 | the pointer and size writes of free are insertion and the two merges |
| Umalloc.LargeNode | umalloc.c:46-61 | memory just freed lies in one node, so it is large enough even when it merged |
| Umalloc.Allocator.constructor | umalloc.c:21-22 | the heap before the first call |
| Umalloc.Allocator.FindSlot | umalloc.c:30-32 | the search terminates at the block's place |
| Umalloc.Allocator.Free | umalloc.c:25-44 | the block leaves the allocated set, the free units grow by exactly it, other data is kept |
| Umalloc.Allocator.Morecore | umalloc.c:47-61 | a refusal changes nothing; otherwise some node now fits |
| Umalloc.Allocator.Setup | umalloc.c:70-73 | the first ring is base alone |
| Umalloc.Allocator.TakeNode | umalloc.c:76-77 | an exact fit is unlinked and handed out |
| Umalloc.Allocator.CutNode | umalloc.c:78-82 | the tail of a larger node is handed out |
| Umalloc.Allocator.Malloc | umalloc.c:64-90 | asks for memory exactly when nothing fits, at most once, and fails exactly when refused; otherwise hands out a fresh block with tiling kept |
| HeapCanonical.Canonical | umalloc.c:24-44 | the free units determine the coalesced free list |
| HeapCanonical.FreeUndoesMalloc | umalloc.c:24-90 | freeing a block just handed out restores the free list node by node |
| HeapCanonical.RequestFits | umalloc.c:69 | the units asked for hold the bytes and no whole unit is wasted |
| Kalloc.LinkedOther | kalloc.c:60-77 | linking a page off the list leaves the list |
| Kalloc.PagesAre | kalloc.c:47-53 | the pages freerange frees are exactly the aligned whole pages in the range |
| Kalloc.Kmem.Kfree | kalloc.c:60-77 | the page heads the list; refused exactly for a bad address |
| Kalloc.Kmem.Kalloc | kalloc.c:83-95 | the head of the list, no longer on it |
| Kalloc.Kmem.Freerange | kalloc.c:47-53 | every whole page of the range goes on the list |
| Kalloc.FramesApart | kalloc.c:60-95 | the list holds no frame twice, and a frame is on it exactly if its address is |
| Kalloc.TakeFrame | kalloc.c:83-95 | on the linked list, what the page-table code is promised of kalloc |
| Kalloc.GiveFrame | kalloc.c:60-77 | and of kfree, refused exactly outside the range |
| Paging.NewTableLookup | vm.c:36-55 | a new page table changes no translation |
| Paging.NewTableOwns | vm.c:36-55 | and gives its frame one owner |
| PagingSteps.WrittenLookup | vm.c:72 | writing one entry changes one translation of the two-level table |
| PagingSteps.MapUserOwns | vm.c:61-80 | mapping a fresh user page keeps one owner per frame |
| PagingSteps.MapKernelOwns | vm.c:61-80 | a kernel mapping owns nothing |
| PagingSteps.UnmappedLookup | vm.c:269-276 | clearing an entry unmaps that page alone |
| PagingSteps.UnmapOwns | vm.c:269-276 | kfree of a user page takes exactly that frame from the directory |
| VmShrink.NoTableNoPages | vm.c:266-268 | skipping a missing table skips no mapped page |
| VmGrow.GrowTakeShrink | vm.c:241-246 | undoing a failed allocuvm with a page in hand restores the mapping |
| VmCopy.ParentKept | vm.c:316-345 | the parent's directory is untouched by the copy |
| Vm.Memory.Kalloc | kalloc.c:83-95 | takes the first free frame |
| Vm.Memory.Kfree | kalloc.c:60-77 | the frame's contents are gone and it is free; no caller in vm.c frees a frame that is free already |
| Vm.Memory.Walkpgdir | vm.c:36-55 | finds the table or makes one; no translation changes; fails only without alloc or memory, and then changes nothing |
| Vm.Memory.Mappages | vm.c:61-80 | exactly the pages of the range are mapped; a failure leaves a prefix mapped, and nothing for a user page |
| Vm.Memory.Deallocuvm | vm.c:256-278 | exactly the user pages that start from newsz up to oldsz are unmapped and exactly their frames freed, missing tables skipped |
| Vm.Memory.Allocuvm | vm.c:222-249 | either every page that starts from oldsz up to newsz is mapped to a fresh zeroed frame, or the mapping is as before with at most table pages gained |
| Vm.Memory.Freevm | vm.c:284-298 | exactly the directory's frames become free |
| Vm.Memory.Setupkvm | vm.c:119-136 | a directory with exactly kmap's translations made from free frames, or the same frames free as before |
| Vm.Memory.Copyuvm | vm.c:316-345 | for every page that starts below sz equal contents and flags on a frame that was free, or the same frames free as before |
| VmTheorems.XvKmapIsKernelMap | vm.c:105-115 | the lines of kmap lie above KERNBASE and do not overlap, so setupkvm never panics "remap" |
| VmTheorems.AllocConserves | vm.c:222-249 | with any number of live directories: no frame is lost, made or shared, whether allocuvm succeeds or fails |
| VmTheorems.DeallocConserves | vm.c:256-278 | the same for deallocuvm |
| VmTheorems.CopyConserves | vm.c:316-345 | the same for a new directory, whose frames come from the free list |
| VmTheorems.FailedCopyConserves | vm.c:342-345 | a failed copy also leaves every directory's translations |
| VmTheorems.FreeConserves | vm.c:284-298 | freevm moves the directory's frames to the free list and disturbs no other |
| PagingFrames.OthersUntouched | vm.c:222-345 | an operation on one directory leaves every other its frames and translations |
| CpuOwnership.CpuStep | proc.c:361-464 | what a step of one CPU must respect for every CPU to keep its process |
| CpuOwnership.LockStep | proc.c:361-464 | the lock passes from acquire to release through swtch without a gap or a second holder |
| ProcLife.ExitLeavesNoSleeper | proc.c:284-303 | after exit's wakeups and reparenting nobody sleeps in wait over an exited child, init included |
| ProcLife.ExitTable | proc.c:260-304 | exit keeps parents alive, forks apart and pids unique |
| ProcLife.ReapTable | proc.c:324-338 | collecting a zombie keeps them and retires its pid |
| ProcFamily.WaitSleeps | proc.c:341-350 | wait may go to sleep: it has just seen no exited child with the lock held |
| ProcSafety.StepKeeps | proc.c:70-578 | every step of every CPU keeps the invariant: scheduler, yield, sleep, wakeup, fork with its unlocked part and failures, exit, wait, kill, interrupts |
| ProcSafety.RunKeeps | proc.c:70-578 | it holds in every run |
| ProcTheorems.ExitWaitProtocol | proc.c:203-351 | in every reachable state: a sleeper in wait has no zombie child, every child's parent is alive, every zombie has a parent to collect it, no pid is collected twice |
| ProcTheorems.RunningIsOnOneCpu | proc.c:361-464 | whenever ptable.lock is free, a process is RUNNING if and only if exactly one CPU's proc points to it |
| ProcTheorems.WaitFreesOnlyTheStopped | proc.c:324-338 | the process whose stack and page directory wait frees is on no CPU |
| ProcTheorems.PickedHasStack | vm.c:157-164 | switchuvm's panics about a missing stack or directory are unreachable |
| ProcTheorems.HolderCanMove | proc.c:413-480 | whoever holds ptable.lock has a step to take |
| ProcTheorems.ExitReachesParent | proc.c:284-304 | after a child's exit the parent is not asleep in wait and its next scan finds a child |
| ProcTheorems.WaitCollects | proc.c:314-338 | a scan over an exited child returns the first one's pid, never collected before, and empties exactly that entry |
| ProcEffects.ForkReadies | proc.c:244-254 | the end of fork, in every reachable state: the child is RUNNABLE with the caller as parent, a stack, a page directory, a number no other entry has, not killed, and any idle CPU may pick it; nobody else is touched |
| ProcEffects.ForkMakesOneChild | proc.c:203-254 | a fork that finds an entry and memory makes exactly one such process in an entry nobody used |
| ProcEffects.ForkClaims | proc.c:90-101 | allocproc takes an entry nobody uses, or changes nothing |
| ProcEffects.ForkNumbers | proc.c:70-77 | allocpid's number is no entry's, used or not, and was never collected |
| ProcEffects.ForkBuilds | proc.c:103-241 | the unlocked part sets up the child, or gives the entry back with everything else as before |
| ProcEffects.ReachableNumbers | proc.c:70-77 | in every run no two entries have the same number and none has a collected one |
| ProcEffects.SleepSleeps | proc.c:489-516 | the process is asleep on its channel while the lock is still held, so no wakeup comes in between |
| ProcEffects.WakeupWakes | proc.c:541-546 | exactly the sleepers on the channel become RUNNABLE |
| ProcEffects.InterruptWakes | proc.c:541-546 | the same from an interrupt |
| ProcEffects.KillWakes | proc.c:551-578 | SIGKILL makes exactly the process with the number RUNNABLE, if it sleeps |
| ProcEffects.YieldYields | proc.c:458-464 | the process is RUNNABLE and its CPU goes back to the scheduler with the lock |
| ProcEffects.PickedRuns | proc.c:361-436 | the picked process is RUNNING on the CPU that picked it |
| ProcEffects.ResumedGoesOn | proc.c:468-527 | it goes on where it left off: in sleep, which clears the channel, in wait with the lock held, or after letting the CPU go |
| ProcEffects.ExitDoes | proc.c:284-303 | the process is a zombie, its children are init's, its parent is woken out of wait and init exactly if one of them is a zombie, and nobody else changes |
| ProcEffects.WaitFailsOrSleeps | proc.c:341-350 | without an exited child wait fails exactly without children or when killed, and else sleeps |
| ProcCode.ProcTable.Wakeup1 | proc.c:531-538 | every sleeper on the channel, and nobody else, becomes runnable |
| ProcCode.ProcTable.Exit | proc.c:284-302 | the loop over the table is the step ExitProcs of the theorems |
| ProcCode.ProcTable.PassChildren | proc.c:289-298 | children go to init, which is woken exactly if one is a zombie |
| ProcCode.ProcTable.WaitRound | proc.c:316-349 | collects the first exited child, fails exactly without children or when killed, else must sleep |
| ProcCode.ProcTable.Claim | proc.c:90-101 | the first unused entry becomes EMBRYO |
| ProcCode.ProcTable.Kill | proc.c:551-578 | a sleeper with the pid is woken by SIGKILL; found exactly if the pid is in the table |
| ProcCode.ExitLoopStep | proc.c:290-298 | one turn of exit's loop |
| PipeRing.TestsAreExact | pipe.c:85-113 | the 32-bit tests decide empty and full exactly, however often the counters wrapped |
| PipeRing.PutHolds | pipe.c:93 | a byte put in is the last one written |
| PipeRing.TakeHolds | pipe.c:116 | the byte taken is the oldest one not yet read |
| PipeSafety.StepKeepsBase | pipe.c:60-121 | every step keeps the bytes in order, both locks exclusive, and no writer stranded, killed or not |
| PipeSafety.StepKeeps | pipe.c:60-121 | and no reader stranded, unless a killed write longer than the pipe exits |
| PipeSafety.WakeupReaches | proc.c:489-546 | with ptable.lock free nobody is on the way to sleep, so wakeup reaches everyone who has let the pipe's lock go |
| PipeTheorems.Fifo | pipe.c:79-121 | in every run the bytes read are a prefix of the bytes appended, at most PIPESIZE in between, for any number of readers and writers and wrapped counters |
| PipeAccount.CallsAreServed | pipe.c:60-121 | in every run, from what happens to the ring's memory: a write has put in exactly the first i bytes of its buffer in order, all of them when it returns; a read has got consecutive bytes of the stream, as many as it wanted or all there were, none only at the end of the stream; a close has closed its end |
| PipeAccount.NoteKeeps | pipe.c:60-121 | every step keeps that account |
| PipeAccount.HowCallsEnd | pipe.c:85-112 | a call ends after its last wakeup, or with -1 exactly where the code says |
| PipeAccount.NoDeadlock | pipe.c:60-121 | as long as somebody is in a call and not asleep, somebody can go on |
| PipeTheorems.NoLostWakeups | pipe.c:60-121 | in every run in which nobody is marked killed, SIGKILL's wakeups included, with the pipe's lock free, a down reader means empty with writeopen and a down writer means full with readopen, so never both |
| PipeTheorems.NobodyStrandedHere | trap.c:39-47 | the same in every run in which a process is marked killed only outside its pipe calls and a killed one starts no read or write, for writes of any length |
| PipeTheorems.KilledExitIsHarmlessExactly | pipe.c:85-92 | with the flag set at any time the same holds in every run if and only if no write is longer than PIPESIZE |
| PipeTheorems.StrandedReader | pipe.c:86-89 | with the flag set inside a write, a run that strands a reader over a full pipe, for every larger bound |
| PipeTheorems.NobodyStrandedWithin | pipe.c:85-92 | the safe half, for every run with the flag set at any time |
| PipeCode.PipeBuffer.constructor | pipe.c:23-36 | an empty open pipe |
| PipeCode.PipeBuffer.Fill | pipe.c:84-94 | appends exactly the bytes that fit, in order |
| PipeCode.FillIsSteps | pipe.c:84-94 | it is the writer's steps in the protocol |
| PipeCode.PipeBuffer.Drain | pipe.c:113-117 | copies exactly the oldest bytes, as many as there are and are wanted |
| PipeCode.DrainIsSteps | pipe.c:113-117 | it is the reader's steps in the protocol |
| PipeCode.PipeBuffer.Close | pipe.c:60-75 | one end is closed; the page goes with the second |
| ShellSyntax.ParsePrint | sh.c:328-446 | parsing the printed tokens of any tree with fewer than MAXARGS arguments per command gives the tree, for any kind of word |
| ShellSyntax.LineBack | sh.c:345-360 | the same for a line inside parentheses |
| ShellSyntax.ExecBack | sh.c:400-446 | the same for simple commands, blocks and their redirections |
| ShellSyntax.LineWell | sh.c:416-446 | every tree the parser makes has fewer than MAXARGS arguments per command, so the printer takes it |
| ShellGrammar.ParserDecides | sh.c:345-446 | parseline takes a whole row of tokens for a tree if and only if the grammar, a relation that does not mention the parser, makes the tree of the row |
| ShellGrammar.Unambiguous | sh.c:345-446 | no row of tokens has two trees |
| ShellGrammar.LineSound | sh.c:345-360 | what parseline takes of any row is a line of the grammar, with its tree |
| ShellGrammar.LineWhole | sh.c:345-360 | a line of the grammar is taken as a whole, at the end or before a closing parenthesis |
| ShellGrammar.BackWhole | sh.c:350-353 | the same up to the trailing ampersands |
| ShellGrammar.ArgsWhole | sh.c:426-446 | the same for the words and redirections of a simple command, in any order |
| ShellLexer.LexRender | sh.c:266-308 | the tokens of a line written with a space after each are those tokens |
| ShellLexer.ToksAreWords | sh.c:295-302 | every word token is a whole word: it cannot be longer |
| ShellReading.LexerDecides | sh.c:266-308 | the lexer's tokens are the ones the line is written with, and no others: stretches in order that read as their tokens, white space between, words maximal on both sides, no > before > |
| ShellReading.OnlyOne | sh.c:266-308 | a line can be written with one row of tokens only |
| ShellReading.LexerFinds | sh.c:266-308 | and the lexer finds one |
| ShellText.LineText | sh.c:345-446 | parsing pointers and then reading the words is reading first and then parsing |
| ShellText.LineWords | sh.c:345-446 | every pointer pair a command keeps spans a whole word of the line |
| Shell.GetToken | sh.c:266-308 | the token lies after white space from q to eq and reads as what is returned, a word as long as it can be and >> before >; the cursor stops at what comes next |
| Shell.ScanToken | sh.c:277-302 | the switch of gettoken |
| Shell.Peek | sh.c:311-321 | moves over white space only and looks at the next character |
| Shell.ParseRedirs | sh.c:375-398 | the redirections up to the next token that is not one; fails exactly for a missing file |
| Shell.ParseExec | sh.c:416-446 | the tree of the token parser, failures included, and it terminates on every input |
| Shell.ParseSimple | sh.c:426-446 | parseexec's loop: words and redirections, at most MAXARGS-1 words |
| Shell.ParseBlock | sh.c:400-413 | the tree of the token parser; the closing parenthesis is required |
| Shell.ParsePipe | sh.c:362-372 | the tree of the token parser, failures included |
| Shell.ParseLine | sh.c:345-360 | the tree of the token parser, failures included |
| Shell.ParseCommand | sh.c:328-341 | succeeds exactly when the token parser takes the whole line |
| Shell.NulTerminate | sh.c:450-493 | a NUL at the end of every word of the command and no other change |
| Shell.EndIsNoWord | sh.c:450-493 | no terminator lands inside any word |
| Shell.WordReadsBack | sh.c:450-493 | after termination each pointer reads back as exactly its token |
| ShellTheorems.OneMeaning | sh.c:266-446 | a line has at most one tree: one row of tokens, one derivation |
| ShellTheorems.LineDecides | sh.c:328-446 | a line is parsed if and only if it has a tree, and to that tree |
| ShellTheorems.ParseCmd | sh.c:328-342 | taken if and only if the line is written with tokens of which the grammar makes a tree; the terminated buffer, read through the command's pointers, is then that tree |
| ShellTheorems.RoundTrip | sh.c:266-446 | parsing the printed text of any command of words returns that command |
| ShellTheorems.PrintThenParse | sh.c:266-493 | print, parse, terminate in place, read back: the same command |
| Grep.OneBegins | grep.c:93-94 | how a pattern starting with a character or dot matches |
| Grep.StarBegins | grep.c:99-106 | how a starred character matches: not at all, or once and again |
| Grep.EndBegins | grep.c:91-92 | a final $ matches the empty rest only |
| Grep.ItemsOfText | grep.c:85-96 | every pattern is the text of the items it is read as, each of which can stand where it does |
| Grep.TextOfItems | grep.c:85-96 | and no other items have that text |
| Grep.Match | grep.c:73-82 | true if and only if some position, or the first after ^, starts a text of the pattern's language |
| Grep.MatchHere | grep.c:85-96 | true if and only if the text starts with a text of the pattern's language; terminates |
| Grep.MatchStar | grep.c:99-106 | the same for c* followed by a pattern |

## Left out

- Signal delivery, freezing and sigret: a frozen process is one the scheduler does not pick.
- Spinlock internals and memory ordering: acquire and release are atomic steps; sleep-locks are exclusive ownership.
- ProcModel: fork's unlocked writes between allocpid and its last acquire are one step, and process numbers do not wrap.
- The scheduler's order: any runnable process may be picked next, so nothing is said about fairness.
- fs.c above inodes: directories, path names, ialloc and the inode cache; device inodes in readi and writei.
- FsCode.FileSystem.Iupdate: keeps disk inodes as records, because the byte layout of a dinode would only add easy members.
- FsCode.FileSystem.WriteI: says nothing of the state after the "out of blocks" panic, which does not return.
- FileWrite.Filewrite: other processes do not write the same file between two chunks.
- LogCode.Log.ReadHead: needs a block count that fits the header, which the code does not test.
- LogCode.Log.RecoverFromLog: needs a header this log can have written: a count that fits and home blocks outside the log.
- Umalloc.Allocator.Malloc: sbrk's memory lies above the program's data, and request sizes do not overflow 32 bits.
- Vm.Memory.Allocuvm: needs the pages above oldsz unmapped, since mappages panics otherwise.
- Vm.Memory.Copyuvm: needs every page below sz mapped, since copyuvm panics otherwise.
- Vm.Memory.Deallocuvm: no entry holds frame 0, which kfree refuses and kalloc therefore never returns; the code panics on one.
- ProcCode.ProcTable.Kill: models SIGKILL; any other signal only sets a pending bit, and a bad signal number is refused.
- Kalloc.Kmem.Kfree: a page already on the list is not freed again, which the code does not detect; the junk bytes are left out.
- Kalloc.GiveFrame: the same.
- Vm.Memory.Kfree: the same; every call in the model is proved to keep to it.
- Bio.Bcache.Brelse: who holds a sleep-lock is not recorded, and a modified buffer has been logged or written by then.
- Loading programs, copyout and clearpteu, which add one-line users of walkpgdir.
- growproc, and the rest of the system calls.
- Shell.ParseRedirs: collects the redirections and leaves the wrapping to its caller, where the code updates the shared exec node.
- runcmd and the shell's reading of lines; grep's buffer loop; the other user programs.
- Hardware, interrupts as such, booting, the console and the disk driver's port accesses.
