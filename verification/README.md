# xv6-64 in Dafny

A model of the stateful layers of xv6-64, a small x86-64 Unix kernel, and of three of its
user-level algorithms, with proofs. Each layer is modelled twice where the source asks for
it: as the code runs (classes, arrays, loops with their invariants) and as a transition
system over every interleaving, crash or kill, whose runs the code's steps belong to.
`dafny verify dfyconfig.toml` checks the whole project; it was written for Dafny 4.11.

**Logging** (`LogFormat`, `LogStore`, `LogProtocol`, `LogSafety`, `LogIsolation`, `LogSpace`,
`LogOverrun`, `LogCode`). log.c over the write-back cache, with any number of operations and
readers and a crash between any two block writes, recovery included. The protocol refines
atomic transactions in every layout: whatever run is stopped wherever, recovery yields exactly
what had been written at the last commit point, as long as write_log copies no list longer
than the log region has slots. While a commit runs the list is frozen, and between commits no
home block on disk changes. `end_op` never panics, and "too big a transaction" is out of reach
if and only if `log.size > LOGSIZE`.

The size of the log matters more than that panic suggests, because log_write tests the length
of the list before it takes log.lock. In a log of 2 to LOGSIZE blocks two operations can pass
the test together; the list then outgrows the log without a panic, and write_log overwrites
the home block behind it (`LogOverrun.Overruns`). So, on a disk with LOGSIZE blocks outside the
log and one behind it, refinement holds for all runs if and only if `log.size > LOGSIZE` or
the log has no slots at all. The file system mkfs.c builds has `nlog = LOGSIZE`. It is safe only because param.h gives the cache no more than that many
buffers: when the list has outgrown the log they are all pinned, and write_log stops in
bget's panic before it has copied anything. One more buffer, and it is not safe
(`LogOverrun.ShippedImage`); it can panic in any case (`LogSpace.ShippedImagePanics`).

`LogCode.Log` runs the loops of log.c and shows each disk write to be one protocol step.
Hypotheses: a one-block write is atomic, the header fits in a block (it does: 124 of 512
bytes), home blocks lie outside the log, an operation modifies a buffer only while it holds
its lock, calls `log_write` before `brelse`, and makes at most MAXOPBLOCKS such calls.

**Buffer cache and disk** (`BioRing`, `BioCache`, `Ide`). The prev/next ring with its two
scans, ordered by last release; the cache under any number of processes, in which every
reader sees the last store to its block; the linked IDE queue with its interrupt handler,
which refines the one-step disk of memide.c. Disk errors do not occur and an interrupt comes
only for the active request.

**Files** (`FsBlocks`, `FsFiles`, `FsContent`, `FsTrunc`, `FsDir`, `FsCode`). Free map, block
maps with direct and indirect blocks, `readi`, `writei`, `itrunc`, `iupdate` and directories,
one call at a time. The invariant carries the exact inverse of the block maps of all inodes,
so a block is reached from one place only, and the free map minus the reached blocks never
changes: nothing leaks. A file is a byte sequence that `writei` splices and `readi` slices; a
directory is a finite map. A panic is a result of its own (`None`, `Panic`), and each
contract says when it can occur.

**Memory** (`PageTree`, `Vm`, `FreeList`, `Umalloc`). Four-level page tables (section 4.5 of
the Intel SDM, Volume 3A) built from a free list linked through the free pages, for addresses
below 2^47: `mappages`, `allocuvm` with failure at any `kalloc`, `deallocuvm` and `freevm`,
which returns exactly the pages taken, after any sequence of `growproc` calls. In proc.c
shrinking a process to size 0 frees all its pages and still returns -1 with the old size
(`Vm.AddressSpace.Growproc`). The index macros ignore the sign-extension bits, so
slots collide exactly for pages equal modulo 2^36. The allocator of section 8.7 of The C
Programming Language as linked headers and as a sorted, coalesced list of blocks.

**Processes** (`ProcTable`, `ExitWait`, `ProcCode`, `SleepLock`, `Pipe`). `exit`, `wait`,
`fork`, `kill`, `sleep`, `wakeup` and the scheduler as steps of any number of processes on
any number of CPUs; sleep locks step by step through `sleep`'s two spinlocks; pipes with
32-bit counters. In pipe.c a killed writer that still has more than PIPESIZE bytes to write
fills an empty pipe and returns -1 without waking the readers: `Pipe.KilledWriterLosesWakeup`
is such a run, and `Pipe.SleepersHaveReason` shows it is the only way a wakeup is lost.

**Shell and grep** (`ShellGrammar`, `ShellLexer`, `ShellParser`, `ShellCommand`, `Regex`).
The recursive-descent parser over the characters of the line against a grammar over tokens,
its round trip with a canonical printer, and `nulterminate` on the line buffer; the
backtracking matcher of chapter 9 of The Practice of Programming against a declarative
meaning of its patterns. In sh.c `>` and `>>` build the same node, so both print as `>`.

## Model

| member | source | states |
|---|---|---|
| `LogFormat.HeadRoundTrip` | log.c:84-113 | What write_head stores in a header block, read_head reads back, whatever the block held before. |
| `LogFormat.InstalledAt` | log.c:68-82 | After k copies install_trans has given exactly the first k listed home blocks their logged copies and touched nothing else. |
| `LogFormat.RecoveredHome` | log.c:115-122 | Recovery gives every listed home block its logged copy and leaves every other home block alone. |
| `LogFormat.RecoveredIs` | log.c:115-122 | That description determines the recovered home blocks: no other view satisfies it. |
| `LogFormat.RecoveryIgnoresListed` | log.c:68-82 | Recovery does not depend on what a crash left in the listed home blocks, so installing may be interrupted anywhere and repeated. |
| `LogFormat.AllInPlace` | log.c:190-200 | Once all listed blocks are installed, recovering changes no home block, so the header may be cleared. |
| `LogStore.DroppedOk` | bio.c:78-91 | Recycling a clean buffer keeps the cache consistent with the disk and changes no visible block. |
| `LogStore.WrittenOk` | bio.c:108-116 | Writing a log block, or a home block as its buffer holds it, keeps the cache consistent with the disk and changes nothing the file system sees. |
| `LogSafety.BeginSpace` | log.c:125-141 | begin_op keeps the listed blocks plus all unspent log_write calls within LOGSIZE. |
| `LogSafety.CheckPasses` | log.c:211-219 | Of log_write's panic tests the reservation leaves one that can fire, n >= log.size - 1, and that one only if log.size <= LOGSIZE. |
| `LogSafety.AppendFits` | log.c:221-231 | The store under log.lock finds room in the list although the test was made before the lock was taken; that the log has a slot for it is not promised. |
| `LogSafety.AppendOk` | log.c:211-231 | In every layout log_write keeps the list duplicate-free and equal to the set of pinned blocks, and is invisible to the specification. |
| `LogSafety.EvictOk` | bio.c:78-91 | No-steal: recycling any clean, unreferenced buffer changes neither the durable nor the current view. |
| `LogSafety.EndOk` | log.c:143-162 | end_op never meets its panic, and closes exactly one operation of the specification. |
| `LogSafety.CopyToLogOk` | log.c:174-188 | Copying a block of a list that fits the log changes neither what is durable nor what is visible. |
| `LogSafety.CommitPoint` | log.c:98-113 | Right after the header write, recovery would produce the current view of all operations. |
| `LogSafety.CommitHeadOk` | log.c:190-195 | The first write_head of commit makes everything written so far durable, at once, with no operation in progress. |
| `LogSafety.InstallOk` | log.c:68-82 | Installing one block after the commit point changes neither the durable nor the current view. |
| `LogSafety.ClearHeadOk` | log.c:196-198 | Erasing the header after installation changes neither view. |
| `LogSafety.CrashOk` | log.c:98-122 | A crash in any consistent state, a panicked one included, leaves exactly the durable view and a consistent machine. |
| `LogSafety.ReplayOk` | log.c:115-122 | One block of recovery changes nothing durable, so recovery may crash and start again. |
| `LogSafety.ScrubOk` | log.c:115-122 | When recovery completes the home blocks on disk are the durable view. |
| `LogSafety.FinishOk` | log.c:163-171 | When end_op clears the commit flag, nothing that was written is still volatile. |
| `LogSafety.StepOk` | log.c:69-231 | In every layout, every step but the copy of a list longer than the log has slots keeps the invariant and is the matching step of atomic transactions, or none. |
| `LogSafety.RunOk` | log.c:69-231 | Over every run, crashes anywhere included, the machine does what the specification does on the same events, as long as write_log copies lists that fit the log. |
| `LogSafety.AmpleIsRoomy` | log.c:125-141 | If log.size > LOGSIZE, or the log has no slots at all, write_log never meets a list that does not fit, in any run. |
| `LogSafety.DurableIsAPrefix` | log.c:98-101 | The durable view is the current view at the last commit point: all of what was written before it and nothing after it. |
| `LogSafety.CrashRefinement` | log.c:69-231 | In every layout, stop any run anywhere before write_log copies a list longer than the log has slots: recovery turns the disk into exactly what the operations had written at the last commit point. |
| `LogSafety.ReturnedIsDurable` | log.c:163-171 | In such runs, when a commit has returned nothing is volatile, and when recover_from_log has returned the disk itself holds the durable view. |
| `LogIsolation.ListFrozen` | log.c:143-200 | From the end_op that starts a commit until the header is emptied or the machine crashes, the list stays as it was and no operation begins, in every interleaving. |
| `LogIsolation.StepStill` | log.c:68-200 | No step but an installing one changes a home block on disk. |
| `LogIsolation.InstallNeedsCommit` | log.c:68-122 | Installing starts only at a commit point or after a reboot. |
| `LogIsolation.NoSteal` | log.c:68-200 | Between the end of one installation and the next commit point, short of a crash, no home block on disk changes. |
| `LogSpace.PanicFreeIff` | log.c:211-219 | On every disk with LOGSIZE blocks or more outside the log, "too big a transaction" is out of reach in all runs of operations with at most MAXOPBLOCKS calls if and only if log.size > LOGSIZE. |
| `LogSpace.ShippedImagePanics` | mkfs.c:25 | Every image with mkfs's layout, nlog = LOGSIZE, has a run of within-bound operations that panics and needs no more than NBUF buffers. |
| `LogOverrun.Overruns` | log.c:211-231 | In a log of 2 to LOGSIZE blocks with a home block behind it, every image has a run without panic and without a commit point that overwrites that home block: two operations pass the unlocked test together. |
| `LogOverrun.CopyNeedsBuffer` | bio.c:78-94 | With no more buffers than log blocks, a list that has outgrown the log pins them all, and write_log has no buffer for its first copy. |
| `LogOverrun.RefinesIff` | log.c:69-231 | On every disk with LOGSIZE blocks outside the log and one behind it, recovery yields the last commit point after every run if and only if log.size > LOGSIZE or log.size = 1. |
| `LogOverrun.RefinesWithinIff` | log.c:69-231 | The same for the runs that nbuf buffers suffice for: if and only if log.size > LOGSIZE, log.size = 1, or nbuf <= log.size. |
| `LogOverrun.ShippedImage` | param.h:11-13 | mkfs's layout meets crash refinement with the NBUF buffers of param.h, not with one buffer more, and not with an unlimited cache. |
| `LogCode.EventsDecide` | log.c:69-231 | The specification state the code is in depends only on the events of the steps it took. |
| `LogCode.Log.Bread` | bio.c:95-106 | Reading a block nobody has locked gives its cached or its disk contents and is two steps of the protocol. |
| `LogCode.Log.CopyBlock` | log.c:180-187 | One iteration of write_log is one protocol step. |
| `LogCode.Log.WriteLog` | log.c:174-188 | The loop copies every listed block and leaves the machine ready to write the header, with nothing committed. |
| `LogCode.Log.FillHead` | log.c:104-110 | The loop lays the count and the list over the header block and keeps the words after them. |
| `LogCode.Log.WriteHead` | log.c:98-113 | write_head, from each of its three call sites, is one protocol step; only the first is a commit. |
| `LogCode.Log.InstallBlock` | log.c:74-81 | One iteration of install_trans is one protocol step, in commit and in recovery. |
| `LogCode.Log.InstallTrans` | log.c:68-82 | The loop installs every listed block and has no event: what is durable stays what it is. |
| `LogCode.Log.Commit` | log.c:190-200 | commit is one commit event if the list is not empty, none otherwise, and leaves the list empty. |
| `LogCode.Log.ReadHead` | log.c:84-96 | The header's list becomes the in-memory list. |
| `LogCode.Log.RecoverFromLog` | log.c:115-122 | Recovery has no event; afterwards the header is empty and the home blocks on disk are what recovery makes of the old disk. |
| `LogCode.Log.BeginOp` | log.c:125-141 | One turn of begin_op's loop: it starts the operation exactly when no commit is under way and the reservation fits. |
| `LogCode.Log.LeaveOp` | log.c:148-161 | The first half of end_op does not panic and asks for a commit exactly when it was the last operation. |
| `LogCode.Log.EndOp` | log.c:143-172 | end_op closes the operation and, if it was the last and something was logged, commits once; other processes may hold any block the commit does not copy. |
| `LogCode.Log.Record` | log.c:222-228 | The search and store of log_write: the list gains the block unless it is there already. |
| `LogCode.Log.CheckRoom` | log.c:216-219 | For an operation with calls left log_write's tests panic exactly when n >= log.size - 1, and never if log.size > LOGSIZE. |
| `LogCode.Log.LogWrite` | log.c:202-231 | log_write panics exactly when the list fills the log and never if log.size > LOGSIZE; otherwise it absorbs repeated blocks and pins the buffer. |
| `LogCode.Log.constructor` | log.c:53-66 | initlog's state over a well-formed image, in every layout, ready for recover_from_log. |
| `LogCode.Log.Update` | log.c:202-210 | bread, a store, log_write and brelse are one write of the specification. |
| `LogCode.Log.Transact` | log.c:125-172 | A whole operation on its own, begin_op to end_op: unless it has to wait or log_write panics, after a crash its store is there, and so is everything that was visible before it. |
| `BioRing.UnlinkOk` | bio.c:132-133 | The two stores that unlink a buffer leave a ring of all the others, in order. |
| `BioRing.PushOk` | bio.c:134-137 | The four stores that link a buffer in at the head leave a ring with it first. |
| `BioRing.VictimIsOldest` | bio.c:78-91 | The buffer bget recycles is the least recently released of the clean, unreferenced ones. |
| `BioRing.FrontedOk` | bio.c:128-138 | Moving a released buffer to the front keeps the ring ordered by last release. |
| `BioRing.Cache.constructor` | bio.c:38-56 | binit builds a ring of all NBUF buffers. |
| `BioRing.Cache.Find` | bio.c:68-76 | The forward scan finds the first buffer for the block, or none. |
| `BioRing.Cache.FindIdle` | bio.c:78-91 | The backward scan finds the last clean, unreferenced buffer, or none. |
| `BioRing.Cache.Bget` | bio.c:58-93 | One more reference to the cached buffer, or the victim renamed; at most one buffer per block of a real device; panics only with no victim. |
| `BioRing.Cache.Brelse` | bio.c:118-141 | The last release moves the buffer to the front and stamps it; any other only lowers refcnt. |
| `BioCache.VictimOk` | bio.c:78-91 | A recycled buffer has no user, and what it held is on disk. |
| `BioCache.FillReads` | bio.c:95-106 | bread's iderw always reads: the disk does not change. |
| `BioCache.StepOk` | bio.c:58-141 | Every step of any number of processes keeps the cache invariant. |
| `BioCache.ReadersSeeLastWrite` | bio.c:58-141 | In every run, whoever holds a block sees the last thing any process stored in it, through any recycling and write-back. |
| `BioCache.CacheCoherent` | bio.c:58-141 | In every run there is one buffer per block, and a valid, clean buffer nobody holds equals its disk block. |
| `BioCache.DirtyIsPinned` | bio.c:61-93 | In every run refcnt counts the processes between bget and brelse, and a dirty buffer keeps the last store to its block. |
| `Ide.FinishOk` | memide.c:38-60 | A request takes effect as one iderw of the in-memory disk, on the head of the queue. |
| `Ide.InterruptOk` | ide.c:100-129 | The interrupt shows the effect to the buffer and starts the next request; the specification does not move. |
| `Ide.StepOk` | ide.c:71-165 | Every step keeps the invariant and is a step of the one-step disk, or none. |
| `Ide.RefinesMemide` | ide.c:71-165 | Over every run, buffers and disk are those of the one-step disk on the run's effects. |
| `Ide.EffectsInOrder` | ide.c:149-157 | Requests take effect in the order of the calls, and no buffer is queued twice. |
| `Ide.IderwReturns` | ide.c:159-164 | iderw returns only with its buffer valid, clean and equal to its disk block; while it sleeps its request is still queued. |
| `Ide.Queue.Last` | ide.c:149-153 | The walk along qnext ends at the last queued buffer. |
| `Ide.Queue.Append` | ide.c:149-157 | The buffer goes to the end of the linked queue; the disk is started exactly when the queue was empty. |
| `Ide.Queue.Pop` | ide.c:106-113 | The interrupt takes the oldest request off the linked queue, or finds it empty. |
| `FsBlocks.WordRoundTrip` | fs.c:363-372 | Storing a block number in a block and loading it back; the other words stay. |
| `FsBlocks.SetBitAt` | fs.c:60-62 | Setting or clearing a bit of the free map changes that bit only. |
| `FsFiles.ReachedOnce` | fs.c:341-344 | No block is reached from two places, over all inodes and all direct, indirect and indexed positions. |
| `FsFiles.AttachDirect` | fs.c:354-358 | A fresh block in an empty address slot keeps every block reached from one place only. |
| `FsFiles.AttachIndirect` | fs.c:367-370 | The same for an empty word of the indirect block. |
| `FsFiles.StoreElsewhere` | fs.c:471-477 | A store to a data block changes the bytes of no file but the one that owns it. |
| `FsContent.ChunkOk` | fs.c:471-477 | One round of writei overwrites exactly its range of bytes. |
| `FsContent.ChunkRead` | fs.c:443-448 | One round of readi yields exactly its range of bytes. |
| `FsContent.ReadBack` | fs.c:426-484 | Where one has written, the spliced file holds what was written, and the bytes around it are unchanged. |
| `FsContent.OverwriteContent` | fs.c:454-484 | Overwriting a range and extending the size is a splice of the byte sequence. |
| `FsContent.FlushedDecides` | fs.c:280-288 | What iupdate stored determines the inode that ilock reads back. |
| `FsTrunc.GoneAll` | fs.c:383-411 | Direct blocks, indexed blocks and the indirect block are all an inode owns. |
| `FsTrunc.TruncOk` | fs.c:383-411 | Without the truncated inode's blocks every other block is still reached from one place only. |
| `FsCode.FileSystem.FreeBit` | fs.c:59-68 | The inner scan stops at the first clear bit of its map block. |
| `FsCode.FileSystem.Balloc` | fs.c:51-72 | The lowest free block, marked and zeroed; panics exactly when every bit is set; no other data block changes. |
| `FsCode.FileSystem.Bfree` | fs.c:74-89 | Clears that bit only; panics exactly when the block was free. |
| `FsCode.FileSystem.Bmap` | fs.c:346-376 | The block behind a file block, allocated when missing: no byte of any file changes, ownership and free map agree, a mapped block costs nothing. |
| `FsCode.FileSystem.ReadBytes` | fs.c:443-448 | The loop collects the requested slice across block and indirect boundaries. |
| `FsCode.FileSystem.Readi` | fs.c:425-450 | The slice of the file that the range meets; -1 exactly past the end or on 32-bit overflow; without holes nothing is allocated or changed. |
| `FsCode.FileSystem.WriteBytes` | fs.c:471-477 | The loop overwrites the whole range and maps every block that starts in it. |
| `FsCode.FileSystem.Writei` | fs.c:453-484 | Splices the bytes in and extends the size; every other file keeps its bytes and its inode; no block leaks; a file without holes gets none, and if its inode on disk was current it stays so. |
| `FsCode.FileSystem.WriteThenRead` | fs.c:425-484 | readi of the range writei has just stored to gives back the bytes written; without holes it cannot fail. |
| `FsCode.PackInode` | fs.c:208-216 | The sixteen words of one inode slot become the inode; the other slots stay. |
| `FsCode.FileSystem.Iupdate` | fs.c:201-218 | The inode on disk equals the one in memory afterwards, and no file and no other inode changes. |
| `FsCode.FileSystem.FreeDirect` | fs.c:390-395 | The first loop of itrunc frees exactly the direct blocks, and never a free one. |
| `FsCode.FileSystem.FreeIndirect` | fs.c:397-407 | The second loop frees exactly the indexed blocks and the indirect block. |
| `FsCode.FileSystem.Itrunc` | fs.c:378-411 | Clears the bits of exactly the blocks the inode owned and empties it; every other file keeps its bytes. |
| `FsDir.SameName` | fs.c:489-493 | namecmp is equality of the names cut at a NUL or at DIRSIZ bytes. |
| `FsDir.LinkedAdds` | fs.c:537-548 | An entry written into the first unused place adds exactly that name to the directory's map. |
| `FsCode.FileSystem.Dirlookup` | fs.c:495-521 | The first entry in use that carries the name, or none; panics only on a non-directory, a torn last entry or a full disk. |
| `FsCode.FileSystem.Dirlink` | fs.c:523-551 | -1 only when the name is there already; otherwise the map gains the name and every other name keeps its inode. |
| `PageTree.SlotsCollideIff` | mmu.h:135-142 | Two pages use the same page-table slots if and only if their numbers agree modulo 2^36; below 2^48 no two pages collide. |
| `PageTree.WalkIsFlat` | vm.c:160-201 | The four-level walk computes the flat map. |
| `PageTree.AddPage` | vm.c:166-197 | Hanging a zeroed table or a mapped page into an absent entry keeps the tree. |
| `PageTree.AddFlat` | vm.c:166-231 | A new table changes no translation; a mapped page changes only its own. |
| `PageTree.DropFlat` | vm.c:322-331 | Clearing a leaf entry unmaps its page and no other. |
| `Vm.FlatIsWalk` | vm.c:160-201 | For every page below 2^47 the hardware's translation is what the flat map says. |
| `Vm.FreeRange` | kalloc.c:45-52 | Every whole page in the range joins the free list, once. |
| `Vm.AddressSpace.constructor` | vm.c:102-109 | setupkvm on a non-empty free list: an address space with nothing mapped below 2^47. |
| `Vm.AddressSpace.Kalloc` | kalloc.c:81-94 | The first free page, or null exactly when there is none. |
| `Vm.AddressSpace.Kfree` | kalloc.c:58-76 | A page taken with kalloc goes back to the front of the list, past the range test. |
| `Vm.AddressSpace.Walkpgdir` | vm.c:160-201 | The table with the page's entry; fails only when memory runs out; no translation changes. |
| `Vm.AddressSpace.MapRun` | vm.c:219-230 | The loop maps consecutive frames on consecutive pages, stops at a mapped page or when memory runs out, and changes no other page. |
| `Vm.AddressSpace.MapPages` | vm.c:212-232 | A successful mappages changes the flat map on exactly the requested pages; fails only with fewer than three free pages per page. |
| `Vm.AddressSpace.DeallocUvm` | vm.c:312-334 | Exactly the pages between the sizes are unmapped, and exactly the frames behind them join the free list. |
| `Vm.AddressSpace.GiveUp` | vm.c:291-303 | The failure path undoes the pages mapped so far and gives back the one in hand. |
| `Vm.AddressSpace.AllocUvm` | vm.c:278-306 | Success maps every new page to a frame of its own; failure, at any kalloc, leaves the flat map as it was and needs fewer than four free pages per page. |
| `Vm.AddressSpace.FreeEntries` | vm.c:345-378 | The loop over a table's entries frees exactly the subtrees below them. |
| `Vm.AddressSpace.FreeTable` | vm.c:338-384 | A table and all below it go to the free list, each page once. |
| `Vm.AddressSpace.FreeVm` | vm.c:338-384 | Afterwards the free list holds what it held and every page of the address space, each once: exactly the pages ever taken. |
| `Vm.AddressSpace.Growproc` | proc.c:110-126 | Growing maps the new pages or changes nothing; shrinking unmaps the pages given up; shrinking to size 0 frees every page, fails, and keeps the old size. |
| `Vm.AddressSpace.Lifetime` | proc.c:110-126 | Any sequence of sizes, with any of the calls failing, and then freevm: every page the address space ever had is on the free list, once. |
| `FreeList.InsertOk` | umalloc.c:30-42 | Freeing keeps the list sorted and maximally coalesced and adds exactly the block's units. |
| `FreeList.RemoveOk` | umalloc.c:75-77 | Taking a whole block off keeps the list and removes exactly its units. |
| `FreeList.ShrinkOk` | umalloc.c:78-82 | Handing out the tail of a block keeps the list and removes exactly those units. |
| `Umalloc.FreePartition` | umalloc.c:24-44 | free moves the units of the live block to the free list; every unit still has exactly one owner. |
| `Umalloc.MallocPartition` | umalloc.c:63-90 | malloc moves units of a free block to a live one; every unit still has exactly one owner. |
| `Umalloc.GrowPartition` | umalloc.c:46-61 | Units from sbrk are added once. |
| `Umalloc.Heap.constructor` | umalloc.c:21-22 | The heap before the first call. |
| `Umalloc.Heap.FindBefore` | umalloc.c:30-32 | free's walk terminates at the one free block before the freed one in address order. |
| `Umalloc.Heap.MergeUp` | umalloc.c:33-37 | The block takes over the block after it exactly when they touch. |
| `Umalloc.Heap.MergeDown` | umalloc.c:38-42 | The block before takes it over exactly when they touch. |
| `Umalloc.Heap.Free` | umalloc.c:24-44 | A block malloc returned goes back on a circular, sorted, coalesced list; live blocks are otherwise unchanged. |
| `Umalloc.Heap.Morecore` | umalloc.c:46-61 | At least 4096 units from sbrk join the free list as a block that fits, or null when sbrk refuses. |
| `Umalloc.Heap.Malloc` | umalloc.c:63-90 | A block of the rounded size disjoint from every other, null only when sbrk refuses; both searches terminate, the restart after morecore included; no growth when a block fits. |
| `ProcCode.Wakeup1` | proc.c:408-416 | The loop makes runnable exactly the processes asleep on the channel. |
| `ProcCode.PassChildren` | proc.c:202-209 | The loop passes every child to init and wakes init for zombies. |
| `ProcCode.PassedOk` | proc.c:202-209 | After the loop nobody has the exiting parent, only parents and wakeups have changed, and init is awake if a zombie was passed. |
| `ProcCode.ScanChildren` | proc.c:228-254 | One pass of wait: the first zombie child is reaped, or there is none. |
| `ExitWait.WokenOk` | proc.c:408-425 | A wakeup keeps the invariant. |
| `ExitWait.ExitChildOk` | proc.c:202-209 | Passing a child to init, waking init for a zombie, loses no wakeup. |
| `ExitWait.DieOk` | proc.c:211-213 | Becoming a zombie loses no wakeup: the parent was woken under the same lock. |
| `ExitWait.ReapIsSafe` | proc.c:234-246 | What wait frees is there to be freed, and no CPU is on the stack or has the page table loaded. |
| `ExitWait.WaitEndOk` | proc.c:250-257 | Going to sleep in wait loses no wakeup: the scan under the lock saw no zombie child. |
| `ExitWait.SwtchOk` | proc.c:316-334 | The lock is handed to the scheduler across swtch. |
| `ExitWait.DispatchOk` | proc.c:270-307 | The scheduler hands the lock and the CPU to a runnable process. |
| `ExitWait.StepOk` | proc.c:132-448 | Every step of any number of processes and CPUs keeps the invariant, with preemption anywhere no lock is held, inside fork too. |
| `ExitWait.WaiterHasNoZombie` | proc.c:176-259 | In no reachable state is a process asleep in wait while it has a zombie child, reparenting to init included. |
| `ExitWait.FreedOnceAndUnused` | proc.c:234-246 | A zombie's stack and page table are freed at most once and never while a CPU is on them. |
| `ExitWait.ZombieNeverRuns` | proc.c:211-214 | The panic at the end of exit is not reached: a zombie never runs again. |
| `SleepLock.StepOk` | sleeplock.c:22-41 | Every interleaved step, kills included, keeps the lock's invariant. |
| `SleepLock.MutualExclusion` | sleeplock.c:22-41 | In every run at most one process has the sleep lock, and locked is 1 while one does. |
| `SleepLock.SleeperMeansLocked` | proc.c:370-403 | Whenever both spinlocks are free, a process asleep on the lock sleeps because it is taken. |
| `Pipe.Tests` | pipe.c:85-106 | The full and empty tests are right although the counters wrap modulo 2^32. |
| `Pipe.FilledOk` | pipe.c:83-94 | pipewrite's copy appends exactly the bytes it took to what the ring carries. |
| `Pipe.DrainedOk` | pipe.c:113-117 | piperead's copy returns the oldest bytes in order. |
| `Pipe.Buffer.Fill` | pipe.c:83-94 | pipewrite's loop up to the end of the buffer or a full ring. |
| `Pipe.Buffer.Drain` | pipe.c:113-117 | piperead's loop. |
| `Pipe.PipeIsFifo` | pipe.c:59-121 | In every run the bytes read are a prefix of the bytes written, and the backlog is the bytes between the counters modulo 2^32, never over PIPESIZE. |
| `Pipe.WriteReturns` | pipe.c:83-97 | pipewrite returns n only when all its bytes are in, in order; it gives up only on a full pipe nobody will read or when killed. |
| `Pipe.ReadReturns` | pipe.c:105-120 | piperead returns as many of the oldest bytes as there are up to n, and none only at the end of the data or when killed. |
| `Pipe.SleepStep` | pipe.c:83-121 | A step leaves a process asleep for no reason if and only if it is a killed writer giving up on more than PIPESIZE bytes beside a sleeping reader. |
| `Pipe.SleepersHaveReason` | pipe.c:83-121 | Over every run: a sleeping reader always means empty with the write end open and a sleeping writer full with the read end open, if and only if that step never happens. |
| `Pipe.NoKillNoLoss` | pipe.c:83-121 | Runs without kills never take that step. |
| `Pipe.KilledWriterLosesWakeup` | pipe.c:86-89 | A run with one reader and one killed writer in which the wakeup is lost. |
| `ShellGrammar.LineBack` | sh.c:344-446 | Parsing the printed tokens of a tree, followed by anything that ends a line, gives the tree and leaves the rest. |
| `ShellLexer.LexRender` | sh.c:265-308 | Tokens written with spaces between them are read back. |
| `ShellLexer.RoundTrip` | sh.c:327-446 | For every tree with at most nine words per command and words free of white space, symbols and NUL, parsing its printed form gives it back. |
| `ShellLexer.ParsedIsTree` | sh.c:327-446 | Every accepted line stands for such a tree, and its canonical form for the same one. |
| `ShellParser.Parser.GetToken` | sh.c:265-308 | gettoken returns the next token, its exact extent, and moves past it. |
| `ShellParser.Parser.Peek` | sh.c:310-320 | peek answers for the next token and consumes none. |
| `ShellParser.Parser.ParseRedirs` | sh.c:374-397 | All redirections at this point, in order; a panic exactly when a file name is missing. |
| `ShellParser.Parser.ParseWords` | sh.c:429-445 | The word loop of parseexec follows the grammar, its limit of nine words included. |
| `ShellParser.Parser.ParseExec` | sh.c:415-446 | parseexec follows the grammar on every input. |
| `ShellParser.Parser.ParseBlock` | sh.c:399-413 | parseblock follows the grammar on every input. |
| `ShellParser.Parser.ParsePipe` | sh.c:361-372 | parsepipe follows the grammar on every input. |
| `ShellParser.Parser.ParseLine` | sh.c:344-359 | parseline follows the grammar on every input, and terminates. |
| `ShellCommand.Nulterminate` | sh.c:448-493 | NULs go to the ends of the tree's tokens and nowhere else. |
| `ShellCommand.SeenIsText` | sh.c:448-493 | After nulterminate every argv and file pointer denotes exactly its token. |
| `ShellCommand.Parsecmd` | sh.c:327-342 | On every line parsecmd ends, panics exactly when the grammar rejects the line, and otherwise leaves the line's tree to be read out of the buffer. |
| `Regex.MatchHere` | grep.c:84-96 | 1 exactly when the pattern from here divides some stretch of the text from here into its items' pieces. |
| `Regex.MatchStar` | grep.c:98-106 | 1 exactly when a starred atom followed by the rest of the pattern matches from here; the mutual recursion terminates. |
| `Regex.Match` | grep.c:72-82 | 1 exactly when the pattern matches a stretch of the text, at the start if it begins with '^'. |

## Left out

- LogProtocol's cache is unlimited; the number of buffers enters through the runs RefinesWithinIff speaks of. BioCache enables bget only when a buffer can be had; its panic ends the run.
- LogOverrun.RefinesIff: disks with fewer than LOGSIZE blocks outside the log, or none behind it, where an overrun leaves the disk, are not decided.
- LogSpace.PanicFreeIff: disks with fewer than LOGSIZE blocks outside the log are not decided.
- LogCode.Log.LogWrite: the class runs one process at a time, so that the test and the store are not separated; their interleavings are those of LogProtocol.
- LogCode.Log.EndOp: waiting for a reader that holds a block the commit needs is left out, as is any wait for a buffer lock.
- bwrite outside log.c, and log_write on a buffer that is released without it: excluded by the hypotheses on clients.
- The claim that a filewrite chunk fits in MAXOPBLOCKS: the per-operation bound is a hypothesis (file.c computes the chunk from LOGSIZE).
- FsCode.FileSystem.Readi: device inodes (T_DEV) go to devsw and are excluded.
- FsCode.FileSystem.Writei: device inodes (T_DEV) go to devsw and are excluded; after an out-of-blocks panic only validity and the other files are described.
- FsCode.FileSystem.Dirlink: inode numbers 0 and above 65535, which ialloc does not return and the 16-bit field cannot hold, are excluded.
- FsCode.FileSystem.Bfree: is stated for data blocks, the only ones its callers pass; bfree's re-read of the superblock is taken to give the same values.
- ialloc, iget, iput and the inode cache, path names (skipelem, namex), stat and file descriptors: easy members over the layers modelled; concurrent iput is not claimed safe.
- Interleaved use of one inode: the file layer is sequential, under the inode's lock.
- Vm.AddressSpace.AllocUvm: the zeroing of new pages is not stated; sizes between 2^47 and KERNBASE are excluded: there the failure path makes deallocuvm walk the kernel half of the top table, which the model does not hold, and from 2^48 on the index macros lead it back to page 0 (SlotsCollideIff); allocuvm of a range that is already mapped is excluded by its callers.
- Vm.AddressSpace.Walkpgdir: only addresses below 2^47, the user half.
- Vm.AddressSpace.MapRun: maps frames taken with kalloc, below 2^47, as MapPages does.
- Vm.AddressSpace.Kfree: only pages taken with kalloc; the panic for an address outside the range is excluded by the callers.
- Vm.AddressSpace.MapPages: maps frames its caller took with kalloc, as allocuvm does, and only below 2^47; device memory is not mapped.
- Umalloc.Heap.Free: only blocks malloc returned and nobody freed since, which is all the source allows.
- Vm.AddressSpace.constructor: setupkvm without a free page, which the source does not check, is excluded.
- inituvm, loaduvm, copyuvm (whose failure path does not free its page), copyout, clearpteu, seginit, switchuvm: left out; locks around kalloc are left out.
- Umalloc.Heap.Malloc: sbrk's answer is a parameter, taken once per call, always above what the heap has; requests are not bounded to 32 bits.
- File closing, the current directory and names in exit and fork, and process ids: not part of the process table's protocol.
- ExitWait.StepOk: fork's copies of files and names are left out; page tables and stacks are present or freed, not contents; a zombie's page table field, which wait frees but does not clear, counts as gone.
- spinlock.c: acquire and release are atomic steps; memory ordering is not modelled.
- Pipe.SleepStep: each stretch of pipewrite, piperead and pipeclose between two sleeps is one step under p->lock, sleep included; pipealloc's failures and the freeing of the pipe are left out.
- Ide.StepOk: port I/O, idewait and the second disk are left out; two processes are never in iderw for the same block, as the cache guarantees; iderw's panics are excluded by its callers.
- ShellParser.Parser.ParseRedirs: collects the redirections, and its callers wrap the command in them; the source wraps as it goes.
- runcmd, getcmd and main of sh.c, and the line buffering of grep, whose output depends on how reads are cut: left out.
- coroutine.c and the programs that use it, exec, system calls, traps, console, boot and device code: left out.
