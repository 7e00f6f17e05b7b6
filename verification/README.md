# xv6 with co_yield: verification model

A Dafny model of the parts of this RISC-V xv6 kernel whose correctness spans many steps, and of three user-level
algorithms, with proofs about every input, every run or every reachable state. `dafny verify dfyconfig.toml` checks all of
it. Nothing here was executed against the kernel.

- **Write-ahead log and buffer cache** (`LogLayout`, `LogMachine`, `LogProofs`, `LogTheorems`, `LogCapacity`, `Log`,
  `BufferCache`). `LogMachine` is a step machine with one disk write a step, buffers with reference counts and locks, and a
  crash possible between any two steps; a `log_write` that panics is no step of it, and `LogCapacity` says exactly when that
  happens. `Log` is the code of `kernel/log.c`, tied to the machine, with the list of disk images it goes through;
  `BufferCache` is the linked list of `kernel/bio.c`. Premises: a block write is atomic; logged blocks lie outside the log
  area; one device; a buffer changed under its lock is logged before it is released.
- **Scheduler, locks, co_yield** (`SchedMachine`, `SchedProofs`, `CoYield`, `CoYieldRun`, `Proc`) on one CPU, as `co_yield`
  needs it (`Makefile:158-160`), and **sleep and wakeup** (`WakeupMachine`, `Wakeup`) on any number of CPUs, without
  `co_yield`.
- **Files** (`FsLayout`, `FsOwner`, `FileSystem`, `FileContents`, `FsRuns`, `FsTight`): bitmap, direct and indirect blocks,
  `readi`, `writei`, `itrunc` and the chunks of `filewrite`, over the logical disk that the log presents. Copies from and to
  user memory succeed.
- **Page tables and physical pages** (`PageTable`, `Vm`, `ProcMemory`): Sv39 trees in memory, section 4.4 of the RISC-V
  Privileged Architecture specification, version 20211203; all out-of-memory paths.
- **User programs and the disk driver**: `Malloc` (`user/umalloc.c`), `VirtioQueue` and `Virtio` (`kernel/virtio_disk.c`,
  sections 2.6 and 5.2 of Virtio 1.1), `ShellGrammar`, `ShellParser`, `ShellForms` and `Shell` (`user/sh.c`), `Grep`
  (`user/grep.c`).

Kernel panics are outcomes with their exact condition, are proved not to happen, or are preconditions that every caller in
the model is proved to meet. Integers are unbounded except where the text below or a comment says otherwise.

Where code and notes differ the model follows the code:

- `ASSIGNMENT_README.md:447` says that the values of both calls are exchanged. The side that parked first hears the peer's
  previous value from its second call on; `CoYield.OneBehind` has the exact condition, `CoYieldRun.NotExchanged` a run.
- `begin_op` reserves against LOGSIZE alone, while `log_write` also panics at `log.size - 1`, and `mkfs/mkfs.c:25` makes a log
  of LOGSIZE blocks, so an operation within its reservation can panic (`LogCapacity.ShippedImageRefuses`). It cannot if and
  only if `log.size - 1 >= LOGSIZE` (`LogCapacity.RoomExactly`). The same test also refuses a write that would have been
  absorbed (`LogCapacity.AbsorbedIsRefused`).
- `malloc` passes a 64-bit product to `sbrk(int)`; `Malloc.SbrkGetsTheSize` says for which sizes that is harmless.
- `growproc` with a negative n larger than the size wraps to a huge size and then changes nothing (`ProcMemory.Growproc`).

## Model

| member | source | states |
|---|---|---|
| LogLayout.EncodeHeader | kernel/log.c:99-114 | the header written over any old block reads back as exactly the logged block numbers |
| LogLayout.InstallCopies | kernel/log.c:67-83 | after k rounds of install exactly the first k logged home blocks hold their log block; no other block changed |
| LogLayout.RecoverYieldsDurable | kernel/log.c:116-123 | recovery of any recoverable image puts the durable contents into every home block, empties the header and leaves an image that recovers to the same contents |
| LogLayout.InstallOne | kernel/log.c:73-82 | copying one more log block home keeps the image recoverable and its header unchanged |
| LogProofs.CopiedIsCurrent | kernel/log.c:183-190 | while write_log runs, the buffer it copies holds the last logged contents of that block, never stale disk data |
| LogProofs.ActionKeeps | kernel/log.c:68-235 | every step (buffer operations, begin_op, log_write, each single disk write of commit and recovery, a crash) keeps the invariant that relates cache, pins, header, disk and specification |
| LogTheorems.RunKeepsInv | kernel/log.c:68-235 | the same over every run, the specification advancing only at the header write and forgetting uncommitted data at a crash |
| LogTheorems.CrashAtomicity | kernel/log.c:68-123 | crash atomicity: after any run from a fresh disk, with crashes between any two block writes and inside recovery, recovery yields exactly the state after the transactions whose header write completed |
| LogTheorems.OpenMeansInstalled | kernel/log.c:178-203 | whenever operations may begin, the home blocks on disk are the durable state and the header on disk is empty |
| LogTheorems.ReadersSeeLastLogged | kernel/bio.c:58-103 | in every run a locked valid buffer without unlogged changes shows the last logged contents of its block, whatever was evicted, committed or installed in between |
| LogTheorems.LoggedBlocksStayCached | kernel/log.c:205-235 | in every run a logged block that is not yet installed has exactly one buffer, with one pin, and bget cannot recycle that buffer |
| LogTheorems.RefcntCountsHolders | kernel/bio.c:116-151 | in every run each refcnt equals the references handed out plus one exactly for a pinned block |
| LogTheorems.ReservationsHold | kernel/log.c:125-175 | in every run lh.n plus all unused reservations is at most LOGSIZE, header entries are distinct, committing excludes outstanding operations, and an operation within its reservation finds room (also against log.size - 1 when that is at least LOGSIZE) |
| Log.Wal.Bread | kernel/bio.c:91-103 | the cached contents if there are any, else the disk's, which are then cached |
| LogCapacity.ShortLogRefuses | kernel/log.c:214-235 | if log.size - 1 is less than LOGSIZE, then from every start state with log.size buffers and log.size blocks behind the log there is a run, constructed in the proof, in which an operation within its reservation calls log_write for a new block and panics |
| LogCapacity.ShippedImageRefuses | mkfs/mkfs.c:25 | the same for the image that mkfs makes, with NBUF buffers: the panic comes at lh.n = 29 |
| LogCapacity.RoomExactly | kernel/log.c:125-142 | from a start state with log.size buffers and log.size blocks behind the log: every operation within its reservation finds room in every run if and only if log.size - 1 >= LOGSIZE |
| LogCapacity.AbsorbedIsRefused | kernel/log.c:219-226 | whatever the size of the log, some run refuses a write of a block that is already in the header |
| LogCapacity.RefusedExactlyWhenFull | kernel/log.c:219-226 | an attempt of an operation, absorbed or new, is refused if and only if the header is full |
| Log.Wal.TryBeginOp | kernel/log.c:125-142 | the operation is admitted exactly where the machine admits it, the state becomes the machine's, and afterwards every operation, this one included, has its whole reservation set aside |
| Log.Wal.LogWrite | kernel/log.c:214-235 | both panics with their exact conditions (the size test comes before absorption); otherwise the block is in the header once and the cache holds its new contents; within a reservation the reservations stay and a new block is refused only if log.size - 1 < LOGSIZE |
| Log.Wal.LeaveOp | kernel/log.c:146-164 | takes the machine's step, gives the reservation back and keeps all others; exactly the last operation has to commit, and the panic is not reached |
| Log.Wal.EndOp | kernel/log.c:146-175 | the last operation's end_op goes through exactly the disk images of a commit and leaves the log open and empty; any other's changes nothing on disk |
| Log.Wal.WriteHead | kernel/log.c:102-114 | one disk write that replaces the header by the in-memory one |
| Log.Wal.ReadHead | kernel/log.c:85-97 | the in-memory header becomes the one on disk |
| Log.Wal.WriteLog | kernel/log.c:177-191 | the log area receives the cached contents of the logged blocks; the disk images on the way are the listed ones |
| Log.Wal.InstallTrans | kernel/log.c:67-83 | the disk becomes Install of the old one and the cache agrees with it; the disk images on the way are the listed ones |
| Log.Wal.CommitTransaction | kernel/log.c:193-203 | the sequence of disk images is exactly: log blocks, header, home blocks, empty header; an empty transaction writes nothing |
| Log.Wal.RecoverFromLog | kernel/log.c:116-123 | the disk becomes Recover of the old one, through exactly the listed images |
| Log.CopiedStaysRecoverable | kernel/log.c:178-198 | while the header on disk is empty, log-area writes change nothing that recovery looks at |
| Log.HeaderWriteCommits | kernel/log.c:99-114 | the single header write turns an image that recovers to the old state into one that recovers to the old state with the whole transaction in it |
| Log.HeaderWriteErases | kernel/log.c:199-201 | once every home block is durable, writing the empty header loses nothing |
| Log.InstallStaysRecoverable | kernel/log.c:67-83 | every image on the way through install recovers to the same contents |
| Log.RecoveryIsRestartable | kernel/log.c:116-123 | recovery may be cut off after any of its writes and started again: every intermediate image recovers to the same home contents, and the last one has them in place with an empty header |
| Log.CommitIsAtomic | kernel/log.c:193-203 | every disk image of a commit recovers to the old state before the header write and to the new state from then on; the last image is the new state |
| SchedProofs.HandOffSafe | kernel/proc.c:532-556 | a direct switch arrives at the target with depth 1 and exactly the target's lock, whichever values are handed over, and no lock call panics |
| SchedProofs.CoBodySafe | kernel/proc.c:517-587 | every branch of co_yield after find_proc ends without a panic and with the lock-ownership invariant |
| SchedProofs.ResumeSafe | kernel/proc.c:464-478 | whoever is switched to, in whichever frame it was parked, releases a lock it holds and keeps the invariant |
| SchedProofs.StepSafe | kernel/proc.c:444-478 | no step of the one-CPU machine panics, and each keeps the lock-ownership invariant |
| SchedProofs.RunSafe | kernel/proc.c:503-646 | the same for every run |
| SchedProofs.LockHandOff | kernel/proc.c:503-646 | in every run mixing scheduler picks, yield, sleep, exit, first runs and both co_yield branches, no acquire, release or sched check panics; at every swtch the depth is 1, interrupts are off and exactly the lock of c->proc is held; only c->proc is RUNNING |
| CoYield.FindOutcome | kernel/proc.c:503-587 | all outcomes of one round of the search: meet a waiting peer, park, or leave every process unchanged; and what each leaves in the table |
| CoYield.FirstHandOff | kernel/proc.c:559-581 | the first call parks with its value and no answer |
| CoYield.SecondHandOff | kernel/proc.c:525-551 | the second side takes the first side's latest value, leaves its own as the answer, and parks |
| CoYield.LaterHandOff | kernel/proc.c:539-551 | a later call of the first side takes the second side's latest value, while the parked second side keeps the answer it already has (a0 is overwritten only when it is -1) |
| CoYield.FirstHears | kernel/proc.c:583-586 | the value the first side's call returns is the next one the law allows |
| CoYield.SecondHears | kernel/proc.c:553-556 | the value the second side's call returns is the next one the law allows |
| CoYield.ParkedUntilPeer | kernel/proc.c:681-719 | no step of the machine, wakeup and kill of others included, takes a parked side out of SLEEPING except its peer's hand-off |
| CoYield.RunKeepsLaw | kernel/proc.c:480-587 | the law about sent, pending and received values holds along every conversation under arbitrary preemption |
| CoYield.ValueLaw | kernel/proc.c:480-587 | after any run, in any conversation of two processes: the second side's k-th call returns the first side's k-th value, and the first side's k-th call returns the peer's value number max(1, k-1) |
| CoYield.OneBehind | kernel/proc.c:539-542 | a call of the first side returns the value of the peer's call with the same number if and only if it is the first or the peer repeated its previous value |
| CoYieldRun.NotExchanged | kernel/proc.c:480-587 | from every boot state with two slots there is a run, constructed in the proof, in which one process passes 1 and 2, the other 10 and 20, and the first hears 10 twice |
| CoYield.ConstantsAreDelivered | kernel/proc.c:480-587 | when each side always passes one value, every call returns the other side's value |
| Proc.Kernel.PushOff | kernel/spinlock.c:88-97 | does to the CPU what the step machine's push_off does |
| Proc.Kernel.PopOff | kernel/spinlock.c:99-110 | fails exactly where the step machine panics, and otherwise takes its step |
| Proc.Kernel.AcquireLock | kernel/spinlock.c:21-43 | fails exactly where the step machine panics, and otherwise takes its step |
| Proc.Kernel.ReleaseLock | kernel/spinlock.c:46-72 | fails exactly where the step machine panics, and otherwise takes its step |
| Proc.Kernel.Wakeup | kernel/proc.c:681-695 | exactly the sleepers on chan other than the caller become RUNNABLE, no other field changes, and all locks and the nesting depth are as before |
| Proc.Kernel.Kill | kernel/proc.c:699-719 | marks the first slot with the pid and wakes it if it sleeps, changes nothing if there is none, and gives every lock back |
| Proc.Kernel.FindProc | kernel/proc.c:487-501 | returns the first live slot with the pid holding exactly its lock in addition, or nothing with no lock added |
| Proc.Kernel.CoYieldCall | kernel/proc.c:503-581 | refused exactly for a bad pid or when no slot can be met or parked on, with nothing changed; otherwise both table entries are as the hand-off says, c->proc is the target and exactly its lock is held one level deep |
| Wakeup.SleepKeeps | kernel/proc.c:650-677 | every line of sleep, including its switch away, keeps the invariant over all CPUs |
| Wakeup.WakeKeeps | kernel/proc.c:681-695 | every step of wakeup's loop keeps the invariant that the slots already passed hold no recorded sleeper of this channel |
| Wakeup.IrqWakeKeeps | kernel/proc.c:681-695 | the same for a wakeup called from an interrupt handler, which skips the interrupted process |
| Wakeup.SchedKeeps | kernel/proc.c:444-478 | every line of scheduler, on any CPU, keeps the invariant |
| Wakeup.RunnableIsSaved | kernel/proc.c:456-464 | a process that a scheduler finds RUNNABLE under its lock executes on no CPU |
| Wakeup.WokenIsAwake | kernel/proc.c:688-692 | under a slot's lock held by somebody else, a recorded sleeper on the channel is SLEEPING with that channel, so the test wakes it |
| Wakeup.StepKeepsInv | kernel/proc.c:596-695 | every step of the many-CPU machine (locks, sleep, wakeup, yield, scheduler, interrupts, exit, kill, slot reuse) keeps the invariant |
| Wakeup.NoLostWakeup | kernel/proc.c:650-695 | in every interleaving over any number of CPUs: a call of sleep(chan, lk) that released lk before the waker took lk, by an acquire or at the end of its own sleep, is not SLEEPING any more when a later wakeup(chan) of the waker returns |
| Wakeup.NoLostWakeupFromHandler | kernel/proc.c:681-695 | the same when the waker is an interrupt handler |
| Wakeup.OneCpuPerProcess | kernel/proc.c:444-478 | in every run no process executes on two CPUs and no slot's lock is held by two CPUs |
| FsLayout.PutWord | kernel/fs.c:399-415 | storing a 32-bit word into a block of bytes changes that word and no other |
| FsLayout.SetBit | kernel/fs.c:75-77 | setting a clear bit of a byte changes that bit only |
| FsLayout.ClearBit | kernel/fs.c:99-102 | clearing a set bit of a byte changes that bit only |
| FsOwner.NoSharing | kernel/fs.c:382-453 | under the ownership agreement two different slots (direct, indirect, entry) of any inodes never name the same block |
| FsOwner.OnlyOneBit | kernel/fs.c:72-105 | marking a block used or free changes exactly its bit in the bitmap |
| FsOwner.MarkUsedKeeps | kernel/fs.c:76-81 | a block taken from a clear bit is a data block nobody owns, and the agreement holds with it as spare |
| FsOwner.AssignAddrKeeps | kernel/fs.c:388-406 | putting a spare block into a direct slot or the indirect slot keeps the agreement and every other slot |
| FsOwner.AssignEntryKeeps | kernel/fs.c:407-415 | putting a spare block into an entry of the indirect block keeps the agreement and every other slot of every inode |
| FsOwner.DataWriteKeeps | kernel/fs.c:505-528 | writing a data block changes no slot and keeps the agreement |
| FsOwner.MarkFreeKeeps | kernel/fs.c:91-105 | freeing an owned block finds its bit set, and the agreement holds up to the blocks already freed |
| FsOwner.ForgetKeeps | kernel/fs.c:432-451 | when no slot names a freed block any more, the agreement holds without them |
| FileSystem.FileSys.Balloc | kernel/fs.c:65-88 | the lowest free block, marked, zeroed and logged with its bitmap block; 0 exactly when every bit is set, with nothing changed |
| FileSystem.FileSys.Bfree | kernel/fs.c:90-105 | the panic exactly for a clear bit; otherwise exactly that bit is cleared and its bitmap block logged |
| FileSystem.FileSys.AddrOrAlloc | kernel/fs.c:388-406 | the slot is filled, or the disk is full and nothing changed; ownership agrees afterwards; exactly the listed blocks are logged |
| FileSystem.FileSys.EntryOrAlloc | kernel/fs.c:407-417 | the same for an entry of the indirect block |
| FileSystem.FileSys.Bmap | kernel/fs.c:379-421 | file block bn is mapped and every other slot of every inode kept, or the disk is full; ownership and bitmap agree on all paths, out-of-space included; every disk block that changed is logged |
| FileSystem.FileSys.FreeEntries | kernel/fs.c:442-445 | every entry of the indirect block is freed exactly once and bfree does not panic |
| FileSystem.FileSys.Itrunc | kernel/fs.c:423-453 | the inode is empty, exactly its blocks are free again, all other inodes and data are untouched, "freeing free block" does not happen, and every disk block that changed is logged |
| FileSystem.FileSys.Mkfs | mkfs/mkfs.c:234-248 | the image that mkfs makes, without files, meets the ownership agreement |
| FileContents.WriteRound | kernel/fs.c:516-528 | one round writes its piece at its place in the byte sequence, or stops with the disk full and the file unchanged; the log grows within the budget |
| FileContents.WriteRounds | kernel/fs.c:516-528 | the loop writes a prefix of the source; a short prefix means the disk is full |
| FileContents.UpdateSize | kernel/fs.c:530-531 | the size grows to the end of the write, and the contents are the old bytes with the source over them |
| FileContents.Writei | kernel/fs.c:498-539 | on one byte sequence per file: overwrite and extend by exactly the written prefix, -1 exactly for a bad offset or a too long write with nothing changed, all other files unchanged, every block below size mapped, every disk block that changed logged, no slot changed but empty ones of this range, and an upper bound on the logged blocks |
| FileContents.Readi | kernel/fs.c:467-496 | a slice of the byte sequence; nothing is allocated or changed, and bmap's range panic is not reached |
| FileContents.RoundWithin | kernel/fs.c:382-421 | bmap's log writes and the data block's own stay within two blocks a round plus the shared ones, for any bitmap layout |
| FileContents.FilledLogs | kernel/fs.c:409-415 | how many new blocks a round logs, by whether the indirect block existed and was logged before |
| FileContents.ChunkFits | kernel/file.c:149-160 | for every offset and length of a chunk the upper bound on logged blocks is at most MAXOPBLOCKS, using that an unaligned first block is already mapped |
| FsTight.WriteTen | kernel/file.c:149-160 | the bound is attained: with four free blocks in four bitmap blocks, writei of a chunk that begins inside file block 11 logs exactly MAXOPBLOCKS blocks |
| FsTight.NotFull | kernel/fs.c:379-421 | in that state the disk does not run out before the chunk is written |
| FsTight.TenLogged | kernel/fs.c:498-539 | the ten different blocks: the first data block, three new data blocks, the indirect block, the four bitmap blocks, the inode's block |
| FsTight.ImageGood | kernel/fs.h:26-50 | a disk of 32768 blocks laid out with 2714 files and four free blocks meets the ownership agreement |
| FsTight.TenOnImage | kernel/file.c:149-160 | on that image one write of one chunk needs the whole reservation |
| FileContents.FileWrite | kernel/file.c:148-175 | the count exactly when every byte was written, else -1; the file holds exactly the prefix f->off moved over; no chunk logs more than MAXOPBLOCKS blocks |
| FsRuns.Perform | kernel/fs.c:467-539 | one call of writei, readi or itrunc does to the disk what it does to a list of byte sequences, and returns what that list says |
| FsRuns.Run | kernel/fs.c:423-539 | any sequence of such calls: every read returns what the writes and truncations before it left, every write reports how much it wrote, and ownership and bitmap agree at the end |
| FsRuns.FromMkfs | mkfs/mkfs.c:234-248 | the same from the image that mkfs makes |
| PageTable.IndicesLoseNothing | kernel/riscv.h:354-363 | below MAXVA the three indices and the offset determine the address |
| PageTable.MakePte | kernel/riscv.h:347-352 | page number and flags can be read back from the packed entry |
| PageTable.PackedBits | kernel/riscv.h:347-352 | the shifts and masks on 64-bit words lose nothing of a page address and its flags |
| PageTable.HardwareSeesFlatMap | kernel/vm.c:73-103 | for every address below MAXVA the hardware's walk through the three-level tree yields the entry of the flat map |
| PageTable.StoreLeaf | kernel/vm.c:151-164 | writing a level-0 entry changes the flat map of all trees at that one place |
| PageTable.GrowValid | kernel/vm.c:94-100 | adding a zeroed table keeps the trees well formed and the pages accounted for |
| PageTable.GrowKeepsFlatMap | kernel/vm.c:94-100 | growing a tree changes no translation of any tree |
| PageTable.TakeValid | kernel/kalloc.c:68-82 | taking the first free page keeps the partition of pages and changes no translation |
| PageTable.GiveValid | kernel/kalloc.c:46-63 | giving back a page that is no table keeps the partition of pages and changes no translation |
| PageTable.DropValid | kernel/vm.c:275-286 | freeing a table with no children keeps all other trees |
| Vm.Memory.Kinit | kernel/kalloc.c:26-40 | every whole page between end and PHYSTOP is free once, the highest first; kfree's panic is not reached |
| Vm.Memory.Kalloc | kernel/kalloc.c:65-82 | the first free page, owned by nobody before, or 0 exactly if there is none |
| Vm.Memory.Kfree | kernel/kalloc.c:42-63 | the page is in front of the free list and no translation changes |
| Vm.Memory.Walk | kernel/vm.c:73-103 | the place of the level-0 entry; the tree only gains tables and no translation changes; null exactly for a missing table without alloc, or when memory ran out |
| Vm.Memory.Mappages | kernel/vm.c:138-165 | the flat map gains exactly the pages done; success maps the whole range; failure leaves no free page |
| Vm.Memory.Uvmunmap | kernel/vm.c:167-192 | exactly the pages of the range leave the flat map, and with do_free exactly their frames go back to the free list, once each; no panic |
| Vm.Memory.Uvmdealloc | kernel/vm.c:251-267 | exactly pages 0 to PGROUNDUP of the result are mapped; the freed frames are back on the free list; everything else is kept |
| Vm.Memory.Uvmalloc | kernel/vm.c:223-249 | exactly pages 0 to PGROUNDUP(newsz) are mapped, new ones zeroed with the right flags, or on failure exactly the old ones; failure only with at most three free pages for each page to add; no panic is reached |
| Vm.Memory.Uvmcopy | kernel/vm.c:299-333 | the child has the parent's flags and bytes in frames of its own, or on failure no page at all; the parent and all others are untouched |
| Vm.Memory.Freewalk | kernel/vm.c:269-287 | exactly the tables from there down go to the free list, once each; the leaf panic is not reached |
| Vm.Memory.Uvmcreate | kernel/vm.c:194-205 | a tree that maps nothing, on a page nobody owned, or nothing at all |
| Vm.Memory.Uvmfree | kernel/vm.c:289-297 | nothing is left that belongs to the tree, and nothing else changed |
| Vm.CountFrames | kernel/vm.c:225-249 | the frames of n mapped pages are n different pages |
| Vm.FitsInRam | kernel/vm.c:225-249 | a process never has more pages than RAM, so growing never reaches the trapframe page or walk's range panic |
| ProcMemory.HardwareSeesSpace | kernel/proc.c:176-216 | the hardware finds exactly the pages below PGROUNDUP(sz), each in a frame owned as that page, and the two at the top |
| ProcMemory.ProcPagetable | kernel/proc.c:176-206 | an empty address space with trampoline and trapframe, or, with at most five pages free, failure with every page returned |
| ProcMemory.ProcFreepagetable | kernel/proc.c:208-216 | no page of the process is left and nothing else changed |
| ProcMemory.Growproc | kernel/proc.c:257-275 | the new size exactly as computed modulo 2^64, shrinking below zero doing nothing; the mapped pages always match the size; the pages that stay keep frame, flags and bytes; failure changes nothing the process can see |
| ProcMemory.AllReturned | kernel/proc.c:176-216 | if nothing of a tree existed before and nothing exists after, ownership, maps, contents and the free pages are as before |
| ProcMemory.Processes.AllocProc | kernel/proc.c:124-141 | a new process with no memory, or every page owned as before; the maps, frames and bytes of all other processes are untouched |
| ProcMemory.Processes.FreeProc | kernel/proc.c:155-164 | exactly this process's pages are free again; the maps, frames and bytes of all other processes are untouched |
| ProcMemory.Processes.GrowProc | kernel/sysproc.c:55-66 | sbrk: the old size with the new size recorded, or -1 with nothing changed, only when memory is short; the process keeps the bytes of the pages that stay, and all other processes are untouched |
| ProcMemory.Processes.ForkProc | kernel/proc.c:279-297 | the child has the parent's size, flags and bytes; if memory runs out nothing of the child is left; all processes that were there are untouched |
| ProcMemory.Processes.Run | kernel/proc.c:176-216 | page conservation: after any mix of process creation, fork, growing, shrinking and exit by any processes, each succeeding or running out of memory, every page is back on the free list exactly once |
| ProcMemory.FromKinit | kernel/kalloc.c:26-40 | from kinit on, any such run ends with exactly the pages between end and PHYSTOP free, once each |
| Malloc.StopsAtPlace | user/umalloc.c:30-32 | free's loop test holds at exactly one position of the list: the last block below the freed one |
| Malloc.FreedValid | user/umalloc.c:33-43 | inserting and joining keeps one address-ordered cycle without overlapping or touching blocks, and the partition of all units |
| Malloc.FreedCode | user/umalloc.c:33-42 | the two pointer updates of free compute exactly insertion and joining |
| Malloc.RegionValid | user/umalloc.c:54-59 | a fresh region from sbrk becomes a live block of the heap |
| Malloc.TakeWholeValid | user/umalloc.c:76-77 | taking a whole free block keeps the heap well formed |
| Malloc.TakeTailValid | user/umalloc.c:78-82 | cutting a block off the end of a free one keeps the heap well formed |
| Malloc.UnitsFor | user/umalloc.c:69 | the fewest units that hold the header and the bytes |
| Malloc.SbrkGetsTheSize | user/umalloc.c:52-58 | sbrk, whose parameter is an int, is asked for the size that morecore records if and only if malloc's argument is at most 0x7fffffe0 |
| Malloc.SbrkShrinks | user/umalloc.c:54 | the first larger argument makes malloc ask sbrk to shrink the heap by 2^31 bytes |
| Malloc.Allocator.FindPlace | user/umalloc.c:30-32 | the search ends at the last free block below the freed one, wherever freep points |
| Malloc.Allocator.Free | user/umalloc.c:24-44 | the heap becomes the freed one and stays well formed |
| Malloc.Allocator.Morecore | user/umalloc.c:46-61 | a fresh region joins the free list, so a block of the wanted size is there; live blocks keep their sizes; failure changes nothing |
| Malloc.Allocator.Take | user/umalloc.c:75-84 | a block of exactly nunits units, live from now on, is cut out; all other live blocks keep their sizes |
| Malloc.Allocator.InitList | user/umalloc.c:70-73 | the list with base alone in it |
| Malloc.Allocator.Search | user/umalloc.c:74-89 | the loop ends; morecore is called at most once and exactly if no free block is large enough |
| Malloc.Allocator.Alloc | user/umalloc.c:63-90 | null exactly if no free block is large enough and sbrk fails; otherwise a new live block of the right size; free and live blocks partition all units obtained |
| BufferCache.Unlink | kernel/bio.c:128-129 | the two assignments take the buffer out of the cycle in both directions |
| BufferCache.PushFront | kernel/bio.c:130-133 | the four assignments put it in front, in both directions |
| BufferCache.Cache.constructor | kernel/bio.c:36-53 | one cycle through the head and all NBUF buffers, all for device 0, block 0 |
| BufferCache.Cache.Lookup | kernel/bio.c:65-73 | the buffer that caches the block, the most recently released if several do, or none exactly if none does |
| BufferCache.Cache.Oldest | kernel/bio.c:75-87 | the unreferenced buffer whose last final brelse is oldest, or none exactly if all are referenced |
| BufferCache.Cache.Bget | kernel/bio.c:58-89 | a hit adds a reference and changes nothing else; a miss recycles the least recently released unreferenced buffer; the panic exactly if there is none; a block other than device 0, block 0 stays in at most one buffer |
| BufferCache.Cache.Brelse | kernel/bio.c:114-137 | one reference less; the last one moves the buffer to the front and makes it the most recently released; the cycle stays whole |
| BufferCache.Cache.Bpin | kernel/bio.c:139-144 | one reference more, and nothing else |
| BufferCache.Cache.Bunpin | kernel/bio.c:146-151 | one reference less, and the order does not change |
| VirtioQueue.AtMostTwo | kernel/virtio_disk.c:199-213 | at most two requests are in flight and at most two entries of a ring are unread |
| VirtioQueue.RingPush | kernel/virtio_disk.c:271-277 | with fewer than NUM unread entries a new one overwrites none of them |
| VirtioQueue.IndexTells | kernel/virtio_disk.c:312 | the 16-bit indices differ exactly if the ring has unread entries, also when they wrap |
| VirtioQueue.FlagTells | kernel/virtio_disk.c:283-286 | b->disk is clear exactly when the request has been answered |
| VirtioQueue.OfferKeeps | kernel/virtio_disk.c:235-281 | a formatted and published request keeps the partition, the formats, both rings and the count of clearings |
| VirtioQueue.TakeKeeps | kernel/virtio_disk.c:271-281 | the device finds the oldest unread request at its place in the avail ring |
| VirtioQueue.CompleteKeeps | kernel/virtio_disk.c:309-314 | a completion in any order keeps the protocol invariant |
| VirtioQueue.AnswerKeeps | kernel/virtio_disk.c:312-324 | a turn of the handler's loop finds a returned request at its place in the used ring and keeps the invariant |
| VirtioQueue.FinishKeeps | kernel/virtio_disk.c:288-289 | freeing an answered chain keeps the invariant |
| VirtioQueue.StepKeepsInv | kernel/virtio_disk.c:215-327 | every event keeps the protocol invariant |
| VirtioQueue.EveryRun | kernel/virtio_disk.c:215-327 | in every interleaving of requests, completions in any order and interrupts: at most two requests in flight, each b->disk cleared at most once, and exactly once when the request is over |
| Virtio.Disk.AllocDesc | kernel/virtio_disk.c:155-166 | the first free descriptor, or -1 exactly if none is free |
| Virtio.Disk.FreeDesc | kernel/virtio_disk.c:168-182 | the descriptor is zeroed and free; neither panic is reached by its callers |
| Virtio.Disk.Alloc3Desc | kernel/virtio_disk.c:199-213 | three different free descriptors, or failure exactly with fewer than three free, having given back what it took |
| Virtio.Disk.FreeChain | kernel/virtio_disk.c:184-197 | exactly the three descriptors of the chain are freed |
| Virtio.Disk.Submit | kernel/virtio_disk.c:215-281 | a new request in flight with the right buffer, direction and block, or nothing changed with fewer than three descriptors free |
| Virtio.Disk.DeviceTake | kernel/virtio_disk.c:271-281 | the device obtains a request that was offered and not taken before |
| Virtio.Disk.DeviceComplete | kernel/virtio_disk.c:309-314 | the status byte the chain names is written and the head is returned |
| Virtio.Disk.IntrTurn | kernel/virtio_disk.c:312-324 | the status is 0, so no panic; exactly that request's b->disk is cleared, for the first time |
| Virtio.Disk.Intr | kernel/virtio_disk.c:294-327 | with the device idle, everything returned is answered and nothing else |
| Virtio.Disk.RwDone | kernel/virtio_disk.c:283-291 | the request had been answered; exactly its descriptors are free again |
| ShellGrammar.Skip | user/sh.c:273-274 | the first place that is not white |
| ShellGrammar.WordEnd | user/sh.c:298-299 | the end of the maximal word |
| ShellGrammar.GetToken | user/sh.c:266-309 | the token begins after the white space and is not empty unless the line is over; a word token is a maximal word, >> is one token, every other symbol is itself; the cursor is past the white space behind it |
| ShellGrammar.ParseLine | user/sh.c:345-360 | parsing ends, because the cursor never moves back and every nested call starts further on |
| ShellParser.ParsedWords | user/sh.c:328-447 | in every accepted line each argument and file is a maximal word of the line, and at most MAXARGS - 1 arguments are stored |
| ShellForms.FormParses | user/sh.c:328-447 | every way to write a command, with /, &, ; and redirections anywhere among the words, parentheses where the levels need them and wherever else, parses to the command it stands for: / binds tighter than &, & tighter than ;, / and ; group to the right, redirections wrap in the order written |
| ShellForms.ItemsParse | user/sh.c:416-447 | the words of a simple command become its arguments and the redirections among them are wrapped around it in order |
| ShellForms.Unambiguous | user/sh.c:328-447 | no line stands for two different commands |
| ShellForms.RoundTrip | user/sh.c:328-447 | for every command tree of words with at most MAXARGS - 1 arguments a command, parsing its printing, with parentheses only where needed, returns the same tree |
| ShellForms.FewestParentheses | user/sh.c:345-414 | no way to write the same command has fewer parentheses than that printing |
| Shell.Gettoken | user/sh.c:266-309 | the loops compute the grammar's token and cursor |
| Shell.PeekToken | user/sh.c:311-321 | the cursor moves to the next token, and the answer is whether it begins with one of the characters |
| Shell.Parseredirs | user/sh.c:375-398 | the loop finds the grammar's redirections, or the missing file |
| Shell.Parseargs | user/sh.c:430-446 | the loop of parseexec computes the grammar's command or panic |
| Shell.Parseexec | user/sh.c:416-447 | computes the grammar's command or panic |
| Shell.Parseblock | user/sh.c:400-414 | computes the grammar's command or panic |
| Shell.Parsepipe | user/sh.c:362-373 | computes the grammar's command or panic |
| Shell.Parseline | user/sh.c:345-360 | computes the grammar's command or panic |
| Shell.NulledDenotes | user/sh.c:449-494 | a NUL written behind one word never lands inside another, so every pointer denotes its own word |
| Shell.Nulterminate | user/sh.c:449-494 | the line has a NUL at the end of every word of the command and is otherwise unchanged |
| Shell.Parsecmd | user/sh.c:328-343 | the command is the grammar's; after nulterminate every argument and file pointer denotes exactly its own token; a refused line is unchanged |
| Grep.HereSplits | user/grep.c:83-95 | a match of a list of items is a match of the first on a piece and of the others on the rest |
| Grep.HereStar | user/grep.c:97-105 | a star matches nothing, or one character and then itself again |
| Grep.MatchHere | user/grep.c:83-95 | true exactly if some beginning of the text can be cut into pieces that fit the items |
| Grep.MatchStar | user/grep.c:97-105 | the same for a starred character followed by the pattern |
| Grep.Match | user/grep.c:71-81 | for every pattern and text, true exactly if the declarative semantics of ^ . * $ admits a match; recursion justified by (pattern length, text length) |

## Left out

- Assembly, CSR access and device start-up: `swtch` is "control moves to the named context", the virtio device a peer that takes any order of steps.
- Directories, link counts, path lookup, pipes, the console, exec and the remaining system calls: ordinary code whose properties are easier than those above.
- Weak memory: locks and single field writes are steps in one order, as the fences of `kernel/spinlock.c` and `kernel/virtio_disk.c` are meant to give.
- Failing user copies in `readi` and `writei`: a failed copy may leave a buffer half changed and unlogged (`kernel/fs.c:522-525`).
- co_yield on several CPUs, reuse of a slot by another process during a conversation, and restoring intena: the code does not give them.
- NBUF equals LOGSIZE, so that bget always finds a buffer is not claimed; its panic is an outcome of `BufferCache.Cache.Bget`.
- FileSystem.FileSys.Iupdate: records that the inode's block is logged; the bytes of an inode on disk are not modelled, inodes are values in memory.
- FileSystem.FileSys.Itrunc: the same; the inode is empty in memory and its block is logged.
- SchedProofs.LockHandOff: a process of the machine takes a kernel lock only outside co_yield, and holds at most one at a time.
- FileContents.FileWrite: the branches for pipes and devices, and files that are not writable, are not modelled.
- Log.Wal.Bread: the Log class has cached contents only; buffers, references, pins and locks are in LogMachine and BufferCache.
- BufferCache.Cache.Bget: without the sleep lock of the buffer; holders of that lock are in LogMachine.
- BufferCache.Cache.Brelse: likewise without releasesleep and the panic for a buffer that is not locked.
- Malloc.Allocator.Alloc: addresses and sizes are unbounded numbers of units, sbrk's region is assumed fresh and above base; what 32 bits do to the request is in SbrkGetsTheSize.
- Vm.Memory.Kalloc: the free list is a sequence, not pointers stored inside the free pages.
- Vm.Memory.Walk: page contents are 512 words, and addresses in entries are page numbers; PackedBits has the bit level.
- ProcMemory.Processes.ForkProc: memory only; registers, files and the parent link are left out.
- Wakeup.StepKeepsInv: exit, kill, reaping and allocating a slot are single steps under the slot's lock.
- Virtio.Disk.Submit: sleeping for descriptors and waking sleepers are left to the caller; the device completes with status 0.
- Shell.Parseargs: argv and eargv are a list of tokens put into the command at the end, not fields updated while redirections are already wrapped around the node.
- Shell.Parsecmd: an allocation failure of malloc in the shell is not modelled.
- Grep.Match: the line splitting of grep's main loop, with its 1023-byte limit, is left out.
