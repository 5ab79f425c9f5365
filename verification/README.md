# xv6 for RISC-V, with 2 MiB superpages: a verified model

This project models the parts of the kernel and of three user programs where the hard reasoning is, and proves what
they promise. Each group of files follows one component of the system.

- **Write-ahead log** (`Log`, `LogSpace`, `LogDevice`): the disk is a sequence of blocks, every single-block write is a
  step, and a crash may fall between any two steps, in a commit and in any number of recoveries.
- **Buffer cache** (`BufferList`, `Bio`, `BioCache`, `BioStore`): the doubly linked LRU list, reference counts, pins and
  sleep locks, for callers that log or write a changed buffer before they release it, against a store without a cache.
- **File system** (`FsBits`, `Fs`, `FsFile`, `FsSpace`, `FsDisk`, `FsExamples`, `FsCrash`, `Dir`, `DirFile`, `Path`,
  `Itable`, `Links`, `NameSpace`): the free map against all block pointers, files as bytes, chunked writes, what they
  log, what they need of the free blocks and what a crash leaves of them, directories, paths, the inode table, link
  counts.
- **Virtual memory** (`PageTable`, `VmSpec`, `VmOwned`, `VmCount`, `VmGrow`, `VmCopy`, `VmFree`, `VmBytes`, `Vm`,
  `VmExamples`): three-level page tables with 4 KiB and 2 MiB leaves against the Sv39 translation of the RISC-V
  Privileged Architecture (version 20211203, sections 4.3.2 and 4.4), the two physical allocators, and how many free
  pages and superpages growth and fork need. Addresses are page numbers.
- **Processes** (`Wakeup`, `Sleep`, `Proc`, `ProcLife`, `ProcCalls`): sleep and wakeup around any condition, sleep locks
  as a client of them, and the process life cycle, as interleaved steps with the locks in the state; and what whole
  calls come to when the locks they take are free.
- **Virtio disk driver** (`Virtio`, `VirtioDisk`): the split ring of OASIS virtio 1.1, sections 2.6 and 5.2, with the
  device as a second party.
- **Ring buffers** (`Wrap`, `Pipe`, `Console`): pipe and console input with 32-bit counters that wrap.
- **User programs** (`Umalloc`, `UmallocHeap`, `Shell`, `ShellRoundTrip`, `ShellParser`, `ShellGrammar`, `Grep`): the
  allocator, the shell's parser against a grammar over tokens, and grep's matcher.

State the source updates in place is a class whose methods are proved against functions of the old state; the
invariants and the theorems about runs are lemmas on values. Where several processes act, a method or a step is one
critical section, and ghost state (who owns a block, which place of a tree a table page has, what a block was last
written as) says what the real fields mean.

## What turned out false

Some properties one would expect do not hold of the code. Each has a concrete state or run that shows it and the exact
condition under which it holds.

- mkfs makes a log of `LOGSIZE` blocks, one too few: `log_write` can then panic within every operation's budget. It
  cannot exactly when the log has more than `LOGSIZE` blocks (`LogSpace.LogLargeEnough`), and even then logging a block
  again when the header is full panics (`LogSpace.WritePanics`, `LogSpace.RelogPanics`).
- `walkaddr` gives the base of a superpage for every page in it. It is right exactly for 4 KiB leaves and for the first
  page of a superpage (`Vm.Memory.Walkaddr`, `VmExamples.WalkaddrWrong`).
- `uvmunmap` clears a superpage whole, wherever the range cuts it. It clears exactly what was asked exactly when neither
  end of the range is inside a superpage (`VmOwned.UnmapExactly`, `VmExamples.UnmapTooMuch`). Where it starts decides
  whether the allocators stay right: from outside they do, wherever the range ends (`Vm.Memory.Uvmunmap`); from inside it
  hands kfree the base of the superpage, which is no page of kalloc's, and no account of kalloc's pages is left
  (`VmBytes.KfreesItsOwn`).
- `supermappages` panics on a level-1 entry that holds an empty table, which `uvmunmap` leaves behind. It panics exactly
  when the entry is occupied (`Vm.Memory.Supermappages`, `VmExamples.StaleTable`).
- A superpage that `uvmalloc` maps is writable whatever permission was asked for; a 4 KiB page is writable exactly when
  it was asked for (`Vm.Memory.Uvmalloc`, `VmExamples.WritableAnyway`).
- A faulting source in `writei` can leave bytes in the cached block past the count returned: exactly when it ends in the
  middle of a block and enough blocks were free to get there (`FsDisk.FileSystem.Writei`,
  `FsExamples.FaultLeavesByte`).
- A directory entry can name a free inode: exactly when it is the `..` of an unlinked directory and the directory it
  names has neither links nor references left (`NameSpace.DanglesWhen`, `NameSpace.DotDotCanDangle`). A path that goes
  on from there panics (`Path.Inodes.Namex`).
- The size `malloc` passes to sbrk is an int: it is the size it records exactly up to requests of 2^31 - 32 bytes
  (`UmallocHeap.CoreRequest`).
- `piperead` and `consoleread` lose the byte whose copyout fails, exactly when there is a byte the destination has no
  room for (`Pipe.Ring.Read`, `Pipe.LosesByte`, `Console.Input.Read`, `Console.LosesByte`).

## Model

| member | source | states |
|---|---|---|
| Log.CrashAtomicity | kernel/log.c:68-203 | a commit cut after any number of block writes, then any number of recoveries cut anywhere, then one complete recovery, leaves the home blocks exactly old, or exactly new once the first header write is on disk |
| Log.RunIsAtomic | kernel/log.c:68-203 | over any sequence of transactions with such crashes the home blocks are those of running the committed ones whole, in order |
| Log.CommitPrefix | kernel/log.c:193-203 | after k writes of a commit the disk is still clean with the old contents, or durable with the new ones |
| Log.RecoverDurable | kernel/log.c:68-123 | any prefix of recovery keeps a durable transaction durable; complete recovery installs it and empties the log |
| LogDevice.Device.LogWrite | kernel/log.c:214-235 | panics exactly in the source's three cases, for a log of any size; otherwise the block is in the header once, cached and pinned, and still fits in the log |
| LogDevice.Device.WriteLog | kernel/log.c:178-191 | issues exactly the log writes of the transaction, in order |
| LogDevice.Device.InstallTrans | kernel/log.c:68-83 | issues exactly the home writes, in order, and unpins every block |
| LogDevice.Device.WriteHead | kernel/log.c:102-114 | writes a header that lists exactly the logged blocks |
| LogDevice.Device.ReadHead | kernel/log.c:86-97 | reads back the block list a header holds |
| LogDevice.Device.Commit | kernel/log.c:193-203 | issues exactly the writes whose every prefix the crash theorem is about |
| LogDevice.Device.RecoverFromLog | kernel/log.c:116-123 | issues exactly the recovery writes whose every prefix the crash theorem is about |
| LogSpace.RunKeepsInv | kernel/log.c:126-235 | in every run of begin_op, log_write and end_op in which each operation logs at most MAXOPBLOCKS distinct blocks, logged blocks plus unused budgets never exceed LOGSIZE |
| LogSpace.WritePanics | kernel/log.c:214-235 | with a large enough log a write within budget panics exactly when the header is full, and then it logs again a block of its own |
| LogSpace.EndAndBeginSafe | kernel/log.c:126-175 | begin_op and end_op never panic, and begin_op admits an operation only with its whole budget free |
| LogSpace.CommitIsWhole | kernel/log.c:146-175 | a commit starts only when no operation is outstanding and holds everything every operation logged |
| LogSpace.RunCycles | kernel/log.c:126-175 | in every run a commit is under way exactly when operations were begun and all have ended, and with none begun the header is empty |
| LogSpace.RunBooked | kernel/log.c:126-235 | in every run the operations since the last commit, which of them still run, what each has logged and the header, in order, are those the steps taken say |
| LogSpace.BeginIsLetIn | kernel/log.c:126-175 | begin_op waits only when a commit is due or an operation can still end, and right after a commit it is let in |
| LogSpace.LogLargeEnough | mkfs/mkfs.c:25 | in no run does a log_write with budget left panic, if and only if the log has more than LOGSIZE blocks; mkfs gives it exactly LOGSIZE |
| LogSpace.RelogPanics | kernel/log.c:219-221 | a run within budget that panics on logging a block again |
| BioCache.StepOk | kernel/bio.c:36-151 | every critical section, of any process, keeps the list a well-linked permutation in order of last release to refcnt 0, exact counts, one buffer per block, and coherence with disk and log |
| BioCache.RunOk | kernel/bio.c:36-151 | every state of every run has these invariants |
| BioCache.ReferencedKeepsKey | kernel/bio.c:58-90 | a buffer with a reference or a pin is not given to another block |
| BioCache.BreadIsLatest | kernel/bio.c:92-103 | as long as the process itself does not release the buffer in between, bread returns what the block was last logged or written as, whatever others did between finding the buffer and locking it |
| BioCache.LatestChanges | kernel/bio.c:105-112 | what a block was last written as changes by bwrite and log_write of that block only |
| BioStore.StepAgrees | kernel/bio.c:36-151 | every operation does to the cache what it does to a store without buffers or list: a holder reads and changes a copy of the block, bwrite puts it on disk, log_write makes it the latest, and a release to refcnt 0 moves the buffer last in line for reuse |
| BioStore.Transparent | kernel/bio.c:36-151 | after any run the latest contents of every block, the disk, the holders, what each of them sees, the pins and the order of the list are those that replaying the run on that store gives |
| BioCache.VictimIsLeastRecent | kernel/bio.c:76-88 | the recycled buffer was released to refcnt 0 before every other unused one |
| BioCache.Bcache.constructor | kernel/bio.c:36-53 | binit's list is well linked and holds every buffer, unused |
| BioCache.Bcache.Find | kernel/bio.c:65-73 | the forward scan finds the block's buffer exactly when it is cached |
| BioCache.Bcache.FindUnused | kernel/bio.c:77-88 | the backward scan finds the last unused buffer, or none exactly when all are in use |
| BioCache.Bcache.Get | kernel/bio.c:58-90 | a hit takes a reference; a miss reassigns the least recently released unused buffer; it panics exactly when there is none |
| BioCache.Bcache.Load | kernel/bio.c:92-103 | a locked buffer holds the latest contents |
| BioCache.Bcache.Write | kernel/bio.c:105-112 | the block on disk and what it was last written as become the bytes of the buffer, and nothing else changes |
| BioCache.Bcache.Pin | kernel/bio.c:139-144 | what the block was last written as becomes the bytes of the buffer, which gets one pin and one reference; the disk stays |
| BioCache.Bcache.Unpin | kernel/bio.c:146-151 | once disk and latest contents agree a pin can go |
| BioCache.Bcache.Unlock | kernel/bio.c:122-122 | releasing the sleep lock keeps all invariants once the contents were logged or written |
| BioCache.Bcache.Release | kernel/bio.c:124-136 | a buffer moves to the front exactly when its last reference goes |
| BioCache.Bcache.Relink | kernel/bio.c:127-133 | the six pointer writes are an unlink followed by a push at the head |
| BufferList.Unlink | kernel/bio.c:127-128 | unlinking takes one node out of the cycle and keeps both link directions consistent |
| BufferList.Push | kernel/bio.c:129-132 | linking in after the head adds one node and keeps both directions consistent |
| FsBits.WordOfSet | kernel/fs.c:398-416 | storing a little-endian word in an indirect block changes that word only |
| FsBits.BitOfSet | kernel/fs.c:75-78 | marking a block in use changes its bit only |
| FsBits.BitOfClear | kernel/fs.c:98-102 | freeing a block changes its bit only |
| FsDisk.FileSystem.Balloc | kernel/fs.c:65-88 | returns the first block whose bit is clear, marked and zeroed, or 0 exactly when all are set; ownership is kept |
| FsDisk.FileSystem.Bfree | kernel/fs.c:91-105 | clears one bit |
| FsDisk.FileSystem.Bmap | kernel/fs.c:382-421 | gives the file's block, taking exactly as many free blocks as it and the indirect block lack, or 0 exactly when fewer were free; no byte of any file changes and every block keeps one owner, on the out-of-space paths too |
| FsSpace.AllotsAfter | kernel/fs.c:398-416 | making the indirect block and then the block listed in it succeeds exactly when two blocks are free, and takes both |
| FsSpace.AllottedMore | kernel/fs.c:515-518 | what a range of blocks takes is the sum of what bmap takes for each, and it fails at the first block for which too few were free before the range |
| FsSpace.NeedNothing | kernel/fs.c:382-421 | within a file without holes nothing is taken |
| FsSpace.NeedSplit | kernel/file.c:150-174 | the blocks a range needs are those its first part needed and those the rest needs after it, over chunks that share a block too |
| FsSpace.AllottedJoin | kernel/file.c:150-174 | chunks that each took exactly the blocks they lacked took together exactly what the whole range lacked |
| FsDisk.FileSystem.Itrunc | kernel/fs.c:425-453 | empties the inode, frees exactly the blocks it owned, and changes no other inode and no block; no bfree on the way can find a clear bit; files without holes stay so |
| Fs.TakeOk | kernel/fs.c:65-88 | a block with a clear bit is nobody's, and taking it disturbs no pointer |
| Fs.AttachOk | kernel/fs.c:390-416 | linking a new block in at an empty place keeps: a bit is set iff the block is metadata or stored at exactly one place |
| Fs.TruncatedOk | kernel/fs.c:425-453 | forgetting one inode's blocks leaves every other block owned as before |
| Fs.FreeOne | kernel/fs.c:91-105 | the block at a place not freed yet still has its bit, so "freeing free block" is out of reach |
| FsFile.AttachFiles | kernel/fs.c:382-421 | linking in a zeroed block changes no byte of any file |
| FsFile.WriteBlock | kernel/fs.c:517-528 | writing a data block changes that block of that file only |
| FsFile.ReadBack | kernel/fs.c:471-539 | reading where a write went returns what was written, across direct and indirect blocks |
| FsDisk.FileSystem.Readi | kernel/fs.c:471-498 | returns exactly the slice at off up to the size, or -1 exactly when the destination faults |
| FsDisk.FileSystem.Writei | kernel/fs.c:505-539 | the file becomes the splice of the bytes copied at off, of its inode only the size and the addresses change, all other files stay and files without holes stay so; the count is exact, by what can be read and by the blocks free before the call, and so is whether bytes are left past it; every block that changed is logged but the one a fault leaves bytes in; up to three blocks of data log at most 10 blocks |
| FsExamples.FaultLeavesByte | kernel/fs.c:522-525 | on a disk with one file, a write of two bytes of which the second cannot be read counts none and changes the first |
| FsDisk.FileSystem.Filewrite | kernel/file.c:150-174 | returns n exactly when the source is readable, the range is allowed and the blocks free before the call are enough for all of it; otherwise it stops in the chunk, and at the byte, that was the first to want for one of these, and returns -1; the offset ends where it stopped, and so does the file if it was shorter; one transaction for every 3072 bytes, each logging at most MAXOPBLOCKS blocks, together every block that changed but at most one a fault leaves bytes in; the chunks together are one splice, and after each the disk is right and a prefix of it is done |
| FsCrash.WriteSurvivesCrash | kernel/file.c:150-174 | wherever a write is cut by a crash, and however often recovery is, the recovered disk holds the state after exactly the transactions that committed: every block has one owner and the file has the bytes of these and no others |
| FsCrash.WriteReachesDisk | kernel/file.c:150-174 | uncut, the disk holds the state in memory but for the block a fault leaves bytes in |
| FsCrash.FilewriteSurvives | kernel/file.c:150-174 | filewrite's transactions are such a write, for any log with room for one and whatever order they list their blocks in |
| FsCrash.CommitsValid | kernel/log.c:214-235 | the blocks of an operation lie outside the log and fit in it |
| Dir.Namecmp | kernel/fs.c:543-547 | two names compare equal exactly when they agree up to a NUL or 14 characters |
| Dir.Strncpy | kernel/fs.c:600 | the stored name compares equal to the given one |
| Dir.Dirlookup | kernel/fs.c:551-575 | finds the first entry of that name, or none exactly when there is none |
| Dir.Directory.Dirlink | kernel/fs.c:579-608 | adds exactly one entry, keeps names unique, and fails exactly when the name is there or the write fails |
| Dir.Functional | kernel/fs.c:579-608 | with unique names, a name has at most one inode |
| Dir.WriteEntry | kernel/fs.c:602-603 | writing entry k changes its 16 bytes and no other entry's |
| DirFile.Store | kernel/fs.c:602-603 | dirlink's writei turns the file of the directory from one entry sequence into the one with the entry stored, or leaves it as it was, exactly when the file would be too large or fewer blocks are free than the slot lacks |
| DirFile.SpliceStores | kernel/fs.c:602-603 | splicing the 16 bytes of an entry into the file at slot k stores that entry and keeps the others |
| Dir.OneBlock | kernel/fs.c:559-561 | an entry at a multiple of 16 lies in one block |
| Dir.EncodeInjective | kernel/fs.h:57-60 | the 16 bytes of an entry determine it |
| Path.Skipelem | kernel/fs.c:622-644 | returns the next non-empty piece between slashes, cut to 14 characters, and where the rest starts; the rest is empty exactly at a NUL |
| Path.SpelledElements | kernel/fs.c:622-644 | a path spelled from elements with any number of slashes before, between and after them has exactly these elements |
| Path.ElementsSpell | kernel/fs.c:622-644 | every path is spelled from its elements |
| Path.Inodes.Namex | kernel/fs.c:651-684 | panics exactly when the walk comes to an inode not in use with elements to go; otherwise it is the fold of lookup over the elements, stopping one early for the parent, and leaves exactly one more reference, to the result |
| Path.ClosedNeverPanics | kernel/fs.c:651-684 | where every entry names an inode in use no path panics |
| Path.FollowConcat | kernel/fs.c:661-678 | following a path is following its first part and then the rest |
| Path.WalkFollows | kernel/fs.c:661-678 | names lead to the inode at the end of any walk in which each name's first entry in a directory is for the next inode |
| Path.FollowWalks | kernel/fs.c:661-678 | where names lead there is such a walk |
| Itable.Table.Iget | kernel/fs.c:246-278 | one more reference to the one entry of the inode, a fresh entry if there was none, panic exactly when all are referenced by others |
| Itable.Table.Drop | kernel/fs.c:336-362 | one reference less; entries stay unique |
| Links.LinkedOk | kernel/sysfile.c:145-154 | a new name for a file keeps nlink equal to the number of entries that count |
| Links.UnlinkedOk | kernel/sysfile.c:220-232 | removing a file's name does too, and nlink was not 0 |
| Links.RemovedOk | kernel/sysfile.c:215-232 | removing an empty directory does too: it had one name, its ".." counted for the directory it was in, and that stays linked |
| Links.OnlyReference | kernel/sysfile.c:173-186 | nothing but its one name counts for an empty directory |
| Links.AdoptedOk | kernel/sysfile.c:278-292 | a new directory's name and ".." are counted |
| Links.DroppedOk | kernel/fs.c:336-362 | iput frees an inode exactly when neither a link nor another reference is left |
| NameSpace.Inodes.Iput | kernel/fs.c:336-362 | drops one reference; the inode becomes free exactly when that was the last and nlink is 0, and all counts stay right |
| NameSpace.Inodes.SysLink | kernel/sysfile.c:123-170 | succeeds exactly for a non-directory with a parent, a new name and a write that fits; then one entry is added, to the file, whose nlink is one more; a failure takes the raised nlink back |
| NameSpace.Inodes.SysUnlink | kernel/sysfile.c:188-243 | fails exactly on dots, a missing name or a directory not empty; otherwise exactly that entry goes, with one link of the file and, for a directory, one of the parent; no other count changes and no other entry, but for those of a directory that becomes free |
| NameSpace.Inodes.Create | kernel/sysfile.c:245-302 | an existing name is returned exactly for T_FILE on a file or device; a new one succeeds exactly when an inode is free and every directory write fits, and is an inode with one counted name and, for a directory, its dots; the caller trades its reference to the parent for one to the result; a failure changes nothing but the parent's reference |
| NameSpace.DanglesWhen | kernel/sysfile.c:188-243 | an entry names a free inode if and only if it is the ".." of an unlinked directory and its target has neither links nor references |
| NameSpace.DotDotCanDangle | kernel/sysfile.c:188-243 | a state that keeps all invariants in which the ".." of a held, unlinked directory names a free inode |
| NameSpace.DanglingDotDot | kernel/sysfile.c:188-243 | it comes about whenever a held directory and then the unreferenced directory it was in are unlinked |
| NameSpace.EntryFacts | kernel/fs.c:292-317 | an entry of a linked directory names an inode in use that is itself linked |
| PteBits.PteRoundTrip | kernel/riscv.h:386-390 | an entry built from a page-aligned address and flags gives both back |
| PteBits.VaRoundTrip | kernel/riscv.h:393-395 | the three indexes and the offset determine an address below 2^39 |
| PageTable.TranslateIsView | kernel/vm.c:93-120 | in a well-formed tree the Sv39 translation uses exactly the entry walk finds |
| PageTable.SetView | kernel/vm.c:196-207 | writing a leaf or zero changes the translation of exactly the pages whose path goes through that entry |
| PageTable.GrowKeepsMaps | kernel/vm.c:112-118 | a new table page keeps trees well formed and disjoint and changes no translation |
| VmSpec.OccupiedWhen | kernel/vm.c:222-224 | a level-1 entry is valid exactly when a superpage or a level-0 table is there |
| Vm.Memory.Walk | kernel/vm.c:93-120 | returns the entry for the page, making missing tables if asked, or fails exactly for want of a table or of memory; no translation changes and every page stays accounted for |
| Vm.Memory.Superwalk | kernel/vm.c:125-143 | the same for the level-1 entry |
| Vm.Memory.Walkaddr | kernel/vm.c:148-166 | returns the leaf's base for user pages, which is the page's frame exactly outside the inside of superpages |
| Vm.Memory.Mappages | kernel/vm.c:182-211 | maps the pages one by one to consecutive frames and nothing else; the remap panic is exactly a page already mapped |
| Vm.Memory.Supermappages | kernel/vm.c:213-228 | maps exactly 512 pages; panics exactly when the level-1 entry is occupied |
| VmExamples.StaleTable | kernel/vm.c:222-224 | a tree that maps nothing and still makes supermappages panic |
| Vm.Memory.Uvmunmap | kernel/vm.c:232-276 | from a mapping boundary on it clears exactly the range, and the rest of a superpage the end cuts, and returns exactly their frames and superpages |
| Vm.Memory.UvmunmapKeep | kernel/vm.c:232-276 | for any range, mapped or not, without freeing: it panics exactly when the scan meets a page that is unmapped or went with its superpage just before, and otherwise clears exactly the range widened to whole superpages |
| VmOwned.UnmapExactly | kernel/vm.c:232-276 | over a non-empty range of mapped pages it clears exactly the range if and only if neither end is inside a superpage |
| VmOwned.UnmapTail | kernel/vm.c:245-258 | unmapping the last page of a superpage clears all 512 |
| VmExamples.UnmapTooMuch | kernel/vm.c:245-258 | a tree with one superpage, where unmapping its last page clears all 512 |
| VmBytes.KfreesItsOwn | kernel/vm.c:259-273 | where uvmunmap frees with kfree the page is one of kalloc's if and only if it is not inside a superpage; there it is the superpage's base, and with it on the free list kalloc's pages cannot be accounted for |
| VmOwned.SuperEntry | kernel/vm.c:245-249 | the superpage test finds exactly the superpages |
| Vm.Memory.Kinit | kernel/kalloc.c:34-64 | every page below the pool is free and the pool has all 60 superpages; memory holds what it held |
| Vm.Memory.Kalloc | kernel/kalloc.c:92-108 | one page leaves the free list for the caller, or none exactly when it is empty |
| Vm.Memory.Kfree | kernel/kalloc.c:70-87 | a page the caller has goes back; each page stays in one place |
| Vm.Memory.Superalloc | kernel/kalloc.c:110-122 | one superpage leaves the pool, or none exactly when it is empty |
| Vm.Memory.Superfree | kernel/kalloc.c:124-140 | none of its panics can happen to a superpage the caller holds |
| VmOwned.PoolHasRoom | kernel/kalloc.c:134-136 | the pool never overflows |
| Vm.Memory.Uvmcreate | kernel/vm.c:280-289 | an empty tree, all others unchanged |
| VmCount.TablesCount | kernel/vm.c:93-120 | a forest has as many table pages as places in its trees |
| VmCount.Spent | kernel/vm.c:308-465 | after mappings that account for themselves the free pages are those before without one for each page mapped and one for each table missing on a path, however the paths share tables |
| VmCount.ShortDemand | kernel/vm.c:308-465 | when one of them finds too little, everything up to and with it needs more than there was at the start |
| Vm.Memory.Uvmalloc | kernel/vm.c:308-355 | success maps zeroed pages, as superpages exactly where an aligned one fits; it succeeds exactly when no level-0 table is where a superpage fits and there are enough free pages, for the pages and the tables missing on their paths, and enough free superpages; it then takes exactly these, and running out means there were too few, gives every page back and changes no translation; a panic means that such a table was there |
| VmExamples.WritableAnyway | kernel/vm.c:331-331 | growth from 0 to 2 MiB without PTE_W gives a writable superpage |
| Vm.Memory.Uvmdealloc | kernel/vm.c:361-373 | unmaps exactly the pages between the two sizes, and the rest of a superpage the old size cuts |
| Vm.Memory.Uvmcopy | kernel/vm.c:414-465 | success gives the child pages of the same size, permissions and bytes, superpages too; it succeeds exactly when no level-0 table is where a superpage goes and there are enough free pages and superpages for the parent's memory and the child's tables, and then takes exactly these; running out means there were too few and gives every page back; a panic means that such a table was there |
| VmBytes.FramesApart | kernel/vm.c:414-465 | different user pages, of one or two processes, are in different frames |
| VmOwned.OwnedDetermined | kernel/vm.c:308-465 | equal translations mean equal ownership, so undoing the mappings gives back every leaf page |
| Vm.Memory.Freewalk | kernel/vm.c:378-397 | frees the page and every table below it, and only these |
| Vm.Memory.Uvmfree | kernel/vm.c:401-406 | all memory and tables of the tree become free, the tree is gone, other trees translate as before |
| VmFree.TreeGone | kernel/vm.c:378-406 | no table of a freed tree is left and the other trees are untouched |
| Vm.Memory.Copyout | kernel/vm.c:482-515 | the bytes up to the first page not the user's to write are in place; no other byte of any user's memory changes |
| Vm.Memory.Copyin | kernel/vm.c:520-540 | returns the user's bytes up to the first page not the user's |
| VmBytes.ReadBack | kernel/vm.c:482-540 | what copyout put there copyin reads back |
| VmExamples.WalkaddrWrong | kernel/vm.c:148-166 | a tree with one superpage, where walkaddr of its second page is the frame of its first |
| VmBytes.BaseIsFrame | kernel/vm.c:157-165 | the leaf's base is the page's frame exactly outside the inside of superpages |
| Wakeup.RunInv | kernel/proc.c:547-592 | locks, sleepers and owed wakeups stay consistent in every interleaving, with kill, where any holder of lk may change what each process waits for |
| Wakeup.NoLostWakeup | kernel/proc.c:547-592 | if lk is not given up with a wakeup owed, then whenever lk is free nobody sleeps whose condition holds |
| Wakeup.WakeupMoves | kernel/proc.c:578-592 | the process whose lock a wakeup waits for can go on, and gives it up within three of its own steps |
| Wakeup.WokenGoesOn | kernel/proc.c:547-575 | a woken sleeper whose condition holds, with lk free, gets lk and past its test in five steps of its own |
| Wakeup.WaiterSleeps | kernel/proc.c:547-575 | a process that finds its condition false is asleep on the channel after six steps of its own, with lk free |
| Wakeup.WakeupWakes | kernel/proc.c:578-592 | a wakeup that finds the locks free makes everybody who sleeps on the channel ready, and changes nothing else |
| Sleep.StepMaps | kernel/sleeplock.c:21-41 | every step of a sleep lock is a step of sleep and wakeup with the condition that the lock is free |
| Sleep.RunInv | kernel/sleeplock.c:21-41 | ownership of a sleep lock stays exact in every interleaving |
| Sleep.OneHolder | kernel/sleeplock.c:21-41 | a sleep lock has at most one holder |
| Sleep.FreeLockNoSleeper | kernel/sleeplock.c:21-41 | when the lock is free and no release is under way nobody sleeps on it |
| Sleep.AcquireTakes | kernel/sleeplock.c:21-31 | acquiresleep of a free lock holds it after four steps |
| Sleep.AcquireSleeps | kernel/sleeplock.c:21-31 | acquiresleep of a taken lock is asleep on it after seven steps, with the spin lock free |
| Sleep.WokenTakes | kernel/sleeplock.c:21-31 | a woken sleeper that finds the lock free holds it after seven steps |
| Sleep.ReleaseWakes | kernel/sleeplock.c:33-41 | releasesleep leaves the lock free and everybody who slept on it ready |
| Proc.RunInv | kernel/proc.c:279-508 | the invariant of processes, CPUs and locks holds in every run of fork, exit, wait, sched and the scheduler, with preemption wherever no spin lock is held |
| Proc.OneCpu | kernel/proc.c:444-481 | no process is current on two CPUs |
| Proc.RunningIsRun | kernel/proc.c:444-508 | while p->lock is free p is RUNNING exactly when a CPU runs it |
| Proc.ZombieHasNoChildren | kernel/proc.c:330-385 | a parent pointer names a process that is neither a zombie nor free |
| Proc.FreeSlotIsClean | kernel/proc.c:155-172 | no parent pointer survives into a slot's next use |
| Proc.ReapedOffStack | kernel/proc.c:390-440 | wait frees a child only when no CPU has it current and it will not be scheduled again, and then its slot is free and nobody's child |
| Proc.NoStrandedParent | kernel/proc.c:364-376 | waking the parent before becoming a zombie never leaves it asleep over a zombie child |
| ProcLife.LifeCycle | kernel/proc.c:110-592 | a step changes the state of a process exactly when it is the step that leads there, and only along the edges of the life cycle: fork, preemption and wakeup leave it RUNNABLE, and only its own sleep leaves it SLEEPING |
| ProcLife.ParentChanges | kernel/proc.c:309-440 | a process gets as parent the one that forked it, or init when its parent exits, and loses it only when the parent reaps it |
| ProcLife.NoOrphans | kernel/proc.c:330-342 | after reparent nobody has the exiting process for a parent |
| ProcLife.RunnableCanRun | kernel/proc.c:444-481 | a runnable process can be taken by any CPU that looks for one, or is about to be let go by the one it was on |
| ProcLife.ForkedChildRuns | kernel/proc.c:279-326 | the child fork made can be run by any CPU that looks for one and is then in user code, RUNNING, unlocked, the child of the process that forked it |
| ProcLife.PreemptedGoesOn | kernel/proc.c:490-520 | yield, the scheduler and the way back leave everything as it was but for the CPU |
| ProcLife.SleeperGoesOn | kernel/proc.c:547-592 | a woken sleeper can be run by any CPU that looks for one and goes on where it slept |
| ProcLife.WaitNoticesChildren | kernel/proc.c:390-440 | in every run the scan of wait ends with havekids exactly when the process has a child |
| ProcCalls.ForkReturns | kernel/proc.c:279-326 | fork leaves a runnable child of the caller in the slot, and everything else as it was |
| ProcCalls.WaitReaps | kernel/proc.c:390-440 | wait frees the slot of the first zombie child, and leaves everything else as it was |
| ProcCalls.WaitFails | kernel/proc.c:390-440 | wait without children comes back with everything as it was |
| ProcCalls.WaitSleeps | kernel/proc.c:390-440 | wait with children, none a zombie, ends asleep on its channel, with wait_lock and the CPU free |
| ProcCalls.ExitEnds | kernel/proc.c:347-385 | exit ends as a zombie off its CPU; exactly its children are given to init, and init, if there were any, and the parent are woken if they sleep in wait |
| ProcCalls.ExitIsReaped | kernel/proc.c:347-440 | when a child exits while its parent sleeps in wait, the parent can be taken by the CPU the child left, reaps exactly that child and is back in user code |
| ProcCalls.SleepGoesOff | kernel/proc.c:547-575 | a process that sleeps for something else ends asleep, off its CPU |
| ProcCalls.SleepReturns | kernel/proc.c:547-592 | after a wakeup it is back in user code, with everything as it was |
| Virtio.Conservation | kernel/virtio_disk.c:156-213 | free descriptors and three per request in flight total NUM |
| Virtio.ChainsDisjoint | kernel/virtio_disk.c:215-281 | chains of different requests share no descriptor |
| Virtio.DeviceSeesRequest | kernel/virtio_disk.c:231-262 | the device reads exactly the submitted request from the chain |
| VirtioDisk.Disk.AllocDesc | kernel/virtio_disk.c:156-166 | takes a free descriptor, or fails exactly when there is none |
| VirtioDisk.Disk.Alloc3 | kernel/virtio_disk.c:200-213 | takes three distinct free descriptors, or none and loses none, exactly when fewer than three are free |
| VirtioDisk.Disk.FreeChain | kernel/virtio_disk.c:184-197 | frees exactly the three descriptors of the chain |
| VirtioDisk.Disk.Submit | kernel/virtio_disk.c:215-281 | publishes a request for the two sectors of the block, in the direction asked for and tied to the buffer, and keeps both rings exact across 16-bit wrap; it has to wait exactly when two requests are in flight |
| VirtioDisk.Disk.Intr | kernel/virtio_disk.c:294-327 | with the device completing more requests before every test of the used index, every used entry completes exactly the buffer that was submitted, until none is left; it panics exactly at a request that did not succeed |
| VirtioDisk.Disk.Finish | kernel/virtio_disk.c:283-292 | a completed request gives its descriptors back |
| Pipe.Ring.constructor | kernel/pipe.c:22-46 | an empty pipe open at both ends |
| Pipe.Ring.Write | kernel/pipe.c:76-103 | appends a stretch of the source's bytes; fails exactly when the read end is shut or the process killed, sleeps exactly when the ring is full |
| Pipe.Ring.Read | kernel/pipe.c:105-130 | takes the next bytes in order; at most one byte is lost, to a failing copyout |
| Pipe.LosesByte | kernel/pipe.c:120-126 | one byte is written and read without room: it is gone and nothing was delivered |
| Pipe.Ring.Close | kernel/pipe.c:58-74 | the buffer can go exactly when both ends are shut |
| Console.DoneIsFinal | kernel/console.c:135-179 | a line handed over is never edited again |
| Console.EraseUndoes | kernel/console.c:151-157 | an erase takes back exactly the character typed before it, and nothing on an empty line |
| Console.KillUndoes | kernel/console.c:144-150 | ^U takes back everything typed since the line began, erases in it included |
| Console.LineEnds | kernel/console.c:158-175 | a character is added to the text, and all of it is handed over exactly at a newline, ^D or a full buffer |
| Console.TakeLineMeans | kernel/console.c:79-127 | what one read takes: a stretch of the text, ended by a newline, an end-of-file mark or the count |
| Console.Input.Intr | kernel/console.c:135-179 | each character is one step of the line editor or ignored; the indices stay in order modulo 2^32 |
| Console.Input.KillLine | kernel/console.c:144-150 | ^U removes exactly the line being edited |
| Console.Input.Store | kernel/console.c:158-175 | a character is appended, and the line is handed over at a newline, ^D or a full buffer |
| Console.Input.Read | kernel/console.c:79-127 | reads return the line-edited fold of the accepted input and its count; with the line not complete it sleeps, or returns -1 exactly when the process is killed |
| Console.LosesByte | kernel/console.c:112-117 | of the line typed a read without room takes the first character, which is gone |
| Umalloc.FreeUp | user/umalloc.c:24-44 | joining a freed block with its upper neighbour keeps the arena valid |
| Umalloc.FreeDown | user/umalloc.c:24-44 | joining with the lower neighbour does too |
| Umalloc.TakeTail | user/umalloc.c:75-82 | handing out the tail of a block keeps the arena valid |
| Umalloc.Disjoint | user/umalloc.c:24-90 | blocks of a valid arena do not overlap |
| UmallocHeap.Heap.Locate | user/umalloc.c:29-31 | the search ends at the free block after which the freed one belongs |
| UmallocHeap.Heap.Free | user/umalloc.c:24-44 | the block leaves the live ones; sorted, tiled, no two adjacent free blocks |
| UmallocHeap.Heap.Morecore | user/umalloc.c:46-61 | the new region joins the free list |
| UmallocHeap.Heap.Malloc | user/umalloc.c:63-90 | a new block of the units the request needs; it asks for core exactly when no free block is large enough, and fails exactly when sbrk then refuses; live blocks stay as they were |
| UmallocHeap.CoreRequest | user/umalloc.c:46-61 | what is asked of sbrk is what is recorded exactly up to 2^31 - 32 bytes |
| ShellRoundTrip.RoundTrip | user/sh.c:328-447 | parsing the parenthesised print of any command tree, with fewer than MAXARGS words per command and no white space or symbols in a word, gives that tree |
| ShellRoundTrip.LineParses | user/sh.c:345-360 | the same inside a longer line, at any position, stopping right after the printed tree |
| ShellGrammar.ToksSpell | user/sh.c:266-309 | gettoken cuts any line into the tokens that spell it |
| ShellGrammar.SpellsOnce | user/sh.c:266-309 | no other tokens spell the line |
| ShellGrammar.ParsesEverySentence | user/sh.c:328-447 | every line whose tokens are a sentence of the grammar, with words and redirections in any order and any white space, parses to the command the sentence means |
| ShellGrammar.ParsesOnlySentences | user/sh.c:328-447 | a line that parses is a sentence, and its command has exactly its words, redirections, pipes, lists and blocks, in order |
| ShellGrammar.AcceptsExactly | user/sh.c:328-447 | a line parses if and only if it is a sentence |
| ShellParser.ScanToken | user/sh.c:266-309 | the loop finds the token of the grammar |
| ShellParser.ScanRedirs | user/sh.c:375-398 | the redirections of the grammar, or the panic |
| ShellParser.ScanExec | user/sh.c:416-447 | the command, arguments and redirections of the grammar, which ShellGrammar shows to be those of the tokens |
| ShellParser.ScanLine | user/sh.c:345-360 | the line of the grammar, with its trailing & and ; parts, or the panic |
| ShellParser.NulTerminate | user/sh.c:450-494 | writes a terminator after every word and nothing else |
| ShellParser.ParseInPlace | user/sh.c:328-343 | every word read as a C string is exactly its token |
| Grep.Match | user/grep.c:72-82 | true exactly when the pattern's meaning holds of some suffix, or of the text when anchored |
| Grep.MatchHere | user/grep.c:85-96 | true exactly when the pattern's meaning holds of a prefix |
| Grep.MatchStar | user/grep.c:99-106 | true exactly when some run of matching characters is followed by a match of the rest |

## Left out

- Hardware and assembly: traps, context switch, page-table register, TLB and memory fences. swtch is one step; steps are sequentially consistent.
- Disk blocks: a block write is atomic and ordered; torn writes are not modelled.
- Interleaving inside file-system operations: `FsDisk`, `FsCrash`, `Path` and `NameSpace` see one operation at a time, as if the inode and transaction locks made it atomic; operations that share a commit are treated in `LogSpace` only.
- The on-disk copy of an inode: `FsDisk` keeps one inode value, the one `iupdate` would write. Crashes are treated for block writes (`Log`) and for filewrite (`FsCrash`), not for operations on directories.
- FsDisk.FileSystem.Readi: for files without holes, which Writei, Filewrite and Itrunc keep so (`KeepsWhole`); a hole would make it allocate.
- Vm.Memory.Uvmunmap: requires mapped pages and a start outside superpages, where `KfreesItsOwn` shows it goes wrong; other ranges are covered without freeing by `UvmunmapKeep`.
- Vm.Memory.Copyout: requires that no touched page is inside a superpage, where `walkaddr` is wrong, and that pages above user memory are not user pages.
- Vm.Memory.Copyin: requires that no touched page is inside a superpage and that pages above user memory are not user pages.
- Vm.Memory.Uvmalloc: requires the new pages unmapped and below the trapframe; the source does not check either. After the panic nothing is stated.
- Vm.Memory.Uvmcopy: requires the parent's pages mapped, the end outside superpages and the child empty, as fork has them; a missing page is a panic in the source. After the panic nothing is stated.
- Vm.Memory.Uvmdealloc: requires the pages mapped and the new size outside superpages, for the reason given under Uvmunmap.
- Vm.Memory.Uvmfree: requires no mapping above the size, which freewalk would panic on.
- Vm.Memory.Freewalk: requires that no leaf is left; the source panics on one.
- Vm.Memory.Mappages: requires a readable permission, as every caller gives; an entry without R is a reserved encoding or no leaf.
- NameSpace.Inodes.Create: requires a linked parent; the source does not check it. Looking up the parent's path is not part of it.
- NameSpace.Inodes.SysLink: requires a linked parent other than the file, for the same reason. Looking up the two paths is not part of it.
- UmallocHeap.Heap.Malloc: requires the region sbrk gives to be as large as recorded, above base and unused; `CoreRequest` says when the first is so.
- BioCache.Bcache.Unlock: requires a changed buffer to have been logged or written, as the kernel's callers do.
- FsDisk.FileSystem.Bfree: requires the bit to be set; the source panics otherwise, and `Fs.FreeOne` shows that Itrunc never gets there.
- Link counts, references and pids are unbounded; the source's short and int would wrap.
- LogDevice.Device.RecoverFromLog: for a header this kernel wrote, with distinct blocks outside the log.
- PTE bits G, A, D and the software bits are zero; physical memory contents of table pages other than their entries are not modelled; copyinstr is left out, it goes from page to page as copyin does.
- Wakeup: one channel and one lock; other channels appear as wakeups for no reason of the condition's.
- NameSpace.Inodes.IsDirEmpty: looks at the names of all entries; the source skips the first two slots, where create puts the dots.
- NameSpace.Inodes.Iput: does not model the valid flag; an inode that is linked to nothing and referenced once was read before.
- Dir.Directory.Dirlink: takes the outcome of the write as a flag; `DirFile.Store` is that write.
- Proc: sections under one p->lock are single steps; files, working directory and user memory of a process are not part of it.
- uart, printf, trap and system-call dispatch, exec, string functions, devices other than the disk, mkfs apart from the log size.
- ialloc's scan, file-table reference counts, chdir, mknod and open: they would add only easy members.
